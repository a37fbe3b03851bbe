/** Path patterns: compilation (pkg/cpath/glob.go) and the dynamic-programming
    matcher, proved to compute the declarative meaning of a pattern. */
module Glob {
  import opened Text

  /** A compiled segment: `**`, or an in-segment pattern over [a-z0-9*]. */
  datatype Seg = Globstar | Lit(pat: string)

  datatype Glob = Glob(src: string, segs: seq<Seg>)

  predicate PatternChar(c: char) { IsAlnum(c) || c == '.' || c == '*' }

  predicate StarOrAlnum(c: char) { IsAlnum(c) || c == '*' }

  predicate PathChar(c: char) { IsAlnum(c) || c == '.' }

  /** `s` contains the character `c` twice in a row. */
  predicate Doubled(s: string, c: char) {
    exists i :: 0 <= i < |s| - 1 && s[i] == c && s[i + 1] == c
  }

  /** No leading, trailing or doubled dot. */
  predicate DotsSeparate(s: string) {
    s != "" && !Doubled(s, '.') && s[0] != '.' && s[|s| - 1] != '.'
  }

  predicate ValidPath(path: string) {
    All(path, PathChar) && DotsSeparate(path)
  }

  predicate ValidPiece(p: string) { p == "**" || !Doubled(p, '*') }

  function ToSeg(p: string): Seg { if p == "**" then Globstar else Lit(p) }

  function ToSegs(pieces: seq<string>): (segs: seq<Seg>)
    ensures |segs| == |pieces|
  {
    seq(|pieces|, i requires 0 <= i < |pieces| => ToSeg(pieces[i]))
  }

  function CompileGlob(pattern: string): Option<Glob> {
    if !All(pattern, PatternChar) || !DotsSeparate(pattern) then None
    else
      var pieces := Split(pattern, '.');
      if forall p :: p in pieces ==> ValidPiece(p) then Some(Glob(pattern, ToSegs(pieces))) else None
  }

  // ---- Declarative meaning ------------------------------------------------

  /** `s` is matched by the anchored expression where `*` stands for any run
      of [a-z0-9]. */
  predicate SegMatches(pat: string, s: string)
    decreases |pat| + |s|
  {
    if pat == "" then s == ""
    else if pat[0] == '*' then
      SegMatches(pat[1..], s) || (s != "" && IsAlnum(s[0]) && SegMatches(pat, s[1..]))
    else s != "" && s[0] == pat[0] && SegMatches(pat[1..], s[1..])
  }

  /** `**` matches any number of whole segments. */
  predicate Matches(segs: seq<Seg>, path: seq<string>)
    decreases |segs| + |path|
  {
    if segs == [] then path == []
    else if segs[0].Globstar? then
      Matches(segs[1..], path) || (path != [] && Matches(segs, path[1..]))
    else path != [] && SegMatches(segs[0].pat, path[0]) && Matches(segs[1..], path[1..])
  }

  predicate GlobMatches(g: Glob, path: string) {
    ValidPath(path) && Matches(g.segs, Split(path, '.'))
  }

  /** A pattern cut in two matches by cutting the path somewhere. */
  lemma {:induction false} MatchesCut(p: seq<Seg>, q: seq<Seg>, path: seq<string>) returns (k: nat)
    requires Matches(p + q, path)
    ensures k <= |path| && Matches(p, path[..k]) && Matches(q, path[k..])
    decreases |p| + |path|
  {
    if p == [] {
      assert p + q == q;
      k := 0;
    } else {
      assert (p + q)[1..] == p[1..] + q;
      if p[0].Globstar? && Matches(p[1..] + q, path) {
        k := MatchesCut(p[1..], q, path);
      } else {
        k := MatchesCut(if p[0].Globstar? then p else p[1..], q, path[1..]);
        assert path[..k + 1][1..] == path[1..][..k];
        k := k + 1;
      }
    }
  }

  lemma {:induction false} MatchesGlue(p: seq<Seg>, q: seq<Seg>, a: seq<string>, b: seq<string>)
    requires Matches(p, a) && Matches(q, b)
    ensures Matches(p + q, a + b)
    decreases |p| + |a|
  {
    if p == [] {
      assert p + q == q && a + b == b;
    } else {
      assert (p + q)[1..] == p[1..] + q;
      if p[0].Globstar? && Matches(p[1..], a) {
        MatchesGlue(p[1..], q, a, b);
      } else {
        assert (a + b)[1..] == a[1..] + b;
        MatchesGlue(if p[0].Globstar? then p else p[1..], q, a[1..], b);
      }
    }
  }

  lemma {:induction false} GlobstarMatchesAll(path: seq<string>)
    ensures Matches([Globstar], path)
  {
    if path == [] {
      assert Matches([], path);
    } else {
      GlobstarMatchesAll(path[1..]);
    }
  }

  /** The last segment being `**`, some prefix of the path matches the rest. */
  lemma LastGlobstar(p: seq<Seg>, path: seq<string>)
    ensures Matches(p + [Globstar], path) <==> exists k :: 0 <= k <= |path| && Matches(p, path[..k])
  {
    if Matches(p + [Globstar], path) {
      var k := MatchesCut(p, [Globstar], path);
    }
    forall k | 0 <= k <= |path| && Matches(p, path[..k])
      ensures Matches(p + [Globstar], path)
    {
      GlobstarMatchesAll(path[k..]);
      MatchesGlue(p, [Globstar], path[..k], path[k..]);
      assert path[..k] + path[k..] == path;
    }
  }

  lemma LastLit(p: seq<Seg>, pat: string, path: seq<string>, last: string)
    ensures Matches(p + [Lit(pat)], path + [last]) <==> Matches(p, path) && SegMatches(pat, last)
    ensures !Matches(p + [Lit(pat)], [])
  {
    var whole := path + [last];
    if Matches(p + [Lit(pat)], whole) {
      var k := MatchesCut(p, [Lit(pat)], whole);
      assert [Lit(pat)][1..] == [];
      assert |whole[k..]| == 1;
      assert whole[..k] == path;
    }
    if Matches(p, path) && SegMatches(pat, last) {
      assert Matches([Lit(pat)], [last]);
      MatchesGlue(p, [Lit(pat)], path, [last]);
    }
    if Matches(p + [Lit(pat)], []) {
      var k := MatchesCut(p, [Lit(pat)], []);
      assert false;
    }
  }

  /** A pattern cut in two means the path cut in two. */
  lemma MatchesJoin(p: seq<Seg>, q: seq<Seg>, path: seq<string>)
    ensures Matches(p + q, path) <==> exists k :: 0 <= k <= |path| && Matches(p, path[..k]) && Matches(q, path[k..])
  {
    if Matches(p + q, path) {
      var k := MatchesCut(p, q, path);
    }
    if k :| 0 <= k <= |path| && Matches(p, path[..k]) && Matches(q, path[k..]) {
      MatchesGlue(p, q, path[..k], path[k..]);
      assert path[..k] + path[k..] == path;
    }
  }

  /** A single segment means a single piece. */
  lemma MatchesOne(pat: string, path: seq<string>)
    ensures Matches([Lit(pat)], path) <==> |path| == 1 && SegMatches(pat, path[0])
  {
    if path != [] {
      assert Matches([], path[1..]) <==> path[1..] == [];
    }
  }

  lemma {:induction false} SegCut(p: string, q: string, s: string) returns (k: nat)
    requires SegMatches(p + q, s)
    ensures k <= |s| && SegMatches(p, s[..k]) && SegMatches(q, s[k..])
    decreases |p| + |s|
  {
    if p == "" {
      assert p + q == q;
      k := 0;
    } else {
      assert (p + q)[1..] == p[1..] + q;
      if p[0] == '*' && SegMatches(p[1..] + q, s) {
        k := SegCut(p[1..], q, s);
      } else {
        k := SegCut(if p[0] == '*' then p else p[1..], q, s[1..]);
        assert s[..k + 1][1..] == s[1..][..k];
        k := k + 1;
      }
    }
  }

  lemma {:induction false} SegGlue(p: string, q: string, a: string, b: string)
    requires SegMatches(p, a) && SegMatches(q, b)
    ensures SegMatches(p + q, a + b)
    decreases |p| + |a|
  {
    if p == "" {
      assert p + q == q && a + b == b;
    } else {
      assert (p + q)[1..] == p[1..] + q;
      if p[0] == '*' && SegMatches(p[1..], a) {
        SegGlue(p[1..], q, a, b);
      } else {
        assert (a + b)[1..] == a[1..] + b;
        SegGlue(if p[0] == '*' then p else p[1..], q, a[1..], b);
      }
    }
  }

  /** So within a segment; and a star means any run of letters and digits. With
      `LiteralSeg` this says what every segment pattern matches. */
  lemma SegJoin(p: string, q: string, s: string)
    ensures SegMatches(p + q, s) <==> exists k :: 0 <= k <= |s| && SegMatches(p, s[..k]) && SegMatches(q, s[k..])
  {
    if SegMatches(p + q, s) {
      var k := SegCut(p, q, s);
    }
    if k :| 0 <= k <= |s| && SegMatches(p, s[..k]) && SegMatches(q, s[k..]) {
      SegGlue(p, q, s[..k], s[k..]);
      assert s[..k] + s[k..] == s;
    }
  }

  lemma {:induction false} StarMeans(s: string)
    ensures SegMatches("*", s) <==> All(s, IsAlnum)
  {
    assert "*"[1..] == "";
    if s != "" {
      StarMeans(s[1..]);
      assert s == [s[0]] + s[1..];
      forall i | 0 <= i < |s[1..]| ensures s[1..][i] == s[i + 1] {}
      if IsAlnum(s[0]) && All(s[1..], IsAlnum) {
        forall i | 0 <= i < |s| ensures IsAlnum(s[i]) { assert i > 0 ==> s[1..][i - 1] == s[i]; }
      }
      if All(s, IsAlnum) {
        forall i | 0 <= i < |s[1..]| ensures IsAlnum(s[1..][i]) { assert s[1..][i] == s[i + 1]; }
      }
    }
  }

  /** A pattern compiles exactly if it is pieces joined by dots, each a double star
      or a non-empty run of letters, digits and single stars. */
  lemma CompilesExactly(pattern: string)
    ensures CompileGlob(pattern).Some? <==>
            forall p :: p in Split(pattern, '.') ==>
              p == "**" || (p != "" && All(p, StarOrAlnum) && !Doubled(p, '*'))
  {
    var pieces := Split(pattern, '.');
    DotsSeparatePieces(pattern);
    SplitPieces(pattern, '.');
    JoinSplit(pattern, '.');
    assert NonEmpty(pieces) <==> forall p :: p in pieces ==> p != "" by {
      if forall p :: p in pieces ==> p != "" {
        forall i | 0 <= i < |pieces| ensures pieces[i] != "" { assert pieces[i] in pieces; }
      }
    }
    PieceChars(pattern);
  }

  /** The characters of the pieces are those of the pattern but for the dots. */
  lemma PieceChars(pattern: string)
    ensures All(pattern, PatternChar) <==> forall p :: p in Split(pattern, '.') ==> All(p, StarOrAlnum)
  {
    var pieces := Split(pattern, '.');
    SplitPieces(pattern, '.');
    JoinSplit(pattern, '.');
    if All(pattern, PatternChar) {
      forall p, i | p in pieces && 0 <= i < |p| ensures StarOrAlnum(p[i]) {
        assert p[i] in p && p[i] != '.';
        JoinChars(pieces, '.', p[i]);
      }
    }
    if forall p :: p in pieces ==> All(p, StarOrAlnum) {
      forall i | 0 <= i < |pattern| ensures PatternChar(pattern[i]) { JoinedChar(pieces, i); }
    }
  }

  lemma {:induction false} JoinedChar(pieces: seq<string>, i: nat)
    requires i < |Join(pieces, '.')| && forall p :: p in pieces ==> All(p, StarOrAlnum)
    ensures PatternChar(Join(pieces, '.')[i])
  {
    if |pieces| == 1 {
      assert pieces[0] in pieces;
    } else {
      var s, rest := Join(pieces, '.'), Join(pieces[1..], '.');
      assert s == pieces[0] + ['.'] + rest && pieces[0] in pieces;
      if i > |pieces[0]| {
        assert s[i] == rest[i - |pieces[0]| - 1];
        JoinedChar(pieces[1..], i - |pieces[0]| - 1);
      }
    }
  }

  // ---- Fast paths ---------------------------------------------------------

  lemma {:induction false} LiteralSeg(pat: string, s: string)
    requires '*' !in pat
    ensures SegMatches(pat, s) <==> pat == s
  {
    if pat != "" {
      if s != "" {
        LiteralSeg(pat[1..], s[1..]);
        assert pat == [pat[0]] + pat[1..] && s == [s[0]] + s[1..];
      }
    }
  }

  lemma {:induction false} LiteralPieces(pieces: seq<string>, path: seq<string>)
    requires forall p :: p in pieces ==> '*' !in p
    ensures Matches(ToSegs(pieces), path) <==> pieces == path
  {
    if pieces != [] {
      assert pieces[0] in pieces;
      assert ToSegs(pieces)[1..] == ToSegs(pieces[1..]);
      if path != [] {
        LiteralSeg(pieces[0], path[0]);
        LiteralPieces(pieces[1..], path[1..]);
        assert pieces == [pieces[0]] + pieces[1..] && path == [path[0]] + path[1..];
      }
    }
  }

  /** A pattern without `*` matches exactly its own text. */
  lemma LiteralPattern(src: string, path: string)
    requires '*' !in src
    ensures Matches(ToSegs(Split(src, '.')), Split(path, '.')) <==> src == path
  {
    JoinSplit(src, '.');
    JoinSplit(path, '.');
    JoinChars(Split(src, '.'), '.', '*');
    LiteralPieces(Split(src, '.'), Split(path, '.'));
  }

  // ---- The matcher --------------------------------------------------------

  /** Row `a` of the table is right: entry `b` says whether the first `a`
      pattern segments match the first `b` path segments. */
  ghost predicate RowRight(dp: array2<bool>, a: nat, segs: seq<Seg>, path: seq<string>)
    requires dp.Length0 == |segs| + 1 && dp.Length1 == |path| + 1 && a <= |segs|
    reads dp
  {
    forall b :: 0 <= b <= |path| ==> dp[a, b] == Matches(segs[..a], path[..b])
  }

  ghost predicate RowsBlank(dp: array2<bool>, a: nat)
    reads dp
  {
    forall c, b :: a <= c < dp.Length0 && 0 <= b < dp.Length1 ==> !dp[c, b]
  }

  method FillGlobstarRow(dp: array2<bool>, i: nat, segs: seq<Seg>, path: seq<string>)
    requires i < |segs| && segs[i].Globstar?
    requires dp.Length0 == |segs| + 1 && dp.Length1 == |path| + 1
    requires RowRight(dp, i, segs, path) && RowsBlank(dp, i + 1)
    modifies dp
    ensures RowRight(dp, i + 1, segs, path) && RowsBlank(dp, i + 2)
  {
    var sLen := |path|;
    var any, leftmost: nat := false, sLen + 1;
    var n := i + 1;
    for j := 0 to sLen + 1
      invariant any <==> exists k :: 0 <= k < j && dp[i, k]
      invariant any ==> leftmost < j <= sLen + 1 && dp[i, leftmost]
      invariant !any ==> leftmost == sLen + 1
      invariant forall k :: 0 <= k < j && dp[i, k] ==> leftmost <= k
    {
      if dp[i, j] {
        any := true;
        if j < leftmost { leftmost := j; }
      }
    }
    if any {
      dp[n, leftmost] := true;
      for k := leftmost to sLen + 1
        invariant forall b :: 0 <= b <= sLen ==> dp[n, b] == (leftmost <= b < k || b == leftmost)
        invariant forall b :: 0 <= b <= sLen ==> dp[i, b] == old(dp[i, b])
        invariant RowsBlank(dp, i + 2)
      {
        dp[n, k] := true;
      }
    }
    assert segs[..i + 1] == segs[..i] + [Globstar];
    forall b | 0 <= b <= sLen
      ensures dp[i + 1, b] == Matches(segs[..i + 1], path[..b])
    {
      LastGlobstar(segs[..i], path[..b]);
      assert forall k :: 0 <= k <= b ==> path[..b][..k] == path[..k];
    }
  }

  method FillLitRow(dp: array2<bool>, i: nat, segs: seq<Seg>, path: seq<string>)
    requires i < |segs| && segs[i].Lit?
    requires dp.Length0 == |segs| + 1 && dp.Length1 == |path| + 1
    requires RowRight(dp, i, segs, path) && RowsBlank(dp, i + 1)
    modifies dp
    ensures RowRight(dp, i + 1, segs, path) && RowsBlank(dp, i + 2)
  {
    var n := i + 1;
    for j := 0 to |path|
      invariant forall b :: 0 <= b <= |path| ==> dp[i, b] == old(dp[i, b])
      invariant forall b :: 0 <= b < j ==> dp[n, b + 1] == (dp[i, b] && SegMatches(segs[i].pat, path[b]))
      invariant forall b :: j < b <= |path| ==> !dp[n, b]
      invariant !dp[n, 0]
      invariant RowsBlank(dp, i + 2)
    {
      if dp[i, j] && SegMatches(segs[i].pat, path[j]) {
        dp[n, j + 1] := true;
      }
    }
    assert segs[..i + 1] == segs[..i] + [Lit(segs[i].pat)];
    forall b | 0 <= b <= |path|
      ensures dp[i + 1, b] == Matches(segs[..i + 1], path[..b])
    {
      if b == 0 {
        LastLit(segs[..i], segs[i].pat, [], "");
      } else {
        LastLit(segs[..i], segs[i].pat, path[..b - 1], path[b - 1]);
        assert path[..b] == path[..b - 1] + [path[b - 1]];
      }
    }
  }

  method MatchTable(segs: seq<Seg>, path: seq<string>) returns (r: bool)
    ensures r == Matches(segs, path)
  {
    var dp := new bool[|segs| + 1, |path| + 1]((i, j) => false);
    dp[0, 0] := true;
    for i := 0 to |segs|
      invariant RowRight(dp, i, segs, path) && RowsBlank(dp, i + 1)
    {
      if segs[i].Globstar? {
        FillGlobstarRow(dp, i, segs, path);
      } else {
        FillLitRow(dp, i, segs, path);
      }
    }
    assert segs[..|segs|] == segs && path[..|path|] == path;
    r := dp[|segs|, |path|];
  }

  /** The matcher, with its literal and match-all shortcuts, decides exactly
      the declarative meaning of the compiled pattern. */
  method Match(g: Glob, path: string) returns (r: bool)
    requires CompileGlob(g.src) == Some(g)
    ensures r == GlobMatches(g, path)
  {
    if !ValidPath(path) {
      return false;
    }
    var segs := Split(path, '.');
    if '*' !in g.src {
      LiteralPattern(g.src, path);
      return g.src == path;
    }
    if |g.segs| == 1 && g.segs[0].Globstar? {
      GlobstarMatchesAll(segs);
      assert g.segs == [Globstar];
      return true;
    }
    r := MatchTable(g.segs, segs);
  }

  // ---- Facts about patterns that the scope layer uses ---------------------

  lemma DoubledTail(s: string, c: char)
    requires |s| >= 1
    ensures Doubled(s, c) <==> (|s| >= 2 && s[0] == c && s[1] == c) || Doubled(s[1..], c)
  {
    if Doubled(s, c) && !(|s| >= 2 && s[0] == c && s[1] == c) {
      var i :| 0 <= i < |s| - 1 && s[i] == c && s[i + 1] == c;
      assert s[1..][i - 1] == c && s[1..][i - 1 + 1] == c;
    }
    if Doubled(s[1..], c) {
      var i :| 0 <= i < |s[1..]| - 1 && s[1..][i] == c && s[1..][i + 1] == c;
      assert s[i + 1] == c && s[i + 1 + 1] == c;
    }
  }

  ghost predicate NonEmpty(pieces: seq<string>) {
    forall i :: 0 <= i < |pieces| ==> pieces[i] != ""
  }

  /** A string's pieces are all non-empty exactly when its dots separate. */
  lemma {:induction false} DotsSeparatePieces(s: string)
    ensures DotsSeparate(s) <==> NonEmpty(Split(s, '.'))
    decreases |s|, 1
  {
    if s == "" {
      assert Split(s, '.')[0] == "";
    } else {
      var rest := Split(s[1..], '.');
      DoubledTail(s, '.');
      if s[0] == '.' {
        assert Split(s, '.')[0] == "";
      } else {
        LaterPieces(s[1..]);
        assert Split(s, '.')[1..] == rest[1..];
        assert NonEmpty(Split(s, '.')) <==> NonEmpty(rest[1..]) by {
          assert forall i :: 1 <= i < |rest| ==> Split(s, '.')[i] == rest[1..][i - 1];
        }
      }
    }
  }

  lemma {:induction false} LaterPieces(t: string)
    ensures NonEmpty(Split(t, '.')[1..]) <==> !Doubled(t, '.') && (t == "" || t[|t| - 1] != '.')
    decreases |t|, 0
  {
    if t != "" {
      var u := t[1..];
      DoubledTail(t, '.');
      if t[0] == '.' {
        DotsSeparatePieces(u);
        assert Split(t, '.')[1..] == Split(u, '.');
      } else {
        LaterPieces(u);
        assert Split(t, '.')[1..] == Split(u, '.')[1..];
      }
    }
  }

  // ---- Every pattern matches something ------------------------------------

  /** The text with every star filled in. */
  function Filled(s: string): (r: string)
    ensures |r| == |s|
  {
    seq(|s|, i requires 0 <= i < |s| => if s[i] == '*' then 'a' else s[i])
  }

  function FilledAll(pieces: seq<string>): (r: seq<string>)
    ensures |r| == |pieces|
  {
    seq(|pieces|, i requires 0 <= i < |pieces| => Filled(pieces[i]))
  }

  lemma {:induction false} FilledSplit(s: string)
    ensures Split(Filled(s), '.') == FilledAll(Split(s, '.'))
  {
    if s != "" {
      FilledSplit(s[1..]);
      assert Filled(s)[1..] == Filled(s[1..]);
      var rest := Split(s[1..], '.');
      assert s[0] != '.' ==> Filled([s[0]] + rest[0]) == [Filled(s)[0]] + Filled(rest[0]);
    }
  }

  lemma {:induction false} FilledSeg(pat: string)
    ensures SegMatches(pat, Filled(pat))
  {
    if pat != "" {
      FilledSeg(pat[1..]);
      var s := Filled(pat);
      assert s[1..] == Filled(pat[1..]);
      if pat[0] == '*' {
        assert SegMatches(pat, s[1..]);
      }
    }
  }

  lemma {:induction false} FilledMatches(pieces: seq<string>)
    ensures Matches(ToSegs(pieces), FilledAll(pieces))
  {
    if pieces != [] {
      var segs, path := ToSegs(pieces), FilledAll(pieces);
      FilledMatches(pieces[1..]);
      FilledSeg(pieces[0]);
      assert segs[1..] == ToSegs(pieces[1..]) && path[1..] == FilledAll(pieces[1..]);
      if segs[0].Globstar? {
        assert Matches(segs, path[1..]);
      }
    }
  }

  lemma FilledValid(d: string)
    requires All(d, PatternChar) && DotsSeparate(d)
    ensures ValidPath(Filled(d))
  {
    var path := Filled(d);
    assert All(path, PathChar);
    FilledSplit(d);
    DotsSeparatePieces(d);
    DotsSeparatePieces(path);
  }

  /** A compiled pattern matches some valid path. */
  lemma Matchable(d: string)
    requires CompileGlob(d).Some?
    ensures GlobMatches(CompileGlob(d).value, Filled(d))
  {
    FilledValid(d);
    FilledSplit(d);
    FilledMatches(Split(d, '.'));
  }
}
