/** Resource names `crn:tenant/<tid>/org/<oid>/site/<sid>(/<node>)*`
    (core/crn.go): parsing, printing, and the reading of legacy dot scopes. */
module Crn {
  import opened Text
  import opened Names
  import opened Glob

  datatype Crn = Crn(tid: string, oid: string, sid: string, tail: seq<string>)

  const PREFIX := "crn:"

  predicate IsGlobSeg(seg: string) {
    seg == "**" || (seg != "" && All(seg, StarOrAlnum) && !Doubled(seg, '*'))
  }

  predicate IsTidOrOid(s: string) { IsGlobSeg(s) || ValidTenantSlug(s) }

  predicate IsSite(s: string) { s != "" && All(s, StarOrAlnum) }

  /** One dotted piece of a node. The empty piece is accepted: it passes the
      literal loop. */
  predicate NodePiece(p: string) {
    p == "*" || p == "**" || All(p, IsAlnum) || (All(p, StarOrAlnum) && '*' in p && !Doubled(p, '*'))
  }

  predicate ValidNode(seg: string) {
    seg != "" && forall p :: p in Split(seg, '.') ==> NodePiece(p)
  }

  predicate ValidNodes(nodes: seq<string>) {
    forall i :: 0 <= i < |nodes| ==> ValidNode(nodes[i])
  }

  /** The dotted pieces of all nodes, in order. */
  function Pieces(nodes: seq<string>): seq<string> {
    if nodes == [] then [] else Split(nodes[0], '.') + Pieces(nodes[1..])
  }

  predicate HeaderOk(parts: seq<string>) {
    && |parts| >= 6
    && parts[0] == "tenant" && parts[2] == "org" && parts[4] == "site"
    && IsTidOrOid(parts[1]) && IsTidOrOid(parts[3]) && IsSite(parts[5])
  }

  function FromParts(parts: seq<string>): Option<Crn> {
    if HeaderOk(parts) && ValidNodes(parts[6..])
    then Some(Crn(parts[1], parts[3], parts[5], Pieces(parts[6..])))
    else None
  }

  function Parse(s: string): Option<Crn> {
    if HasPrefix(s, PREFIX) then FromParts(Split(s[|PREFIX|..], '/')) else None
  }

  function Parts(c: Crn): seq<string> {
    ["tenant", c.tid, "org", c.oid, "site", c.sid] + c.tail
  }

  function Print(c: Crn): string { PREFIX + Join(Parts(c), '/') }

  function DotPath(c: Crn): string { Join([c.sid] + c.tail, '.') }

  function LegacyToCrn(dotGlob: string, tokenTenant: string): Crn {
    if dotGlob == "" then Crn("", "", "", [])
    else
      var parts := Split(dotGlob, '.');
      Crn(tokenTenant, "default", parts[0], parts[1..])
  }

  // ---- The loops of the original ------------------------------------------

  method TailOf(nodes: seq<string>) returns (r: Option<seq<string>>)
    ensures r == if ValidNodes(nodes) then Some(Pieces(nodes)) else None
  {
    var tail: seq<string> := [];
    for i := 0 to |nodes|
      invariant ValidNodes(nodes[..i])
      invariant tail + Pieces(nodes[i..]) == Pieces(nodes)
    {
      if !ValidNode(nodes[i]) {
        return None;
      }
      assert nodes[i..][1..] == nodes[i + 1..];
      assert nodes[..i + 1] == nodes[..i] + [nodes[i]];
      tail := tail + Split(nodes[i], '.');
    }
    assert nodes[..|nodes|] == nodes && nodes[|nodes|..] == [];
    assert tail + Pieces([]) == tail;
    r := Some(tail);
  }

  method ParseCRN(s: string) returns (r: Option<Crn>)
    ensures r == Parse(s)
  {
    if !HasPrefix(s, PREFIX) {
      return None;
    }
    var parts := Split(s[|PREFIX|..], '/');
    if !HeaderOk(parts) {
      return None;
    }
    var tail := TailOf(parts[6..]);
    r := if tail.None? then None else Some(Crn(parts[1], parts[3], parts[5], tail.value));
  }

  /** The text a builder loop appends for `segs`, each led by `sep`. */
  function Led(segs: seq<string>, sep: char): string {
    if segs == [] then "" else [sep] + segs[0] + Led(segs[1..], sep)
  }

  lemma {:induction false} JoinIsLed(head: string, segs: seq<string>, sep: char)
    ensures Join([head] + segs, sep) == head + Led(segs, sep)
    decreases |segs|
  {
    assert ([head] + segs)[1..] == segs;
    if segs != [] {
      JoinIsLed(segs[0], segs[1..], sep);
      assert [segs[0]] + segs[1..] == segs;
      assert head + [sep] + (segs[0] + Led(segs[1..], sep)) == head + ([sep] + segs[0] + Led(segs[1..], sep));
    }
  }

  method AppendLed(start: string, segs: seq<string>, sep: char) returns (b: string)
    ensures b == start + Led(segs, sep)
  {
    b := start;
    for i := 0 to |segs|
      invariant b + Led(segs[i..], sep) == start + Led(segs, sep)
    {
      assert segs[i..][1..] == segs[i + 1..];
      assert b + ([sep] + segs[i] + Led(segs[i + 1..], sep)) == b + [sep] + segs[i] + Led(segs[i + 1..], sep);
      b := b + [sep] + segs[i];
    }
  }

  method RenderDotPath(c: Crn) returns (b: string)
    ensures b == DotPath(c)
  {
    JoinIsLed(c.sid, c.tail, '.');
    if |c.tail| == 0 {
      return c.sid;
    }
    b := AppendLed(c.sid, c.tail, '.');
  }

  lemma Regroup(front: string, sid: string, led: string)
    ensures PREFIX + (front + "/" + (sid + led)) == PREFIX + front + "/" + sid + led
  {}

  lemma PrintIsLed(c: Crn)
    ensures Print(c) == PREFIX + "tenant/" + c.tid + "/org/" + c.oid + "/site/" + c.sid + Led(c.tail, '/')
  {
    var head := ["tenant", c.tid, "org", c.oid, "site"];
    var rest := [c.sid] + c.tail;
    assert Parts(c) == head + rest;
    assert Join(Parts(c), '/') == Join(head, '/') + "/" + Join(rest, '/') by { JoinAppend(head, rest, '/'); }
    assert Join(rest, '/') == c.sid + Led(c.tail, '/') by { JoinIsLed(c.sid, c.tail, '/'); }
    var front := "tenant/" + c.tid + "/org/" + c.oid + "/site";
    assert Join(head, '/') == front by { JoinHead(c.tid, c.oid); }
    Regroup(front, c.sid, Led(c.tail, '/'));
  }

  lemma JoinHead(tid: string, oid: string)
    ensures Join(["tenant", tid, "org", oid, "site"], '/') == "tenant/" + tid + "/org/" + oid + "/site"
  {
    JoinIsLed("tenant", [tid, "org", oid, "site"], '/');
    assert Led(["site"], '/') == "/site";
    assert Led([oid, "site"], '/') == "/" + oid + "/site" by { assert [oid, "site"][1..] == ["site"]; }
    assert Led(["org", oid, "site"], '/') == "/org/" + oid + "/site" by {
      assert ["org", oid, "site"][1..] == [oid, "site"];
    }
    assert [tid, "org", oid, "site"][1..] == ["org", oid, "site"];
  }

  method RenderCRN(c: Crn) returns (b: string)
    ensures b == Print(c)
  {
    b := AppendLed(PREFIX + "tenant/" + c.tid + "/org/" + c.oid + "/site/" + c.sid, c.tail, '/');
    PrintIsLed(c);
  }

  // ---- Printing and parsing undo each other -------------------------------

  lemma Plain(s: string, c: char)
    requires All(s, StarOrAlnum) && !StarOrAlnum(c)
    ensures c !in s
  {}

  lemma {:induction false} ParsedPieces(nodes: seq<string>)
    requires ValidNodes(nodes)
    ensures forall p :: p in Pieces(nodes) ==> NodePiece(p)
  {
    if nodes != [] {
      assert ValidNode(nodes[0]);
      assert ValidNodes(nodes[1..]) by {
        assert forall i :: 0 <= i < |nodes[1..]| ==> nodes[1..][i] == nodes[i + 1];
      }
      ParsedPieces(nodes[1..]);
    }
  }

  /** Pieces that hold no dot are their own pieces. */
  lemma {:induction false} PiecesOfPieces(ps: seq<string>)
    requires forall p :: p in ps ==> NodePiece(p)
    ensures Pieces(ps) == ps
    ensures ValidNodes(ps) <==> NonEmpty(ps)
  {
    if ps != [] {
      assert ps[0] in ps;
      Plain(ps[0], '.');
      SplitSingle(ps[0], '.');
      PiecesOfPieces(ps[1..]);
      assert ps == [ps[0]] + ps[1..];
      assert forall i :: 1 <= i < |ps| ==> ps[1..][i - 1] == ps[i];
      assert ValidNodes(ps) <==> ValidNode(ps[0]) && ValidNodes(ps[1..]);
      assert NonEmpty(ps) <==> ps[0] != "" && NonEmpty(ps[1..]);
    }
  }

  lemma TidOidPlain(s: string)
    requires IsTidOrOid(s)
    ensures '/' !in s
  {
    if ValidTenantSlug(s) {
      assert s == [s[0]] + s[1..];
    }
  }

  /** The parts of a well-formed name survive printing. */
  lemma PrintedParts(c: Crn)
    requires IsTidOrOid(c.tid) && IsTidOrOid(c.oid) && IsSite(c.sid)
    requires forall p :: p in c.tail ==> NodePiece(p)
    ensures HasPrefix(Print(c), PREFIX) && Split(Print(c)[|PREFIX|..], '/') == Parts(c)
  {
    TidOidPlain(c.tid);
    TidOidPlain(c.oid);
    Plain(c.sid, '/');
    forall p | p in c.tail ensures '/' !in p { Plain(p, '/'); }
    SplitJoin(Parts(c), '/');
    assert Print(c)[|PREFIX|..] == Join(Parts(c), '/');
  }

  /** The printed name of a parsed CRN parses back to it exactly when no piece
      of its tail is empty. */
  lemma ParsePrint(s: string, c: Crn)
    requires Parse(s) == Some(c)
    ensures Parse(Print(c)) == if NonEmpty(c.tail) then Some(c) else None
  {
    ParsedPieces(Split(s[|PREFIX|..], '/')[6..]);
    PrintedParts(c);
    PiecesOfPieces(c.tail);
    assert Parts(c)[6..] == c.tail;
  }

  /** A name is accepted exactly if tenant and org are slugs or patterns, the site
      is letters, digits and stars, and every node after it is valid; it is read as
      it was meant exactly if no node holds a dot. */
  lemma AcceptsExactly(c: Crn)
    requires forall p :: p in Parts(c) ==> '/' !in p
    ensures Parse(Print(c)).Some? <==> IsTidOrOid(c.tid) && IsTidOrOid(c.oid) && IsSite(c.sid) && ValidNodes(c.tail)
    ensures Parse(Print(c)) == Some(c) <==> Parse(Print(c)).Some? && forall p :: p in c.tail ==> '.' !in p
  {
    SplitJoin(Parts(c), '/');
    assert Print(c)[|PREFIX|..] == Join(Parts(c), '/');
    assert Parts(c)[6..] == c.tail;
    PiecesUndotted(c.tail);
    if ValidNodes(c.tail) && forall p :: p in c.tail ==> '.' !in p {
      UndottedPieces(c.tail);
    }
  }

  lemma {:induction false} PiecesUndotted(nodes: seq<string>)
    ensures forall p :: p in Pieces(nodes) ==> '.' !in p
  {
    if nodes != [] {
      SplitPieces(nodes[0], '.');
      PiecesUndotted(nodes[1..]);
    }
  }

  lemma {:induction false} UndottedPieces(ps: seq<string>)
    requires forall p :: p in ps ==> '.' !in p
    ensures Pieces(ps) == ps
  {
    if ps != [] {
      assert ps[0] in ps;
      SplitSingle(ps[0], '.');
      UndottedPieces(ps[1..]);
      assert ps == [ps[0]] + ps[1..];
    }
  }

  /** What was parsed prints as it was exactly if no node held a dot. */
  lemma PrintParse(s: string)
    requires Parse(s).Some?
    ensures Print(Parse(s).value) == s <==> '.' !in s
  {
    if '.' in s {
      PrintsNoDot(s);
    } else {
      PrintsBack(s);
    }
  }

  lemma PrintsBack(s: string)
    requires Parse(s).Some? && '.' !in s
    ensures Print(Parse(s).value) == s
  {
    var rest := s[|PREFIX|..];
    var parts := Split(rest, '/');
    JoinSplit(rest, '/');
    assert s == PREFIX + rest;
    forall p | p in parts ensures '.' !in p {
      JoinChars(parts, '/', '.');
    }
    assert forall p :: p in parts[6..] ==> p in parts;
    UndottedPieces(parts[6..]);
    assert parts == [parts[0], parts[1], parts[2], parts[3], parts[4], parts[5]] + parts[6..];
  }

  lemma PrintsNoDot(s: string)
    requires Parse(s).Some?
    ensures '.' !in Print(Parse(s).value)
  {
    var c := Parse(s).value;
    PiecesUndotted(Split(s[|PREFIX|..], '/')[6..]);
    assert '.' !in c.tid && '.' !in c.oid && '.' !in c.sid;
    assert forall p :: p in Parts(c) ==> '.' !in p;
    JoinChars(Parts(c), '/', '.');
  }

  lemma LegacyDotPath(g: string, t: string)
    ensures DotPath(LegacyToCrn(g, t)) == g
  {
    if g != "" {
      JoinSplit(g, '.');
      assert [Split(g, '.')[0]] + Split(g, '.')[1..] == Split(g, '.');
    }
  }

  function Replace(s: string, from: char, to: char): (r: string)
    ensures |r| == |s|
  {
    seq(|s|, i requires 0 <= i < |s| => if s[i] == from then to else s[i])
  }

  lemma {:induction false} RejoinPieces(g: string)
    ensures Join(Split(g, '.'), '/') == Replace(g, '.', '/')
  {
    if g != "" {
      RejoinPieces(g[1..]);
      var rest := Split(g[1..], '.');
      assert Replace(g, '.', '/')[1..] == Replace(g[1..], '.', '/');
      if g[0] == '.' {
        assert ([""] + rest)[1..] == rest;
      } else {
        JoinFirst([g[0]], rest, '/');
      }
      assert Replace(g, '.', '/') == [Replace(g, '.', '/')[0]] + Replace(g, '.', '/')[1..];
    }
  }

  lemma {:induction false} SamePieces(g: string)
    ensures Split(Replace(g, '.', '/'), '/') == Split(Replace(g, '/', '.'), '.')
  {
    if g != "" {
      SamePieces(g[1..]);
      assert Replace(g, '.', '/')[1..] == Replace(g[1..], '.', '/');
      assert Replace(g, '/', '.')[1..] == Replace(g[1..], '/', '.');
    }
  }

  /** The name printed for a legacy scope is parsed as the pieces of the scope
      with slashes read as dots. */
  lemma LegacyParts(g: string, t: string)
    requires g != "" && IsTidOrOid(t)
    ensures var p := Print(LegacyToCrn(g, t));
            && HasPrefix(p, PREFIX)
            && Split(p[|PREFIX|..], '/') == ["tenant", t, "org", "default", "site"] + Split(Replace(g, '/', '.'), '.')
  {
    var c := LegacyToCrn(g, t);
    var head := ["tenant", t, "org", "default", "site"];
    var body := Split(g, '.');
    assert Parts(c) == head + body;
    JoinAppend(head, body, '/');
    RejoinPieces(g);
    TidOidPlain(t);
    SplitJoin(head, '/');
    SplitAppend(Join(head, '/'), Replace(g, '.', '/'), '/');
    SamePieces(g);
    assert Print(c)[|PREFIX|..] == Join(head, '/') + ['/'] + Replace(g, '.', '/');
  }

  lemma FromLegacyParts(t: string, pieces: seq<string>)
    requires IsTidOrOid(t) && |pieces| >= 1
    ensures FromParts(["tenant", t, "org", "default", "site"] + pieces) ==
            if IsSite(pieces[0]) && ValidNodes(pieces[1..])
            then Some(Crn(t, "default", pieces[0], Pieces(pieces[1..]))) else None
  {
    var parts := ["tenant", t, "org", "default", "site"] + pieces;
    assert parts[5] == pieces[0] && parts[6..] == pieces[1..];
    assert ValidTenantSlug("default");
  }

  lemma NodesArePieces(ps: seq<string>)
    requires forall p :: p in ps ==> '.' !in p
    ensures ValidNodes(ps) <==> NonEmpty(ps) && forall p :: p in ps ==> NodePiece(p)
  {
    forall i | 0 <= i < |ps| ensures ValidNode(ps[i]) <==> ps[i] != "" && NodePiece(ps[i]) {
      SplitSingle(ps[i], '.');
      assert ps[i] in [ps[i]];
    }
  }

  ghost predicate GoodPieces(pieces: seq<string>)
    requires |pieces| >= 1
  {
    IsSite(pieces[0]) && NonEmpty(pieces[1..]) && forall p :: p in pieces[1..] ==> NodePiece(p)
  }

  /** What the printed legacy scope parses to: the scope's own dot path with
      slashes read as dots, or nothing when some piece is empty or bad. */
  lemma LegacyReparse(g: string, t: string)
    requires g != "" && IsTidOrOid(t)
    ensures var d := Replace(g, '/', '.');
            var r := Parse(Print(LegacyToCrn(g, t)));
            if GoodPieces(Split(d, '.')) then r.Some? && r.value.tid == t && DotPath(r.value) == d else r == None
  {
    LegacyParts(g, t);
    var d := Replace(g, '/', '.');
    var pieces := Split(d, '.');
    FromLegacyParts(t, pieces);
    SplitPieces(d, '.');
    NodesArePieces(pieces[1..]);
    if GoodPieces(pieces) {
      PiecesOfPieces(pieces[1..]);
      JoinSplit(d, '.');
      assert [pieces[0]] + pieces[1..] == pieces;
    }
  }
}
