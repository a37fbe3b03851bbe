/** Scope compilation (core/auth.go) and the authorisation decision
    (core/rbac.go), over both the legacy and the CRN scope grammar. */
module Rbac {
  import opened Text
  import opened Glob
  import opened Crn

  datatype Origin = Legacy | Native

  datatype Role = Viewer | Operator | Admin | OtherRole

  datatype Action = Read | ControlWrite | Apply

  datatype ScopeGlob = ScopeGlob(exact: Glob, subtree: Glob, origin: Origin, tid: string)

  datatype Principal = Principal(subject: string, role: Role, scopes: seq<string>)

  /** The dot path, origin and tenant a raw scope stands for. */
  function ScopeText(s: string): Option<(string, Origin, string)> {
    if HasPrefix(s, PREFIX) then
      var c := Parse(s);
      if c.None? then None else Some((DotPath(c.value), Native, c.value.tid))
    else
      var c := LegacyToCrn(s, "");
      Some((DotPath(c), Legacy, c.tid))
  }

  function CompileScope(s: string): Option<ScopeGlob> {
    var t := ScopeText(s);
    if t.None? then None
    else
      var exact, subtree := CompileGlob(t.value.0), CompileGlob(t.value.0 + ".**");
      if exact.None? || subtree.None? then None
      else Some(ScopeGlob(exact.value, subtree.value, t.value.1, t.value.2))
  }

  predicate AllCompile(ss: seq<string>) {
    forall i :: 0 <= i < |ss| ==> CompileScope(ss[i]).Some?
  }

  /** All scopes compiled, or nothing when one of them is bad. */
  function CompileScopes(ss: seq<string>): Option<seq<ScopeGlob>> {
    if AllCompile(ss) then Some(seq(|ss|, i requires 0 <= i < |ss| => CompileScope(ss[i]).value)) else None
  }

  predicate RoleAllows(role: Role, action: Action) {
    match role
    case Admin => true
    case Operator => action != Apply
    case Viewer => action == Read
    case OtherRole => false
  }

  predicate Hit(sg: ScopeGlob, action: Action, path: string) {
    GlobMatches(sg.exact, path) || (action == Read && GlobMatches(sg.subtree, path))
  }

  predicate AfterMatch(sg: ScopeGlob, requestTenant: string, closed: bool) {
    && !(sg.origin == Native && requestTenant != "" && sg.tid != requestTenant)
    && !(sg.origin == Legacy && closed)
  }

  /** The first scope that hits decides. */
  predicate FirstMatch(scopes: seq<ScopeGlob>, action: Action, path: string, requestTenant: string, closed: bool) {
    scopes != [] &&
    if Hit(scopes[0], action, path) then AfterMatch(scopes[0], requestTenant, closed)
    else FirstMatch(scopes[1..], action, path, requestTenant, closed)
  }

  /** The decision of authorizeTenant; `closed` is the legacy window flag. */
  predicate Authorize(p: Principal, action: Action, path: string, requestTenant: string, closed: bool) {
    RoleAllows(p.role, action) &&
    (p.role == Admin ||
     (var scopes := CompileScopes(p.scopes);
      scopes.Some? && FirstMatch(scopes.value, action, path, requestTenant, closed)))
  }

  // ---- The loops of the original ------------------------------------------

  predicate Compiled(g: Glob) { CompileGlob(g.src) == Some(g) }

  predicate CompiledScope(sg: ScopeGlob) { Compiled(sg.exact) && Compiled(sg.subtree) }

  method CompilePrincipalScopes(ss: seq<string>) returns (r: Option<seq<ScopeGlob>>)
    ensures r == CompileScopes(ss)
    ensures r.Some? ==> forall sg :: sg in r.value ==> CompiledScope(sg)
  {
    var compiled: seq<ScopeGlob> := [];
    for i := 0 to |ss|
      invariant |compiled| == i
      invariant forall k :: 0 <= k < i ==> CompileScope(ss[k]) == Some(compiled[k]) && CompiledScope(compiled[k])
    {
      var sg := CompileScope(ss[i]);
      if sg.None? {
        assert !AllCompile(ss);
        return None;
      }
      compiled := compiled + [sg.value];
    }
    assert AllCompile(ss) && compiled == CompileScopes(ss).value;
    r := Some(compiled);
  }

  method MatchScopes(scopes: seq<ScopeGlob>, action: Action, path: string, requestTenant: string, closed: bool)
    returns (ok: bool)
    requires forall sg :: sg in scopes ==> CompiledScope(sg)
    ensures ok == FirstMatch(scopes, action, path, requestTenant, closed)
  {
    for i := 0 to |scopes|
      invariant FirstMatch(scopes, action, path, requestTenant, closed) ==
                FirstMatch(scopes[i..], action, path, requestTenant, closed)
    {
      var sg := scopes[i];
      assert sg in scopes && scopes[i..][1..] == scopes[i + 1..];
      var exact := Match(sg.exact, path);
      if exact {
        return AfterMatch(sg, requestTenant, closed);
      }
      if action == Read {
        var below := Match(sg.subtree, path);
        if below {
          return AfterMatch(sg, requestTenant, closed);
        }
      }
    }
    ok := false;
  }

  method AuthorizeTenant(p: Principal, action: Action, path: string, requestTenant: string, closed: bool)
    returns (ok: bool)
    ensures ok == Authorize(p, action, path, requestTenant, closed)
  {
    if !RoleAllows(p.role, action) {
      return false;
    }
    if p.role == Admin {
      return true;
    }
    var ready := CompilePrincipalScopes(p.scopes);
    if ready.None? {
      return false;
    }
    ok := MatchScopes(ready.value, action, path, requestTenant, closed);
  }

  // ---- Compilation --------------------------------------------------------

  /** The subtree variant of a compiled pattern always compiles. */
  lemma SubtreeCompiles(d: string)
    requires CompileGlob(d).Some?
    ensures CompileGlob(d + ".**") == Some(Glob(d + ".**", CompileGlob(d).value.segs + [Globstar]))
  {
    SplitAppend(d, "**", '.');
    SplitSingle("**", '.');
    assert d + ['.'] + "**" == d + ".**";
    var pieces := Split(d, '.');
    assert Split(d + ".**", '.') == pieces + ["**"];
    DotsSeparatePieces(d);
    DotsSeparatePieces(d + ".**");
    assert ToSegs(pieces + ["**"]) == ToSegs(pieces) + [Globstar];
  }

  /** A scope compiles exactly when its dot path does. */
  lemma ScopeCompiles(s: string)
    requires ScopeText(s).Some?
    ensures var d := CompileGlob(ScopeText(s).value.0);
            if d.None? then CompileScope(s) == None
            else CompileScope(s) == Some(ScopeGlob(d.value, Glob(d.value.src + ".**", d.value.segs + [Globstar]),
                                                   ScopeText(s).value.1, ScopeText(s).value.2))
  {
    if CompileGlob(ScopeText(s).value.0).Some? {
      SubtreeCompiles(ScopeText(s).value.0);
    }
  }

  // ---- The decision with no request tenant and the window open ------------

  predicate ScopeHit(s: string, action: Action, path: string) {
    CompileScope(s).Some? && Hit(CompileScope(s).value, action, path)
  }

  /** A deciding scope hits and passes; with no tenant and an open window any
      scope that hits passes. */
  lemma {:induction false} FirstMatchHits(cs: seq<ScopeGlob>, action: Action, path: string, tenant: string,
                                          closed: bool)
    ensures FirstMatch(cs, action, path, tenant, closed) ==>
            exists i :: 0 <= i < |cs| && Hit(cs[i], action, path) && AfterMatch(cs[i], tenant, closed)
    ensures tenant == "" && !closed && (exists i :: 0 <= i < |cs| && Hit(cs[i], action, path)) ==>
            FirstMatch(cs, action, path, tenant, closed)
  {
    if cs != [] && !Hit(cs[0], action, path) {
      FirstMatchHits(cs[1..], action, path, tenant, closed);
      assert forall i :: 1 <= i < |cs| ==> cs[i] == cs[1..][i - 1];
    }
  }

  predicate Allowed(p: Principal, action: Action, path: string) {
    Authorize(p, action, path, "", false)
  }

  /** Some scope must hit, and every scope must compile. */
  lemma {:induction false} OpenDecision(p: Principal, action: Action, path: string)
    ensures Allowed(p, action, path) <==>
            && RoleAllows(p.role, action)
            && (p.role == Admin || (AllCompile(p.scopes) && exists s :: s in p.scopes && ScopeHit(s, action, path)))
  {
    if AllCompile(p.scopes) {
      var cs := CompileScopes(p.scopes).value;
      FirstMatchHits(cs, action, path, "", false);
      assert forall i :: 0 <= i < |cs| ==> (Hit(cs[i], action, path) <==> ScopeHit(p.scopes[i], action, path));
    }
  }

  /** Order and repetition of scopes do not matter. */
  lemma ScopeSetDecides(p: Principal, q: Principal, action: Action, path: string)
    requires p.role == q.role && forall s :: s in p.scopes <==> s in q.scopes
    ensures Allowed(p, action, path) == Allowed(q, action, path)
  {
    OpenDecision(p, action, path);
    OpenDecision(q, action, path);
    SameCompile(p.scopes, q.scopes);
    SameCompile(q.scopes, p.scopes);
  }

  lemma SameCompile(ss: seq<string>, ts: seq<string>)
    requires forall s :: s in ts ==> s in ss
    ensures AllCompile(ss) ==> AllCompile(ts)
  {
    forall i | AllCompile(ss) && 0 <= i < |ts| ensures CompileScope(ts[i]).Some? {
      assert ts[i] in ts;
      var k :| 0 <= k < |ss| && ss[k] == ts[i];
    }
  }

  /** Adding a scope keeps access exactly when the scope compiles, for anyone
      whose access rests on scopes. */
  lemma AddScope(p: Principal, s: string, action: Action, path: string)
    requires Allowed(p, action, path)
    ensures Allowed(p.(scopes := p.scopes + [s]), action, path) <==> p.role == Admin || CompileScope(s).Some?
  {
    OpenDecision(p, action, path);
    OpenDecision(p.(scopes := p.scopes + [s]), action, path);
    assert s in p.scopes + [s];
  }

  /** A pattern that matches a path, or a `**` below it, covers what is under. */
  lemma BelowMatches(g: Glob, path: string, x: string)
    requires GlobMatches(g, path) || GlobMatches(Glob(g.src + ".**", g.segs + [Globstar]), path)
    requires ValidPath(path + "." + x)
    ensures GlobMatches(Glob(g.src + ".**", g.segs + [Globstar]), path + "." + x)
  {
    SplitAppend(path, x, '.');
    assert path + ['.'] + x == path + "." + x;
    var a, b := Split(path, '.'), Split(x, '.');
    var k := |a|;
    if Matches(g.segs, a) {
      assert a[..k] == a;
    } else {
      LastGlobstar(g.segs, a);
      k :| 0 <= k <= |a| && Matches(g.segs, a[..k]);
    }
    assert (a + b)[..k] == a[..k];
    LastGlobstar(g.segs, a + b);
  }

  lemma ScopeBelow(s: string, action: Action, path: string, x: string)
    requires ScopeHit(s, action, path) && ValidPath(path + "." + x)
    ensures ScopeHit(s, Read, path + "." + x)
  {
    ScopeCompiles(s);
    BelowMatches(CompileScope(s).value.exact, path, x);
  }

  /** Any access at a path gives read access there and to everything below. */
  lemma AccessReadsSubtree(p: Principal, action: Action, path: string, x: string)
    requires Allowed(p, action, path)
    ensures Allowed(p, Read, path)
    ensures ValidPath(path + "." + x) ==> Allowed(p, Read, path + "." + x)
  {
    OpenDecision(p, action, path);
    OpenDecision(p, Read, path);
    OpenDecision(p, Read, path + "." + x);
    if p.role != Admin {
      var s :| s in p.scopes && ScopeHit(s, action, path);
      assert ScopeHit(s, Read, path);
      if ValidPath(path + "." + x) {
        ScopeBelow(s, action, path, x);
      }
    }
  }

  // ---- What a scope reaches -------------------------------------------------

  /** The pattern a scope spells matches the path. */
  ghost predicate Spells(s: string, path: string) {
    var text := ScopeText(s);
    text.Some? && CompileGlob(text.value.0).Some? && GlobMatches(CompileGlob(text.value.0).value, path)
  }

  /** The pattern matches the path or the path cut off after some segment. */
  ghost predicate Covers(s: string, path: string) {
    var text := ScopeText(s);
    && text.Some? && CompileGlob(text.value.0).Some? && ValidPath(path)
    && exists k :: 0 <= k <= |Split(path, '.')| && Matches(CompileGlob(text.value.0).value.segs, Split(path, '.')[..k])
  }

  /** A write needs the path itself; a read also what lies below. */
  lemma HitMeans(s: string, action: Action, path: string)
    ensures ScopeHit(s, action, path) <==> if action == Read then Covers(s, path) else Spells(s, path)
  {
    if ScopeText(s).Some? {
      ScopeCompiles(s);
      var d := CompileGlob(ScopeText(s).value.0);
      if d.Some? {
        var pieces := Split(path, '.');
        LastGlobstar(d.value.segs, pieces);
        assert pieces[..|pieces|] == pieces;
      }
    }
  }

  /** Any action but reading: the role allows it and, but for the admin, all
      scopes compile and the pattern of one names the path. */
  lemma WriteDecision(p: Principal, action: Action, path: string)
    requires action != Read
    ensures Allowed(p, action, path) <==>
            && RoleAllows(p.role, action)
            && (p.role == Admin || (AllCompile(p.scopes) && exists s :: s in p.scopes && Spells(s, path)))
  {
    OpenDecision(p, action, path);
    forall s ensures ScopeHit(s, action, path) <==> Spells(s, path) { HitMeans(s, action, path); }
  }

  lemma ReadDecision(p: Principal, path: string)
    ensures Allowed(p, Read, path) <==>
            && RoleAllows(p.role, Read)
            && (p.role == Admin || (AllCompile(p.scopes) && exists s :: s in p.scopes && Covers(s, path)))
  {
    OpenDecision(p, Read, path);
    forall s ensures ScopeHit(s, Read, path) <==> Covers(s, path) { HitMeans(s, Read, path); }
  }

  lemma LegacyText(d: string)
    requires !HasPrefix(d, PREFIX)
    ensures ScopeText(d) == Some((d, Legacy, LegacyToCrn(d, "").tid))
  {
    LegacyDotPath(d, "");
  }

  lemma PrefixColon(s: string)
    requires HasPrefix(s, PREFIX)
    ensures |s| > 3 && s[3] == ':'
  {
    assert s[..4][3] == PREFIX[3];
  }

  lemma PathIsLegacy(d: string)
    requires ValidPath(d)
    ensures !HasPrefix(d, PREFIX)
  {
    if HasPrefix(d, PREFIX) {
      PrefixColon(d);
    }
  }

  lemma PathNames(d: string, path: string)
    requires ValidPath(d)
    ensures CompileScope(d).Some? && (Spells(d, path) <==> path == d)
  {
    PathIsLegacy(d);
    LegacyText(d);
    PathCompiles(d);
    ScopeCompiles(d);
    LiteralPattern(d, path);
  }

  /** The path is `d` or lies below it. */
  predicate AtOrBelow(d: string, path: string) { path == d || (ValidPath(path) && HasPrefix(path, d + ".")) }

  lemma {:induction false} JoinPrefix(parts: seq<string>, k: nat)
    requires 0 < k < |parts|
    ensures Join(parts, '.') == Join(parts[..k], '.') + "." + Join(parts[k..], '.')
  {
    if k == 1 {
      assert parts[..1] == [parts[0]] && parts[1..] != [];
    } else {
      JoinPrefix(parts[1..], k - 1);
      assert parts[1..][..k - 1] == parts[..k][1..] && parts[1..][k - 1..] == parts[k..];
    }
  }

  ghost predicate Starts(b: seq<string>, a: seq<string>) { exists k :: 0 <= k <= |b| && b[..k] == a }

  /** A path lies below another exactly if its first segments are the other's. */
  lemma CutMeans(d: string, path: string)
    requires ValidPath(d) && ValidPath(path)
    ensures AtOrBelow(d, path) <==> Starts(Split(path, '.'), Split(d, '.'))
  {
    var a, b := Split(d, '.'), Split(path, '.');
    JoinSplit(d, '.');
    JoinSplit(path, '.');
    assert b[..|b|] == b;
    if HasPrefix(path, d + ".") {
      var x := path[|d| + 1..];
      assert path == d + ['.'] + x;
      SplitAppend(d, x, '.');
      assert b[..|a|] == a;
    }
    if k :| 0 <= k <= |b| && b[..k] == a {
      if k < |b| {
        JoinPrefix(b, k);
        assert path == d + "." + Join(b[k..], '.');
        assert path[..|d + "."|] == d + ".";
      }
    }
  }

  lemma PathCovers(d: string, path: string)
    requires ValidPath(d)
    ensures Covers(d, path) <==> AtOrBelow(d, path)
  {
    PathIsLegacy(d);
    LegacyText(d);
    PathCompiles(d);
    if ValidPath(path) {
      var a, b := Split(d, '.'), Split(path, '.');
      var segs := CompileGlob(d).value.segs;
      assert segs == ToSegs(a);
      PathPieces(d);
      CutMeans(d, path);
      forall k | 0 <= k <= |b| ensures Matches(segs, b[..k]) <==> b[..k] == a { LiteralPieces(a, b[..k]); }
      assert Covers(d, path) <==> Starts(b, a);
    }
  }

  lemma PathPieces(d: string)
    requires ValidPath(d)
    ensures forall p :: p in Split(d, '.') ==> '*' !in p
  {
    JoinSplit(d, '.');
    forall p | p in Split(d, '.') ensures '*' !in p {
      if '*' in p {
        JoinChars(Split(d, '.'), '.', '*');
      }
    }
  }

  /** One scope, a plain path: an operator writes that path and nothing else, and
      reads it and all below. */
  lemma ScopeReaches(subject: string, d: string, path: string)
    requires ValidPath(d)
    ensures var p := Principal(subject, Operator, [d]);
            && (Allowed(p, ControlWrite, path) <==> path == d)
            && (Allowed(p, Read, path) <==> AtOrBelow(d, path))
            && !Allowed(p, Apply, path)
  {
    var p := Principal(subject, Operator, [d]);
    PathNames(d, path);
    PathCovers(d, path);
    WriteDecision(p, ControlWrite, path);
    ReadDecision(p, path);
    assert d in p.scopes && AllCompile(p.scopes);
  }

  // ---- Roles ------------------------------------------------------------------

  /** Viewers only read, operators never apply, unknown roles do nothing, admins
      everything; and a higher role keeps what a lower one has. */
  lemma RolesBound(p: Principal, action: Action, path: string, tenant: string, closed: bool)
    ensures p.role == Admin ==> Authorize(p, action, path, tenant, closed)
    ensures Authorize(p, action, path, tenant, closed) ==>
              && p.role != OtherRole && (p.role == Viewer ==> action == Read)
                    && (p.role == Operator ==> action != Apply)
    ensures Authorize(p.(role := Viewer), action, path, tenant, closed) ==>
              Authorize(p.(role := Operator), action, path, tenant, closed)
    ensures Authorize(p.(role := Operator), Read, path, tenant, closed) ==>
              Authorize(p.(role := Viewer), Read, path, tenant, closed)
  {}

  // ---- With a request tenant ----------------------------------------------

  /** Once the legacy window is closed, a request of a tenant is only ever
      allowed by a scope of that very tenant (or by the admin role). */
  lemma RedLine(p: Principal, action: Action, path: string, tenant: string)
    requires tenant != "" && p.role != Admin
    requires Authorize(p, action, path, tenant, true)
    ensures exists s :: s in p.scopes && ScopeHit(s, action, path)
                        && CompileScope(s).value.origin == Native && CompileScope(s).value.tid == tenant
  {
    var cs := CompileScopes(p.scopes).value;
    FirstMatchHits(cs, action, path, tenant, true);
    var i :| 0 <= i < |cs| && Hit(cs[i], action, path) && AfterMatch(cs[i], tenant, true);
    assert p.scopes[i] in p.scopes && ScopeHit(p.scopes[i], action, path);
  }

  /** What a hit of the scope would decide. */
  predicate Passes(s: string, tenant: string, closed: bool) {
    CompileScope(s).Some? && AfterMatch(CompileScope(s).value, tenant, closed)
  }

  lemma {:induction false} FirstAt(cs: seq<ScopeGlob>, i: nat, action: Action, path: string, tenant: string,
                                   closed: bool)
    requires i <= |cs| && forall j :: 0 <= j < i ==> !Hit(cs[j], action, path)
    ensures FirstMatch(cs, action, path, tenant, closed) == FirstMatch(cs[i..], action, path, tenant, closed)
  {
    if i > 0 {
      FirstAt(cs, i - 1, action, path, tenant, closed);
      assert cs[i - 1..][0] == cs[i - 1] && cs[i - 1..][1..] == cs[i..];
    } else {
      assert cs[0..] == cs;
    }
  }

  /** The first scope that hits decides alone. */
  lemma FirstDecides(p: Principal, i: nat, action: Action, path: string, tenant: string, closed: bool)
    requires p.role != Admin && AllCompile(p.scopes) && i <= |p.scopes|
    requires forall j :: 0 <= j < i ==> !ScopeHit(p.scopes[j], action, path)
    requires i < |p.scopes| ==> ScopeHit(p.scopes[i], action, path)
    ensures Authorize(p, action, path, tenant, closed) <==>
            RoleAllows(p.role, action) && i < |p.scopes| && Passes(p.scopes[i], tenant, closed)
  {
    var cs := CompileScopes(p.scopes).value;
    forall j | 0 <= j < i ensures !Hit(cs[j], action, path) { assert !ScopeHit(p.scopes[j], action, path); }
    FirstAt(cs, i, action, path, tenant, closed);
    assert i < |cs| ==> cs[i..][0] == cs[i];
  }

  /** A legacy scope passes until the window closes, a name passes for requests of
      no tenant and of its own. */
  lemma PassesMeans(s: string, tenant: string, closed: bool)
    requires CompileScope(s).Some?
    ensures Passes(s, tenant, closed) <==>
            if HasPrefix(s, PREFIX) then tenant == "" || tenant == Parse(s).value.tid else !closed
  {
    ScopeCompiles(s);
    if !HasPrefix(s, PREFIX) {
      LegacyText(s);
    }
  }

  /** All scopes that hit decide the same. */
  ghost predicate Agreeing(ss: seq<string>, action: Action, path: string, tenant: string, closed: bool) {
    forall s, t :: s in ss && t in ss && ScopeHit(s, action, path) && ScopeHit(t, action, path) ==>
      Passes(s, tenant, closed) == Passes(t, tenant, closed)
  }

  ghost predicate Reordered(ss: seq<string>, ts: seq<string>) { multiset(ts) == multiset(ss) }

  lemma {:induction false} AgreeingMatch(cs: seq<ScopeGlob>, action: Action, path: string, tenant: string, closed: bool)
    requires forall i, j :: 0 <= i < |cs| && 0 <= j < |cs| && Hit(cs[i], action, path) && Hit(cs[j], action, path) ==>
               AfterMatch(cs[i], tenant, closed) == AfterMatch(cs[j], tenant, closed)
    ensures FirstMatch(cs, action, path, tenant, closed) <==>
            exists i :: 0 <= i < |cs| && Hit(cs[i], action, path) && AfterMatch(cs[i], tenant, closed)
  {
    if cs != [] && !Hit(cs[0], action, path) {
      assert forall i :: 1 <= i < |cs| ==> cs[i] == cs[1..][i - 1];
      AgreeingMatch(cs[1..], action, path, tenant, closed);
    }
  }

  /** When they agree, the decision is whether some scope hits and passes. */
  lemma {:induction false} AgreeingDecision(ss: seq<string>, action: Action, path: string, tenant: string, closed: bool)
    requires AllCompile(ss) && Agreeing(ss, action, path, tenant, closed)
    ensures FirstMatch(CompileScopes(ss).value, action, path, tenant, closed) <==>
            exists s :: s in ss && ScopeHit(s, action, path) && Passes(s, tenant, closed)
  {
    var cs := CompileScopes(ss).value;
    forall i | 0 <= i < |ss|
      ensures ss[i] in ss && Hit(cs[i], action, path) == ScopeHit(ss[i], action, path)
      ensures AfterMatch(cs[i], tenant, closed) == Passes(ss[i], tenant, closed)
    {}
    AgreeingMatch(cs, action, path, tenant, closed);
    if s :| s in ss && ScopeHit(s, action, path) && Passes(s, tenant, closed) {
      var i :| 0 <= i < |ss| && ss[i] == s;
      assert Hit(cs[i], action, path) && AfterMatch(cs[i], tenant, closed);
    }
  }

  lemma ReorderedMembers(ss: seq<string>, ts: seq<string>)
    requires Reordered(ss, ts)
    ensures forall s :: s in ts <==> s in ss
    ensures AllCompile(ss) <==> AllCompile(ts)
  {
    forall s ensures s in ts <==> s in ss {
      assert s in ss <==> s in multiset(ss);
      assert s in ts <==> s in multiset(ts);
    }
    SameCompile(ss, ts);
    SameCompile(ts, ss);
  }

  function Fronted(ss: seq<string>, i: nat): seq<string>
    requires i < |ss|
  {
    [ss[i]] + ss[..i] + ss[i + 1..]
  }

  /** A hitting scope moved to the front decides. */
  lemma FrontDecides(ss: seq<string>, i: nat, action: Action, path: string, tenant: string, closed: bool)
    requires AllCompile(ss) && i < |ss| && ScopeHit(ss[i], action, path)
    ensures Reordered(ss, Fronted(ss, i)) && AllCompile(Fronted(ss, i))
    ensures FirstMatch(CompileScopes(Fronted(ss, i)).value, action, path, tenant, closed) ==
            Passes(ss[i], tenant, closed)
  {
    var ts := Fronted(ss, i);
    assert ss == ss[..i] + [ss[i]] + ss[i + 1..];
    ReorderedMembers(ss, ts);
    var cs := CompileScopes(ts).value;
    assert ts[0] == ss[i] && cs[0] == CompileScope(ss[i]).value;
  }

  /** The decision is the same in every order of the scopes exactly if the role
      or a bad scope settles it, or all scopes that hit agree. */
  ghost predicate Settled(p: Principal, action: Action, path: string, tenant: string, closed: bool) {
    || p.role == Admin || !RoleAllows(p.role, action) || !AllCompile(p.scopes)
    || Agreeing(p.scopes, action, path, tenant, closed)
  }

  lemma SettledSame(p: Principal, ts: seq<string>, action: Action, path: string, tenant: string, closed: bool)
    requires Settled(p, action, path, tenant, closed) && Reordered(p.scopes, ts)
    ensures Authorize(p.(scopes := ts), action, path, tenant, closed) == Authorize(p, action, path, tenant, closed)
  {
    ReorderedMembers(p.scopes, ts);
    if AllCompile(p.scopes) && Agreeing(p.scopes, action, path, tenant, closed) {
      AgreeingDecision(p.scopes, action, path, tenant, closed);
      AgreeingDecision(ts, action, path, tenant, closed);
    }
  }

  lemma FrontAuthorizes(p: Principal, s: string, action: Action, path: string, tenant: string, closed: bool)
    returns (ts: seq<string>)
    requires p.role != Admin && RoleAllows(p.role, action) && AllCompile(p.scopes) && s in p.scopes
             && ScopeHit(s, action, path)
    ensures Reordered(p.scopes, ts) && Authorize(p.(scopes := ts), action, path, tenant, closed) ==
            Passes(s, tenant, closed)
  {
    var i :| 0 <= i < |p.scopes| && p.scopes[i] == s;
    FrontDecides(p.scopes, i, action, path, tenant, closed);
    ts := Fronted(p.scopes, i);
  }

  /** Two orders that decide differently. */
  lemma UnsettledDiffers(p: Principal, action: Action, path: string, tenant: string, closed: bool)
    returns (t: seq<string>, u: seq<string>)
    requires !Settled(p, action, path, tenant, closed)
    ensures Reordered(p.scopes, t) && Reordered(p.scopes, u)
    ensures Authorize(p.(scopes := t), action, path, tenant, closed) !=
            Authorize(p.(scopes := u), action, path, tenant, closed)
  {
    var a, b :| a in p.scopes && b in p.scopes && ScopeHit(a, action, path) && ScopeHit(b, action, path)
                && Passes(a, tenant, closed) != Passes(b, tenant, closed);
    t := FrontAuthorizes(p, a, action, path, tenant, closed);
    u := FrontAuthorizes(p, b, action, path, tenant, closed);
  }

  lemma OrderMatters(p: Principal, action: Action, path: string, tenant: string, closed: bool)
    ensures Settled(p, action, path, tenant, closed) <==>
            forall ts :: Reordered(p.scopes, ts) ==>
              Authorize(p.(scopes := ts), action, path, tenant, closed) == Authorize(p, action, path, tenant, closed)
  {
    if Settled(p, action, path, tenant, closed) {
      forall ts | Reordered(p.scopes, ts)
        ensures Authorize(p.(scopes := ts), action, path, tenant, closed) == Authorize(p, action, path, tenant, closed)
      {
        SettledSame(p, ts, action, path, tenant, closed);
      }
    } else {
      var t, u := UnsettledDiffers(p, action, path, tenant, closed);
    }
  }

  // ---- Rewriting a legacy scope as a CRN ----------------------------------

  /** The rewritten scope compiles as the old one with slashes read as dots. */
  lemma RewrittenScope(g: string, t: string)
    requires g != "" && IsTidOrOid(t)
    ensures var text := ScopeText(Print(LegacyToCrn(g, t)));
            var d := Replace(g, '/', '.');
            if text.Some? then text.value == (d, Native, t) else CompileGlob(d) == None
  {
    LegacyReparse(g, t);
    var d := Replace(g, '/', '.');
    if CompileGlob(d).Some? {
      CompiledPiecesGood(d);
    }
  }

  lemma CompiledPiecesGood(d: string)
    requires CompileGlob(d).Some?
    ensures GoodPieces(Split(d, '.'))
  {
    var pieces := Split(d, '.');
    DotsSeparatePieces(d);
    SplitPieces(d, '.');
    PieceChars(d);
    assert forall i :: 1 <= i < |pieces| ==> pieces[1..][i - 1] == pieces[i];
    assert pieces[0] in pieces;
    forall p | p in pieces ensures NodePiece(p) {
      assert ValidPiece(p);
    }
  }

  /** Rewriting a legacy scope leaves what it grants unchanged, unless a slash
      in it is read as a dot and so turns a scope that never compiled into one
      that does. */
  lemma RewriteKeepsScope(g: string, t: string)
    requires g != "" && !HasPrefix(g, PREFIX) && IsTidOrOid(t)
    ensures var was, now := CompileScope(g), CompileScope(Print(LegacyToCrn(g, t)));
            var same := (was.Some? <==> now.Some?) &&
                        (was.Some? ==> was.value.exact == now.value.exact && was.value.subtree == now.value.subtree);
            same <==> '/' !in g || CompileGlob(Replace(g, '/', '.')) == None
  {
    RewrittenScope(g, t);
    LegacyDotPath(g, "");
    ScopeCompiles(g);
    var rewritten := Print(LegacyToCrn(g, t));
    if ScopeText(rewritten).Some? {
      ScopeCompiles(rewritten);
    }
    if '/' !in g {
      assert Replace(g, '/', '.') == g;
    } else {
      assert CompileGlob(g) == None;
    }
  }

  lemma PathCompiles(path: string)
    requires ValidPath(path)
    ensures CompileGlob(path).Some?
  {
    var pieces := Split(path, '.');
    SplitPieces(path, '.');
    JoinSplit(path, '.');
    forall p, i | p in pieces && 0 <= i < |p| ensures p[i] != '*' {
      assert p[i] in p && p[i] != '.';
      JoinChars(pieces, '.', p[i]);
    }
  }

  /** A valid path as a pattern matches itself. */
  lemma PathMatches(path: string)
    requires ValidPath(path)
    ensures CompileGlob(path).Some? && GlobMatches(CompileGlob(path).value, path)
  {
    PathCompiles(path);
    LiteralPattern(path, path);
  }

  /** The scope of a path under a tenant, as a raw CRN, hits that path and passes
      exactly for that tenant. */
  lemma CrnScope(path: string, tid: string, tenant: string, action: Action, closed: bool)
    requires ValidPath(path) && IsTidOrOid(tid) && tenant != ""
    ensures var s := Print(LegacyToCrn(path, tid));
            ScopeHit(s, action, path) && (Passes(s, tenant, closed) <==> tid == tenant)
  {
    assert Replace(path, '/', '.') == path;
    PathMatches(path);
    RewrittenScope(path, tid);
    ScopeCompiles(Print(LegacyToCrn(path, tid)));
  }

  lemma PairDecides(a: string, b: string, path: string, tenant: string, closed: bool)
    requires ScopeHit(a, Read, path) && ScopeHit(b, Read, path)
    ensures Authorize(Principal("u", Viewer, [a, b]), Read, path, tenant, closed) == Passes(a, tenant, closed)
  {
    var ss := [a, b];
    assert ss[0] == a && ss[1] == b && AllCompile(ss);
    var cs := CompileScopes(ss).value;
    assert cs[0] == CompileScope(a).value;
  }

  /** Two raw scopes whose order decides: the own tenant's and another's. */
  lemma OrderFlips(path: string, own: string, other: string, closed: bool)
    requires ValidPath(path) && IsTidOrOid(own) && IsTidOrOid(other) && own != other && own != ""
    ensures var a, b := Print(LegacyToCrn(path, own)), Print(LegacyToCrn(path, other));
            && Authorize(Principal("u", Viewer, [a, b]), Read, path, own, closed)
            && !Authorize(Principal("u", Viewer, [b, a]), Read, path, own, closed)
  {
    var a, b := Print(LegacyToCrn(path, own)), Print(LegacyToCrn(path, other));
    CrnScope(path, own, own, Read, closed);
    CrnScope(path, other, own, Read, closed);
    PairDecides(a, b, path, own, closed);
    PairDecides(b, a, path, own, closed);
  }

  lemma Joined(a: string, b: string, c: string, d: string, e: string)
    ensures a + b + c + d + e + "" == a + (b + c + d + e)
  {}

  lemma ExampleTail()
    ensures "/org/" + "default" + "/site/" + "ab01" == "/org/default/site/ab01"
  {}

  lemma ExampleName(tid: string)
    ensures Print(LegacyToCrn("ab01", tid)) == "crn:tenant/" + tid + "/org/default/site/ab01"
  {
    var c := LegacyToCrn("ab01", tid);
    assert c == Crn(tid, "default", "ab01", []) by { SplitSingle("ab01", '.'); }
    PrintIsLed(c);
    assert PREFIX + "tenant/" == "crn:tenant/";
    var head := "crn:tenant/" + tid;
    Joined(head, "/org/", "default", "/site/", "ab01");
    ExampleTail();
  }

  lemma OrderFlipsHere(closed: bool)
    ensures var a, b := "crn:tenant/" + "acme" + "/org/default/site/ab01",
            "crn:tenant/" + "beta" + "/org/default/site/ab01";
            && Authorize(Principal("u", Viewer, [a, b]), Read, "ab01", "acme", closed)
            && !Authorize(Principal("u", Viewer, [b, a]), Read, "ab01", "acme", closed)
  {
    ExampleName("acme");
    ExampleName("beta");
    OrderFlips("ab01", "acme", "beta", closed);
  }
}
