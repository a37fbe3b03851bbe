/** What the migration is for (core/migrate_v11.go, core/rbac.go): once legacy
    scopes are rewritten the legacy window can be closed, and requests carry
    their tenant, without anyone losing access or reaching another tenant. */
module ClosedWindow {
  import opened Text
  import opened Names
  import opened Records
  import opened Rbac
  import opened MigrationSpec
  import opened Migration
  import AuditReplay
  import Crn
  import Glob
  import StoreRuns

  // ---- A rewritten scope stays within its site -------------------------------

  lemma SlugPlain(s: string)
    requires ValidSiteSlug(s)
    ensures '/' !in s && '.' !in s && '*' !in s
  {
    AuditReplay.SitePlain(s, '/');
    AuditReplay.SitePlain(s, '.');
    AuditReplay.SitePlain(s, '*');
  }

  /** A string is its first segment and what follows it. */
  lemma {:induction false} FirstCut(s: string) returns (rest: string)
    ensures s == FirstSegment(s) + rest && '.' !in FirstSegment(s) && (rest == "" || rest[0] == '.')
  {
    if s == "" || s[0] == '.' {
      rest := s;
    } else {
      rest := FirstCut(s[1..]);
      assert FirstSegment(s) == [s[0]] + FirstSegment(s[1..]);
    }
  }

  lemma FirstOf(a: string, rest: string)
    requires '.' !in a && (rest == "" || rest[0] == '.')
    ensures FirstSegment(a + rest) == a
  {
    PrefixedPiece(a, rest);
    assert a + "" == a;
    if rest != "" {
      assert Split(rest, '.')[0] == "";
    }
  }

  /** Reading slashes as dots does not touch the site. */
  lemma SiteStays(scope: string)
    requires ValidSiteSlug(FirstSegment(scope))
    ensures FirstSegment(Crn.Replace(scope, '/', '.')) == FirstSegment(scope)
  {
    var a := FirstSegment(scope);
    var rest := FirstCut(scope);
    SlugPlain(a);
    assert Crn.Replace(scope, '/', '.') == a + Crn.Replace(rest, '/', '.');
    FirstOf(a, Crn.Replace(rest, '/', '.'));
  }

  lemma FirstLit(segs: seq<Glob.Seg>, path: seq<string>, p: string)
    requires segs != [] && segs[0] == Glob.Lit(p) && '*' !in p && Glob.Matches(segs, path)
    ensures path != [] && path[0] == p
  {
    Glob.LiteralSeg(p, path[0]);
  }

  lemma NoStars(p: string)
    requires '*' !in p
    ensures p != "**"
  {
    assert "**"[0] == '*';
  }

  lemma PatternSite(d: string, path: string)
    requires Glob.CompileGlob(d).Some? && '*' !in FirstSegment(d)
    requires var g := Glob.CompileGlob(d).value;
             Glob.GlobMatches(g, path) || Glob.Matches(g.segs + [Glob.Globstar], Split(path, '.'))
    ensures FirstSegment(path) == FirstSegment(d)
  {
    var g := Glob.CompileGlob(d).value;
    assert g.segs[0] == Glob.ToSeg(FirstSegment(d));
    NoStars(FirstSegment(d));
    if Glob.GlobMatches(g, path) {
      FirstLit(g.segs, Split(path, '.'), FirstSegment(d));
    } else {
      assert (g.segs + [Glob.Globstar])[0] == g.segs[0];
      FirstLit(g.segs + [Glob.Globstar], Split(path, '.'), FirstSegment(d));
    }
  }

  /** A rewritten scope that compiles hits paths of its own site only, and passes
      for that site's tenant and no other. */
  lemma RewrittenStays(scope: string, origin: string, attr: map<string, string>, action: Action, path: string,
                       tenant: string, closed: bool)
    requires Slugs(attr) && Rewritable(scope, origin, attr) && CompileScope(NewScope(scope, attr)).Some?
    ensures ScopeHit(NewScope(scope, attr), action, path) ==> FirstSegment(path) == FirstSegment(scope)
    ensures tenant != "" ==> (Passes(NewScope(scope, attr), tenant, closed) <==> tenant == attr[FirstSegment(scope)])
  {
    var s, d, t := NewScope(scope, attr), Crn.Replace(scope, '/', '.'), attr[FirstSegment(scope)];
    RewrittenScope(scope, t);
    ScopeCompiles(s);
    SiteStays(scope);
    SlugPlain(FirstSegment(scope));
    if ScopeHit(s, action, path) {
      PatternSite(d, path);
    }
  }

  // ---- Principals whose scopes are all rewritten -----------------------------------

  /** The scope is the rewritten form of some legacy scope. */
  ghost predicate IsRewritten(s: string, attr: map<string, string>) {
    exists scope, origin :: Rewritable(scope, origin, attr) && s == NewScope(scope, attr)
  }

  ghost predicate AllRewritten(ss: seq<string>, attr: map<string, string>) {
    forall s :: s in ss ==> IsRewritten(s, attr)
  }

  /** The tenant of the path's site, or none. */
  function TenantOf(path: string, attr: map<string, string>): string {
    if FirstSegment(path) in attr then attr[FirstSegment(path)] else ""
  }

  lemma HitPasses(s: string, attr: map<string, string>, action: Action, path: string, tenant: string, closed: bool)
    requires Slugs(attr) && IsRewritten(s, attr) && ScopeHit(s, action, path) && tenant != ""
    ensures FirstSegment(path) in attr && (Passes(s, tenant, closed) <==> tenant == TenantOf(path, attr))
  {
    var scope, origin :| Rewritable(scope, origin, attr) && s == NewScope(scope, attr);
    RewrittenStays(scope, origin, attr, action, path, tenant, closed);
  }

  /** Window open or closed: requests of the site's tenant are decided as requests
      without a tenant are while it is open, requests of any other are denied. */
  lemma TenantDecides(p: Principal, attr: map<string, string>, action: Action, path: string, tenant: string,
                      closed: bool)
    requires Slugs(attr) && AllRewritten(p.scopes, attr) && p.role != Admin && tenant != ""
    ensures Authorize(p, action, path, tenant, closed) <==> Allowed(p, action, path) && tenant == TenantOf(path, attr)
  {
    OpenDecision(p, action, path);
    if AllCompile(p.scopes) {
      forall s | s in p.scopes && ScopeHit(s, action, path)
        ensures FirstSegment(path) in attr && (Passes(s, tenant, closed) <==> tenant == TenantOf(path, attr))
      {
        HitPasses(s, attr, action, path, tenant, closed);
      }
      AgreeingDecision(p.scopes, action, path, tenant, closed);
    }
  }

  // ---- After a completed migration ---------------------------------------------------

  /** Every binding of the subject gets rewritten. */
  ghost predicate AllDue(b: map<Key, string>, subject: string, attr: map<string, string>) {
    forall k :: k in b && k.0 == subject ==> Rewritable(k.1, b[k], attr)
  }

  lemma GoalRewritten(rows: seq<RoleBinding>, b: map<Key, string>, subject: string, attr: map<string, string>)
    requires StoreRuns.BindingsOk(rows) && Bindings(rows) == GoalBindings(b, attr) && AllDue(b, subject, attr)
    ensures AllRewritten(RowScopes(rows, subject), attr)
  {
    forall s | s in RowScopes(rows, subject) ensures IsRewritten(s, attr) {
      RowScopesMembers(rows, subject, s);
      var k := (subject, s);
      assert k in GoalBindings(b, attr);
      assert k in Targets(b, attr);
      var j :| j in b && Rewritable(j.1, b[j], attr) && Target(j, attr) == k;
      assert s == NewScope(j.1, attr);
    }
  }

  lemma RowsDecide(rows: seq<RoleBinding>, b: map<Key, string>, subject: string, role: Role, attr: map<string, string>,
                   action: Action, path: string, tenant: string, closed: bool)
    requires StoreRuns.BindingsOk(rows) && Bindings(rows) == GoalBindings(b, attr) && AllDue(b, subject, attr)
    requires Slugs(attr) && tenant != "" && role != Admin
    ensures var p := Loaded(Principal(subject, role, []), rows);
            Authorize(p, action, path, tenant, closed) <==> Allowed(p, action, path) && tenant == TenantOf(path, attr)
  {
    var seed := Principal(subject, role, []);
    GoalRewritten(rows, b, subject, attr);
    assert Loaded(seed, rows).scopes == RowScopes(rows, subject);
    TenantDecides(Loaded(seed, rows), attr, action, path, tenant, closed);
  }

  /** A completed migration in which every binding of the subject was due. */
  ghost predicate Migrated(m0: Mem, m: Mem, subject: string) {
    && Kept(m0, m) && StoreRuns.BindingsOk(m0.roleBindings) && AttributionOf(m0).Some?
    && var attr := AttributionOf(m0).value;
       && Slugs(attr) && Bindings(m.roleBindings) == GoalBindings(Bindings(m0.roleBindings), attr)
       && AllDue(Bindings(m0.roleBindings), subject, attr)
  }

  /** Whoever was let in before the migration is let in after it, for requests of
      the site's tenant and with the window closed; requests of other tenants are
      not. */
  lemma ClosingKeepsAccess(m0: Mem, m: Mem, subject: string, role: Role, action: Action, path: string, tenant: string,
                           closed: bool)
    requires Migrated(m0, m, subject) && SteadyIn(m0, Principal(subject, role, [])) && tenant != "" && role != Admin
    ensures var seed := Principal(subject, role, []);
            Authorize(Loaded(seed, m.roleBindings), action, path, tenant, closed) <==>
            Allowed(Loaded(seed, m0.roleBindings), action, path) && tenant == TenantOf(path, AttributionOf(m0).value)
  {
    var attr := AttributionOf(m0).value;
    RowsDecide(m.roleBindings, Bindings(m0.roleBindings), subject, role, attr, action, path, tenant, closed);
    DecisionsKept(m0, m, Principal(subject, role, []), action, path);
  }
}
