/** What the v1.1 migration is meant to reach (core/migrate_v11.go), stated on
    what remains when random ids and timestamps are forgotten, and how each of
    its store steps relates to that goal. */
module MigrationSpec {
  import opened Text
  import opened Names
  import opened Records
  import opened Rbac
  import Crn
  import Glob
  import Ops
  import AuditReplay
  import StoreRuns

  // ---- Sites and their tenants --------------------------------------------

  /** The first dot-separated segment; empty for an empty path. */
  function FirstSegment(path: string): string { Split(path, '.')[0] }

  function SitesOf(paths: set<string>): set<string> {
    (set p | p in paths :: FirstSegment(p)) - {""}
  }

  function AssetSites(assets: map<string, Asset>): set<string> { SitesOf(assets.Keys) }

  lemma SitesOfMore(paths: set<string>, p: string)
    ensures SitesOf(paths + {p}) == SitesOf(paths) + ({FirstSegment(p)} - {""})
  {}

  /** Sites attributed through the org they are mapped to. */
  function ByOrg(v: Tenancy): map<string, string> {
    map s | s in v.sites && v.sites[s].orgId in v.orgs && v.orgs[v.sites[s].orgId].tenantId in v.tenants ::
      v.orgs[v.sites[s].orgId].tenantId
  }

  function BySole(sites: set<string>, tenant: string): map<string, string> {
    map s | s in sites :: tenant
  }

  /** The tenant, when there is exactly one. */
  function Sole(tenants: set<string>): Option<string> {
    if exists t :: t in tenants && tenants == {t} then
      var t :| t in tenants && tenants == {t};
      Some(t)
    else None
  }

  /** Every site's tenant, or nothing when some site of the assets is not
      mapped and there is no sole tenant to give it to. */
  function Attribute(byOrg: map<string, string>, sole: Option<string>, assetSites: set<string>):
    Option<map<string, string>>
  {
    var rest := assetSites - byOrg.Keys;
    if rest == {} then Some(byOrg)
    else if sole.Some? then Some(byOrg + BySole(rest, sole.value))
    else None
  }

  function Attribution(v: Tenancy, assetSites: set<string>): Option<map<string, string>> {
    Attribute(ByOrg(v), Sole(v.tenants.Keys), assetSites)
  }

  /** Org names and site homes, as (tenant, org name). */
  datatype Places = Places(names: set<(string, string)>, homes: map<string, (string, string)>)

  ghost function NamesOf(v: Tenancy): set<(string, string)> {
    set o | o in v.orgs :: (v.orgs[o].tenantId, v.orgs[o].name)
  }

  ghost function HomesOf(v: Tenancy): map<string, (string, string)> {
    map s | s in v.sites && v.sites[s].orgId in v.orgs ::
      (v.orgs[v.sites[s].orgId].tenantId, v.orgs[v.sites[s].orgId].name)
  }

  ghost function PlacesOf(v: Tenancy): Places { Places(NamesOf(v), HomesOf(v)) }

  ghost function Defaults(tenants: set<string>): set<(string, string)> {
    set t | t in tenants :: (t, Ops.DEFAULT_ORG)
  }

  ghost function DefaultHomes(attr: map<string, string>): map<string, (string, string)> {
    map s | s in attr :: (attr[s], Ops.DEFAULT_ORG)
  }

  /** The goal: a default org for every tenant, every attributed site in it. */
  ghost function Goal(v: Tenancy, attr: map<string, string>): Places {
    Places(NamesOf(v) + Defaults(v.tenants.Keys), HomesOf(v) + DefaultHomes(attr))
  }

  /** `u` may arise from `v` while migrating: the same sites are attributed the
      same way, and the goal has not moved. */
  ghost predicate OnTheWay(v: Tenancy, u: Tenancy, assetSites: set<string>) {
    && AuditReplay.TenancyOk(u)
    && u.tenants == v.tenants
    && Attribution(u, assetSites) == Attribution(v, assetSites)
    && (Attribution(v, assetSites).Some? ==>
          Goal(u, Attribution(v, assetSites).value) == Goal(v, Attribution(v, assetSites).value))
  }

  lemma NewName(u: Tenancy, o: Org)
    requires o.id !in u.orgs
    ensures NamesOf(u.(orgs := u.orgs[o.id := o])) == NamesOf(u) + {(o.tenantId, o.name)}
  {
    var n := u.(orgs := u.orgs[o.id := o]);
    forall x | x in NamesOf(u) ensures x in NamesOf(n) {
      var k :| k in u.orgs && (u.orgs[k].tenantId, u.orgs[k].name) == x;
      assert k in n.orgs && n.orgs[k] == u.orgs[k];
    }
    assert n.orgs[o.id] == o;
  }

  lemma NewOrgKeepsHomes(u: Tenancy, o: Org)
    requires AuditReplay.SitesOk(u) && o.id !in u.orgs
    ensures HomesOf(u.(orgs := u.orgs[o.id := o])) == HomesOf(u)
  {}

  lemma NewOrgKeepsAttribution(u: Tenancy, o: Org)
    requires AuditReplay.SitesOk(u) && o.id !in u.orgs
    ensures ByOrg(u.(orgs := u.orgs[o.id := o])) == ByOrg(u)
  {}

  lemma OrgStep(u: Tenancy, o: Org, assetSites: set<string>)
    requires AuditReplay.TenancyOk(u) && o.id !in u.orgs && ValidId(o.id)
    requires o.tenantId in u.tenants && o.name == Ops.DEFAULT_ORG && !Ops.NameTaken(u.orgs, o.tenantId, o.name, None)
    ensures OnTheWay(u, u.(orgs := u.orgs[o.id := o]), assetSites)
  {
    var n := u.(orgs := u.orgs[o.id := o]);
    Ops.DefaultIsSlug();
    AuditReplay.NewOrgOk(u, o);
    NewName(u, o);
    NewOrgKeepsHomes(u, o);
    NewOrgKeepsAttribution(u, o);
    DefaultAbsorbed(NamesOf(u), u.tenants.Keys, o.tenantId);
  }

  lemma DefaultAbsorbed(names: set<(string, string)>, tenants: set<string>, t: string)
    requires t in tenants
    ensures names + {(t, Ops.DEFAULT_ORG)} + Defaults(tenants) == names + Defaults(tenants)
  {
    assert (t, Ops.DEFAULT_ORG) in Defaults(tenants);
  }

  /** Mapping a site to the tenant it was attributed to anyway leaves the
      attribution as it is. */
  lemma SameAttribution(byOrg: map<string, string>, sole: Option<string>, assetSites: set<string>, site: string)
    requires Attribute(byOrg, sole, assetSites).Some? && site in Attribute(byOrg, sole, assetSites).value
    ensures Attribute(byOrg[site := Attribute(byOrg, sole, assetSites).value[site]], sole, assetSites) ==
            Attribute(byOrg, sole, assetSites)
  {
    var attr := Attribute(byOrg, sole, assetSites).value;
    var rest := assetSites - byOrg.Keys;
    var byOrg' := byOrg[site := attr[site]];
    assert byOrg'.Keys == byOrg.Keys + {site};
    assert assetSites - byOrg'.Keys == rest - {site};
    if rest == {} {
      assert byOrg' == attr;
    } else {
      assert byOrg' + BySole(rest - {site}, sole.value) == attr;
      if rest - {site} == {} {
        assert byOrg' == attr;
      }
    }
  }

  lemma Rehomed(u: Tenancy, so: SiteOrg)
    requires so.orgId in u.orgs
    ensures var o := u.orgs[so.orgId];
            HomesOf(u.(sites := u.sites[so.site := so])) == HomesOf(u)[so.site := (o.tenantId, o.name)]
  {}

  lemma Reattributed(u: Tenancy, so: SiteOrg)
    requires so.orgId in u.orgs && u.orgs[so.orgId].tenantId in u.tenants
    ensures ByOrg(u.(sites := u.sites[so.site := so])) == ByOrg(u)[so.site := u.orgs[so.orgId].tenantId]
  {}

  lemma HomeAbsorbed(homes: map<string, (string, string)>, attr: map<string, string>, site: string)
    requires site in attr
    ensures homes[site := (attr[site], Ops.DEFAULT_ORG)] + DefaultHomes(attr) == homes + DefaultHomes(attr)
  {}

  lemma SiteStep(u: Tenancy, so: SiteOrg, assetSites: set<string>)
    requires AuditReplay.TenancyOk(u) && ValidSiteSlug(so.site) && so.orgId in u.orgs
    requires Attribution(u, assetSites).Some? && so.site in Attribution(u, assetSites).value
    requires u.orgs[so.orgId].tenantId == Attribution(u, assetSites).value[so.site]
    requires u.orgs[so.orgId].name == Ops.DEFAULT_ORG
    ensures OnTheWay(u, u.(sites := u.sites[so.site := so]), assetSites)
  {
    var attr := Attribution(u, assetSites).value;
    AuditReplay.ResiteOk(u, so);
    Rehomed(u, so);
    Reattributed(u, so);
    SameAttribution(ByOrg(u), Sole(u.tenants.Keys), assetSites, so.site);
    HomeAbsorbed(HomesOf(u), attr, so.site);
  }

  /** The audit log plays no part. */
  lemma LogIrrelevant(u: Tenancy, auds: seq<TenantAudit>)
    ensures var n := u.(auds := auds);
            ByOrg(n) == ByOrg(u) && NamesOf(n) == NamesOf(u) && HomesOf(n) == HomesOf(u)
  {}

  lemma OnTheWayLogged(v: Tenancy, u: Tenancy, auds: seq<TenantAudit>, assetSites: set<string>)
    requires OnTheWay(v, u, assetSites)
    ensures OnTheWay(v, u.(auds := auds), assetSites)
  {
    LogIrrelevant(u, auds);
  }

  lemma OnTheWayTransitive(v: Tenancy, u: Tenancy, w: Tenancy, assetSites: set<string>)
    requires OnTheWay(v, u, assetSites) && OnTheWay(u, w, assetSites)
    ensures OnTheWay(v, w, assetSites)
  {}

  // ---- Role bindings ------------------------------------------------------

  type Key = (string, string)

  const CRN_ORIGIN := "crn"

  function KeyOf(rb: RoleBinding): Key { (rb.subject, rb.scope) }

  /** The set of rows as (subject, scope) -> origin. */
  function Bindings(rows: seq<RoleBinding>): map<Key, string> {
    if rows == [] then map[]
    else
      var last := rows[|rows| - 1];
      Bindings(rows[..|rows| - 1])[KeyOf(last) := last.origin]
  }

  /** A row of any other origin whose site is attributed gets rewritten. */
  predicate Rewritable(scope: string, origin: string, attr: map<string, string>) {
    origin != CRN_ORIGIN && FirstSegment(scope) != "" && FirstSegment(scope) in attr
  }

  function NewScope(scope: string, attr: map<string, string>): string
    requires FirstSegment(scope) in attr
  {
    Crn.Print(Crn.LegacyToCrn(scope, attr[FirstSegment(scope)]))
  }

  function Target(k: Key, attr: map<string, string>): Key
    requires FirstSegment(k.1) in attr
  {
    (k.0, NewScope(k.1, attr))
  }

  ghost function Targets(b: map<Key, string>, attr: map<string, string>): set<Key> {
    set k | k in b && Rewritable(k.1, b[k], attr) :: Target(k, attr)
  }

  function OldKeys(b: map<Key, string>, attr: map<string, string>): set<Key> {
    set k | k in b && Rewritable(k.1, b[k], attr)
  }

  /** The rows of `b` without the keys `gone`, and CRN rows at `fresh_`. */
  ghost function Replaced(b: map<Key, string>, gone: set<Key>, fresh_: set<Key>): map<Key, string> {
    map k | k in (b.Keys - gone) + fresh_ :: if k in fresh_ then CRN_ORIGIN else b[k]
  }

  /** The goal: every rewritable row replaced by its CRN row. */
  ghost function GoalBindings(b: map<Key, string>, attr: map<string, string>): map<Key, string> {
    Replaced(b, OldKeys(b, attr), Targets(b, attr))
  }

  /** Site slugs hold no colon, so a printed CRN is never itself rewritable. */
  lemma CrnNotRewritable(scope: string, origin: string, attr: map<string, string>)
    requires forall s :: s in attr ==> ValidSiteSlug(s)
    requires HasPrefix(scope, Crn.PREFIX)
    ensures !Rewritable(scope, origin, attr)
  {
    var rest := scope[4..];
    assert scope == "crn:" + rest;
    PrefixedPiece("crn:", rest);
    assert FirstSegment(scope)[3] == ':';
    if ValidSiteSlug(FirstSegment(scope)) {
      AuditReplay.SitePlain(FirstSegment(scope), ':');
    }
  }

  lemma {:induction false} PrefixedPiece(a: string, s: string)
    requires '.' !in a
    ensures Split(a + s, '.')[0] == a + Split(s, '.')[0]
  {
    if a == "" {
      assert a + s == s;
    } else {
      PrefixedPiece(a[1..], s);
      assert (a + s)[1..] == a[1..] + s;
      assert a == [a[0]] + a[1..];
    }
  }

  lemma ReplacedPut(b: map<Key, string>, gone: set<Key>, fresh_: set<Key>, t: Key)
    requires t in fresh_ && t !in gone
    ensures Replaced(b[t := CRN_ORIGIN], gone, fresh_) == Replaced(b, gone, fresh_)
  {}

  lemma ReplacedDelete(b: map<Key, string>, gone: set<Key>, fresh_: set<Key>, rest: set<Key>, k: Key, t: Key)
    requires k in gone && fresh_ == rest + {t} && t in b && t !in gone && b[t] == CRN_ORIGIN
    ensures Replaced(b - {k}, gone - {k}, rest) == Replaced(b, gone, fresh_)
  {
    assert ((b - {k}).Keys - (gone - {k})) + rest == (b.Keys - gone) + fresh_;
  }

  /** Writing the CRN row of a rewritable row does not move the goal. */
  lemma PutStep(b: map<Key, string>, k: Key, attr: map<string, string>)
    requires forall s :: s in attr ==> ValidSiteSlug(s)
    requires k in b && Rewritable(k.1, b[k], attr)
    ensures GoalBindings(b[Target(k, attr) := CRN_ORIGIN], attr) == GoalBindings(b, attr)
  {
    var t := Target(k, attr);
    var c := b[t := CRN_ORIGIN];
    if t in b {
      CrnNotRewritable(t.1, b[t], attr);
    }
    assert t in Targets(b, attr);
    TargetsAgree(b, c, t, attr);
    assert OldKeys(c, attr) == OldKeys(b, attr);
    ReplacedPut(b, OldKeys(b, attr), Targets(b, attr), t);
  }

  lemma TargetsAgree(b: map<Key, string>, c: map<Key, string>, t: Key, attr: map<string, string>)
    requires c == b[t := CRN_ORIGIN] && (t in b ==> !Rewritable(t.1, b[t], attr))
    ensures Targets(b, attr) == Targets(c, attr)
  {
    forall x | x in Targets(b, attr) ensures x in Targets(c, attr) {
      var k :| k in b && Rewritable(k.1, b[k], attr) && Target(k, attr) == x;
      assert k != t && k in c;
    }
    forall x | x in Targets(c, attr) ensures x in Targets(b, attr) {
      var k :| k in c && Rewritable(k.1, c[k], attr) && Target(k, attr) == x;
      assert k != t && k in b;
    }
  }

  lemma TargetsAre(b: map<Key, string>, k: Key, attr: map<string, string>)
    requires k in b && Rewritable(k.1, b[k], attr)
    ensures Targets(b, attr) == Targets(b - {k}, attr) + {Target(k, attr)}
  {
    var c := b - {k};
    forall x | x in Targets(c, attr) ensures x in Targets(b, attr) {
      var j :| j in c && Rewritable(j.1, c[j], attr) && Target(j, attr) == x;
      assert j in b;
    }
    forall x | x in Targets(b, attr) && x != Target(k, attr) ensures x in Targets(c, attr) {
      var j :| j in b && Rewritable(j.1, b[j], attr) && Target(j, attr) == x;
      assert j in c;
    }
  }

  /** Nor does retiring a rewritable row whose CRN row is there. */
  lemma DeleteStep(b: map<Key, string>, k: Key, attr: map<string, string>)
    requires forall s :: s in attr ==> ValidSiteSlug(s)
    requires k in b && Rewritable(k.1, b[k], attr)
    requires Target(k, attr) in b && b[Target(k, attr)] == CRN_ORIGIN
    ensures GoalBindings(b - {k}, attr) == GoalBindings(b, attr)
  {
    var c := b - {k};
    TargetsAre(b, k, attr);
    assert OldKeys(c, attr) == OldKeys(b, attr) - {k};
    ReplacedDelete(b, OldKeys(b, attr), Targets(b, attr), Targets(c, attr), k, Target(k, attr));
  }

  /** With no rewritable row left the goal is reached. */
  lemma Reached(b: map<Key, string>, attr: map<string, string>)
    requires forall k :: k in b ==> !Rewritable(k.1, b[k], attr)
    ensures GoalBindings(b, attr) == b
  {
    assert OldKeys(b, attr) == {} && Targets(b, attr) == {};
  }

  // ---- Rows and their map ---------------------------------------------------

  /** `b` holds exactly the rows. */
  ghost predicate Holds(rows: seq<RoleBinding>, b: map<Key, string>) {
    && (forall i :: 0 <= i < |rows| ==> KeyOf(rows[i]) in b && b[KeyOf(rows[i])] == rows[i].origin)
    && (forall k :: k in b ==> exists i :: 0 <= i < |rows| && KeyOf(rows[i]) == k)
  }

  lemma {:induction false} HoldsOne(rows: seq<RoleBinding>, b: map<Key, string>, c: map<Key, string>)
    requires Holds(rows, b) && Holds(rows, c)
    ensures b == c
  {
    forall k | k in b ensures k in c && b[k] == c[k] {
      var i :| 0 <= i < |rows| && KeyOf(rows[i]) == k;
    }
    forall k | k in c ensures k in b {
      var i :| 0 <= i < |rows| && KeyOf(rows[i]) == k;
    }
  }

  lemma {:induction false} HoldsSnoc(rows: seq<RoleBinding>, last: RoleBinding, b: map<Key, string>)
    requires Holds(rows, b) && KeyOf(last) !in b
    ensures Holds(rows + [last], b[KeyOf(last) := last.origin])
  {
    var all, c := rows + [last], b[KeyOf(last) := last.origin];
    assert all[|rows|] == last;
    forall k | k in c ensures exists i :: 0 <= i < |all| && KeyOf(all[i]) == k {
      if k in b {
        var i :| 0 <= i < |rows| && KeyOf(rows[i]) == k;
        assert all[i] == rows[i];
      }
    }
  }

  /** With unique keys the map of the rows holds exactly them. */
  lemma {:induction false} BindingsHold(rows: seq<RoleBinding>)
    requires StoreRuns.BindingsOk(rows)
    ensures Holds(rows, Bindings(rows))
  {
    if rows != [] {
      var init, last := rows[..|rows| - 1], rows[|rows| - 1];
      assert forall i :: 0 <= i < |init| ==> rows[i] == init[i];
      BindingsHold(init);
      assert rows == init + [last];
      HoldsSnoc(init, last, Bindings(init));
    }
  }

  lemma {:induction false} HoldsPut(rows: seq<RoleBinding>, b: map<Key, string>, i: nat, next: seq<RoleBinding>,
                                    rb: RoleBinding)
    requires Holds(rows, b) && StoreRuns.BindingsOk(rows) && i < |rows| && KeyOf(rb) == KeyOf(rows[i])
    requires |next| == |rows| && KeyOf(next[i]) == KeyOf(rb) && next[i].origin == rb.origin
    requires forall j :: 0 <= j < |rows| && j != i ==> next[j] == rows[j]
    ensures Holds(next, b[KeyOf(rb) := rb.origin])
  {
    var c := b[KeyOf(rb) := rb.origin];
    forall j | 0 <= j < |next| ensures KeyOf(next[j]) in c && c[KeyOf(next[j])] == next[j].origin {
      if j != i {
        assert KeyOf(rows[j]) != KeyOf(rows[i]);
      }
    }
    forall k | k in c ensures exists j :: 0 <= j < |next| && KeyOf(next[j]) == k {
      var j :| 0 <= j < |rows| && KeyOf(rows[j]) == k;
      assert KeyOf(next[j]) == k;
    }
  }

  lemma {:induction false} PutBindings(rows: seq<RoleBinding>, rb: RoleBinding, now: Time)
    requires StoreRuns.BindingsOk(rows) && rb.subject != "" && rb.scope != ""
    ensures StoreRuns.BindingsOk(Ops.PutRow(rows, rb, now))
    ensures Bindings(Ops.PutRow(rows, rb, now)) == Bindings(rows)[KeyOf(rb) := rb.origin]
  {
    var next, b := Ops.PutRow(rows, rb, now), Bindings(rows);
    var i := Ops.Find(rows, rb.subject, rb.scope);
    StoreRuns.PutRowOk(rows, rb, now);
    BindingsHold(rows);
    BindingsHold(next);
    if i < |rows| {
      HoldsPut(rows, b, i, next, rb);
    } else {
      NotThere(rows, b, rb);
      HoldsSnoc(rows, next[|rows|], b);
    }
    HoldsOne(next, Bindings(next), b[KeyOf(rb) := rb.origin]);
  }

  lemma NotThere(rows: seq<RoleBinding>, b: map<Key, string>, rb: RoleBinding)
    requires Holds(rows, b) && Ops.Find(rows, rb.subject, rb.scope) == |rows|
    ensures KeyOf(rb) !in b
  {
    forall i | 0 <= i < |rows| ensures KeyOf(rows[i]) != KeyOf(rb) {
      assert !Ops.At(rows, i, rb.subject, rb.scope);
    }
  }

  /** The rows without row `i`, by index. */
  lemma {:induction false} CutAt(rows: seq<RoleBinding>, i: nat, j: nat)
    requires i < |rows| && j < |rows| - 1
    ensures (rows[..i] + rows[i + 1..])[j] == rows[if j < i then j else j + 1]
  {}

  lemma {:induction false} CutHeld(rows: seq<RoleBinding>, b: map<Key, string>, i: nat, j: nat)
    requires Holds(rows, b) && StoreRuns.BindingsOk(rows) && i < |rows| && j < |rows| && j != i
    ensures var c := b - {KeyOf(rows[i])}; KeyOf(rows[j]) in c && c[KeyOf(rows[j])] == rows[j].origin
  {
    var k, l := if j < i then j else i, if j < i then i else j;
    assert rows[k].subject != rows[l].subject || rows[k].scope != rows[l].scope;
  }

  lemma {:induction false} CutListed(rows: seq<RoleBinding>, i: nat, j: nat)
    requires i < |rows| && j < |rows| && j != i
    ensures var next := rows[..i] + rows[i + 1..]; exists m :: 0 <= m < |next| && KeyOf(next[m]) == KeyOf(rows[j])
  {
    var m := if j < i then j else j - 1;
    CutAt(rows, i, m);
  }

  lemma {:induction false} HoldsDelete(rows: seq<RoleBinding>, b: map<Key, string>, i: nat)
    requires Holds(rows, b) && StoreRuns.BindingsOk(rows) && i < |rows|
    ensures Holds(rows[..i] + rows[i + 1..], b - {KeyOf(rows[i])})
  {
    var next, c := rows[..i] + rows[i + 1..], b - {KeyOf(rows[i])};
    forall j | 0 <= j < |next| ensures KeyOf(next[j]) in c && c[KeyOf(next[j])] == next[j].origin {
      CutAt(rows, i, j);
      CutHeld(rows, b, i, if j < i then j else j + 1);
    }
    forall k | k in c ensures exists j :: 0 <= j < |next| && KeyOf(next[j]) == k {
      var j :| 0 <= j < |rows| && KeyOf(rows[j]) == k;
      CutListed(rows, i, j);
    }
  }

  lemma {:induction false} DeleteBindings(rows: seq<RoleBinding>, i: nat)
    requires StoreRuns.BindingsOk(rows) && i < |rows|
    ensures StoreRuns.BindingsOk(rows[..i] + rows[i + 1..])
    ensures Bindings(rows[..i] + rows[i + 1..]) == Bindings(rows) - {KeyOf(rows[i])}
  {
    var next := rows[..i] + rows[i + 1..];
    StoreRuns.DeleteRowOk(rows, i);
    BindingsHold(rows);
    BindingsHold(next);
    HoldsDelete(rows, Bindings(rows), i);
    HoldsOne(next, Bindings(next), Bindings(rows) - {KeyOf(rows[i])});
  }

  // ---- What the rows grant --------------------------------------------------

  /** The patterns a scope compiles to, if it compiles. */
  function Grant(s: string): Option<(Glob.Glob, Glob.Glob)> {
    var c := CompileScope(s);
    if c.None? then None else Some((c.value.exact, c.value.subtree))
  }

  predicate SameGrant(s: string, t: string) { Grant(s) == Grant(t) }

  type Granted = Option<(Glob.Glob, Glob.Glob)>

  /** What a subject is granted. */
  ghost function Grants(b: map<Key, string>, subject: string): set<Granted> {
    set k | k in b && k.0 == subject :: Grant(k.1)
  }

  ghost predicate SameGrants(b: map<Key, string>, c: map<Key, string>, subject: string) {
    Grants(b, subject) == Grants(c, subject)
  }

  /** Adding a row that grants what another row of its subject grants changes
      no grants. */
  lemma TwinAdded(b: map<Key, string>, k: Key, t: Key, origin: string, subject: string)
    requires t.0 == subject ==> k in b && k.0 == t.0 && SameGrant(k.1, t.1)
    ensures SameGrants(b, b[t := origin], subject)
  {
    var c := b[t := origin];
    forall x | x in Grants(b, subject) ensures x in Grants(c, subject) {
      var j :| j in b && j.0 == subject && Grant(j.1) == x;
      assert j in c;
    }
    forall x | x in Grants(c, subject) ensures x in Grants(b, subject) {
      var j :| j in c && j.0 == subject && Grant(j.1) == x;
      assert j in b || j == t;
    }
  }

  lemma TwinRemoved(b: map<Key, string>, k: Key, t: Key, subject: string)
    requires k.0 == subject ==> k.0 == t.0 && SameGrant(k.1, t.1) && t in b && t != k
    ensures SameGrants(b, b - {k}, subject)
  {
    var c := b - {k};
    forall x | x in Grants(c, subject) ensures x in Grants(b, subject) {
      var j :| j in c && j.0 == subject && Grant(j.1) == x;
      assert j in b;
    }
    forall x | x in Grants(b, subject) ensures x in Grants(c, subject) {
      var j :| j in b && j.0 == subject && Grant(j.1) == x;
      assert j in c || (j == k && t in c);
    }
  }

  /** The scopes the rows add to a subject (core/auth.go, LoadRoleBindingsInto). */
  function RowScopes(rows: seq<RoleBinding>, subject: string): seq<string> {
    if rows == [] then []
    else
      var last := rows[|rows| - 1];
      RowScopes(rows[..|rows| - 1], subject) +
      (if last.subject == subject && subject != "" && last.scope != "" then [last.scope] else [])
  }

  /** The seed principal with the scopes its subject has in the store. */
  function Loaded(seed: Principal, rows: seq<RoleBinding>): Principal {
    seed.(scopes := seed.scopes + RowScopes(rows, seed.subject))
  }

  method LoadScopes(rows: seq<RoleBinding>, seed: Principal) returns (p: Principal)
    ensures p == Loaded(seed, rows)
  {
    var scopes: seq<string> := [];
    for i := 0 to |rows|
      invariant scopes == RowScopes(rows[..i], seed.subject)
    {
      assert rows[..i + 1][..i] == rows[..i];
      if rows[i].subject != "" && rows[i].scope != "" && rows[i].subject == seed.subject {
        scopes := scopes + [rows[i].scope];
      }
    }
    assert rows[..|rows|] == rows;
    p := seed.(scopes := seed.scopes + scopes);
  }

  lemma {:induction false} RowScopesMembers(rows: seq<RoleBinding>, subject: string, s: string)
    requires StoreRuns.BindingsOk(rows)
    ensures s in RowScopes(rows, subject) <==> (subject, s) in Bindings(rows)
  {
    if rows != [] {
      var init := rows[..|rows| - 1];
      assert forall i :: 0 <= i < |init| ==> rows[i] == init[i];
      RowScopesMembers(init, subject, s);
    }
  }

  /** Equal grants give equal decisions, for every seed, action and path. */
  lemma GrantsDecide(rows: seq<RoleBinding>, rows': seq<RoleBinding>, seed: Principal, action: Action, path: string)
    requires StoreRuns.BindingsOk(rows) && StoreRuns.BindingsOk(rows')
    requires SameGrants(Bindings(rows), Bindings(rows'), seed.subject)
    ensures AllCompile(Loaded(seed, rows).scopes) == AllCompile(Loaded(seed, rows').scopes)
    ensures Allowed(Loaded(seed, rows), action, path) == Allowed(Loaded(seed, rows'), action, path)
  {
    GrantsCarry(rows, rows', seed, action, path);
    GrantsCarry(rows', rows, seed, action, path);
    OpenDecision(Loaded(seed, rows), action, path);
    OpenDecision(Loaded(seed, rows'), action, path);
  }

  ghost predicate HasTwin(s: string, ts: seq<string>) {
    exists t :: t in ts && SameGrant(s, t)
  }

  ghost predicate Mirrored(ss: seq<string>, ts: seq<string>) {
    forall s :: s in ss ==> HasTwin(s, ts)
  }

  lemma MirroredCompile(ss: seq<string>, ts: seq<string>)
    requires Mirrored(ss, ts) && AllCompile(ts)
    ensures AllCompile(ss)
  {
    forall i | 0 <= i < |ss| ensures CompileScope(ss[i]).Some? {
      assert HasTwin(ss[i], ts);
      var t :| t in ts && SameGrant(ss[i], t);
      var j :| 0 <= j < |ts| && ts[j] == t;
    }
  }

  lemma MirroredHit(ss: seq<string>, ts: seq<string>, s: string, action: Action, path: string)
    requires Mirrored(ss, ts) && s in ss && ScopeHit(s, action, path)
    ensures exists t :: t in ts && ScopeHit(t, action, path)
  {
    assert HasTwin(s, ts);
    var t :| t in ts && SameGrant(s, t);
    assert ScopeHit(t, action, path);
  }

  lemma RowMirrored(b: map<Key, string>, c: map<Key, string>, subject: string, s: string, ts: seq<string>)
    requires Grants(b, subject) <= Grants(c, subject) && (subject, s) in b
    requires forall t :: (subject, t) in c ==> t in ts
    ensures HasTwin(s, ts)
  {
    assert Grant((subject, s).1) in Grants(b, subject);
    var k :| k in c && k.0 == subject && Grant(k.1) == Grant(s);
    assert (subject, k.1) == k;
    assert k.1 in ts;
  }

  lemma LoadedMirrored(rows: seq<RoleBinding>, rows': seq<RoleBinding>, seed: Principal)
    requires StoreRuns.BindingsOk(rows) && StoreRuns.BindingsOk(rows')
    requires Grants(Bindings(rows), seed.subject) <= Grants(Bindings(rows'), seed.subject)
    ensures Mirrored(Loaded(seed, rows).scopes, Loaded(seed, rows').scopes)
  {
    var ts := Loaded(seed, rows').scopes;
    forall t | (seed.subject, t) in Bindings(rows') ensures t in ts { RowScopesMembers(rows', seed.subject, t); }
    forall s | s in Loaded(seed, rows).scopes ensures HasTwin(s, ts) {
      if s in seed.scopes {
        assert s in ts && SameGrant(s, s);
      } else {
        RowScopesMembers(rows, seed.subject, s);
        RowMirrored(Bindings(rows), Bindings(rows'), seed.subject, s, ts);
      }
    }
  }

  lemma GrantsCarry(rows: seq<RoleBinding>, rows': seq<RoleBinding>, seed: Principal, action: Action, path: string)
    requires StoreRuns.BindingsOk(rows) && StoreRuns.BindingsOk(rows')
    requires Grants(Bindings(rows), seed.subject) <= Grants(Bindings(rows'), seed.subject)
    ensures AllCompile(Loaded(seed, rows').scopes) ==> AllCompile(Loaded(seed, rows).scopes)
    ensures (exists s :: s in Loaded(seed, rows).scopes && ScopeHit(s, action, path)) ==>
            exists s :: s in Loaded(seed, rows').scopes && ScopeHit(s, action, path)
  {
    var ss, ts := Loaded(seed, rows).scopes, Loaded(seed, rows').scopes;
    LoadedMirrored(rows, rows', seed);
    if AllCompile(ts) {
      MirroredCompile(ss, ts);
    }
    if s :| s in ss && ScopeHit(s, action, path) {
      MirroredHit(ss, ts, s, action, path);
    }
  }

  /** A slash does no harm in a scope that stays uncompilable when the slash is
      read as a dot. */
  predicate SlashHarmless(scope: string) {
    '/' !in scope || Glob.CompileGlob(Crn.Replace(scope, '/', '.')) == None
  }

  ghost predicate Slugs(attr: map<string, string>) {
    forall s :: s in attr ==> ValidSiteSlug(s) && ValidTenantSlug(attr[s])
  }

  /** A rewritable scope and its CRN grant the same exactly if it is harmless;
      otherwise a scope that never compiled becomes one that does. */
  lemma RewriteSameGrant(scope: string, origin: string, attr: map<string, string>)
    requires Slugs(attr) && Rewritable(scope, origin, attr)
    ensures SameGrant(scope, NewScope(scope, attr)) <==> SlashHarmless(scope)
    ensures '/' in scope ==> Grant(scope) == None
  {
    if HasPrefix(scope, Crn.PREFIX) {
      CrnNotRewritable(scope, origin, attr);
    }
    RewriteKeepsScope(scope, attr[FirstSegment(scope)]);
    Crn.LegacyDotPath(scope, "");
    var c := CompileScope(NewScope(scope, attr));
    assert CompileScope(scope).Some? <==> Grant(scope).Some?;
  }

  // ---- Who may do what, before and after --------------------------------------

  /** The subject's rewritable scopes all grant the same once rewritten. */
  ghost predicate Harmless(b: map<Key, string>, subject: string, attr: map<string, string>) {
    forall k :: k in b && k.0 == subject && Rewritable(k.1, b[k], attr) ==> SlashHarmless(k.1)
  }

  ghost predicate RowsCompile(b: map<Key, string>, subject: string) {
    forall k :: k in b && k.0 == subject ==> Grant(k.1).Some?
  }

  lemma CompiledHarmless(b: map<Key, string>, subject: string, attr: map<string, string>)
    requires Slugs(attr) && RowsCompile(b, subject)
    ensures Harmless(b, subject, attr)
  {
    forall k | k in b && k.0 == subject && Rewritable(k.1, b[k], attr) ensures SlashHarmless(k.1) {
      RewriteSameGrant(k.1, b[k], attr);
    }
  }

  /** A row that keeps its subject shut out at the goal did so before. */
  lemma GoalShut(b: map<Key, string>, subject: string, attr: map<string, string>)
    requires Slugs(attr) && RowsCompile(b, subject)
    ensures RowsCompile(GoalBindings(b, attr), subject)
  {
    var goal := GoalBindings(b, attr);
    forall k | k in goal && k.0 == subject ensures Grant(k.1).Some? {
      if k in Targets(b, attr) {
        var j :| j in b && Rewritable(j.1, b[j], attr) && Target(j, attr) == k;
        RewriteSameGrant(j.1, b[j], attr);
      }
    }
  }

  /** A subject with a row still has one at the goal. */
  lemma GoalHasRow(b: map<Key, string>, j: Key, attr: map<string, string>) returns (k: Key)
    requires j in b
    ensures k in GoalBindings(b, attr) && k.0 == j.0
  {
    if Rewritable(j.1, b[j], attr) {
      k := Target(j, attr);
      assert k in Targets(b, attr);
    } else {
      k := j;
    }
  }

  lemma LoadedCompile(rows: seq<RoleBinding>, seed: Principal)
    requires StoreRuns.BindingsOk(rows)
    ensures AllCompile(Loaded(seed, rows).scopes) <==>
            AllCompile(seed.scopes) && RowsCompile(Bindings(rows), seed.subject)
  {
    var ss, own, b := Loaded(seed, rows).scopes, RowScopes(rows, seed.subject), Bindings(rows);
    forall k | k in b && k.0 == seed.subject ensures k.1 in own {
      assert (seed.subject, k.1) == k;
      RowScopesMembers(rows, seed.subject, k.1);
    }
    forall s | s in own ensures (seed.subject, s) in b { RowScopesMembers(rows, seed.subject, s); }
    if AllCompile(ss) {
      SameCompile(ss, seed.scopes);
      SameCompile(ss, own);
      forall k | k in b && k.0 == seed.subject ensures Grant(k.1).Some? {
        var i :| 0 <= i < |own| && own[i] == k.1;
      }
    }
    if AllCompile(seed.scopes) && RowsCompile(b, seed.subject) {
      forall i | 0 <= i < |ss| ensures CompileScope(ss[i]).Some? {
        if i >= |seed.scopes| {
          assert ss[i] == own[i - |seed.scopes|];
          assert ss[i] in own;
          assert Grant((seed.subject, ss[i]).1).Some?;
        }
      }
    }
  }

  /** The migration leaves every decision for the seed as it is: its scopes play
      no part, or its rows all compile beforehand, or some row of it will not
      compile even when rewritten. */
  ghost predicate Steady(b: map<Key, string>, attr: map<string, string>, seed: Principal) {
    || seed.role == Admin || !RoleAllows(seed.role, Read) || !AllCompile(seed.scopes)
    || RowsCompile(b, seed.subject) || !RowsCompile(GoalBindings(b, attr), seed.subject)
  }

  lemma RoleReads(role: Role, action: Action)
    ensures RoleAllows(role, action) ==> RoleAllows(role, Read)
  {}

  /** While the goal stays put and a subject whose rows compile keeps its grants,
      a steady seed keeps every decision. */
  lemma SteadySame(was: seq<RoleBinding>, rows: seq<RoleBinding>, attr: map<string, string>, seed: Principal,
                   action: Action, path: string)
    requires StoreRuns.BindingsOk(was) && StoreRuns.BindingsOk(rows) && Slugs(attr) && Steady(Bindings(was), attr, seed)
    requires GoalBindings(Bindings(rows), attr) == GoalBindings(Bindings(was), attr)
    requires Harmless(Bindings(was), seed.subject, attr) ==> SameGrants(Bindings(was), Bindings(rows), seed.subject)
    ensures Allowed(Loaded(seed, rows), action, path) == Allowed(Loaded(seed, was), action, path)
  {
    OpenDecision(Loaded(seed, was), action, path);
    OpenDecision(Loaded(seed, rows), action, path);
    RoleReads(seed.role, action);
    LoadedCompile(was, seed);
    LoadedCompile(rows, seed);
    if RowsCompile(Bindings(was), seed.subject) {
      CompiledHarmless(Bindings(was), seed.subject, attr);
      GrantsDecide(was, rows, seed, action, path);
    } else if RowsCompile(Bindings(rows), seed.subject) {
      GoalShut(Bindings(rows), seed.subject, attr);
    }
  }

  /** A row that compiles lets its subject read somewhere. */
  lemma RowReads(rows: seq<RoleBinding>, seed: Principal, k: Key) returns (path: string)
    requires StoreRuns.BindingsOk(rows) && k in Bindings(rows) && k.0 == seed.subject
    requires RoleAllows(seed.role, Read) && AllCompile(Loaded(seed, rows).scopes)
    ensures Allowed(Loaded(seed, rows), Read, path)
  {
    var s := k.1;
    assert (seed.subject, s) == k;
    RowScopesMembers(rows, seed.subject, s);
    var ss := Loaded(seed, rows).scopes;
    assert s in ss;
    var i :| 0 <= i < |ss| && ss[i] == s;
    assert CompileScope(s).Some?;
    ScopeCompiles(s);
    var d := ScopeText(s).value.0;
    path := Glob.Filled(d);
    Glob.Matchable(d);
    assert ScopeHit(s, Read, path);
    OpenDecision(Loaded(seed, rows), Read, path);
  }

  /** At the goal, a seed that is not steady may read where it could not. */
  lemma UnsteadyReads(was: seq<RoleBinding>, rows: seq<RoleBinding>, attr: map<string, string>, seed: Principal)
    returns (path: string)
    requires StoreRuns.BindingsOk(was) && StoreRuns.BindingsOk(rows) && !Steady(Bindings(was), attr, seed)
    requires Bindings(rows) == GoalBindings(Bindings(was), attr)
    ensures Allowed(Loaded(seed, rows), Read, path) && !Allowed(Loaded(seed, was), Read, path)
  {
    LoadedCompile(was, seed);
    LoadedCompile(rows, seed);
    var j :| j in Bindings(was) && j.0 == seed.subject && Grant(j.1).None?;
    var k := GoalHasRow(Bindings(was), j, attr);
    path := RowReads(rows, seed, k);
    OpenDecision(Loaded(seed, was), Read, path);
  }

  // ---- The harmful case at work -------------------------------------------------

  lemma OneRow(rb: RoleBinding)
    requires rb.subject != "" && rb.scope != ""
    ensures StoreRuns.BindingsOk([rb]) && Bindings([rb]) == map[KeyOf(rb) := rb.origin]
  {
    assert [rb][..0] == [];
  }

  lemma OneRowGoal(rb: RoleBinding, attr: map<string, string>)
    requires Rewritable(rb.scope, rb.origin, attr)
    ensures GoalBindings(map[KeyOf(rb) := rb.origin], attr) == map[Target(KeyOf(rb), attr) := CRN_ORIGIN]
  {
    var b := map[KeyOf(rb) := rb.origin];
    assert OldKeys(b, attr) == {KeyOf(rb)};
    assert Targets(b, attr) == {Target(KeyOf(rb), attr)} by { assert KeyOf(rb) in b; }
  }

  /** The rewritten scope hits the path it spells with dots. */
  lemma RewrittenHits(scope: string, origin: string, attr: map<string, string>)
    requires Slugs(attr) && Rewritable(scope, origin, attr) && Glob.ValidPath(Crn.Replace(scope, '/', '.'))
    ensures ScopeHit(NewScope(scope, attr), Read, Crn.Replace(scope, '/', '.'))
  {
    var d, t := Crn.Replace(scope, '/', '.'), attr[FirstSegment(scope)];
    PathMatches(d);
    RewrittenScope(scope, t);
    ScopeCompiles(NewScope(scope, attr));
  }

  /** Its subject reads there. */
  lemma RewrittenReads(subject: string, s: string, rows: seq<RoleBinding>, path: string)
    requires StoreRuns.BindingsOk(rows) && Bindings(rows) == map[(subject, s) := CRN_ORIGIN] && ScopeHit(s, Read, path)
    ensures Allowed(Loaded(Principal(subject, Viewer, []), rows), Read, path)
  {
    var seed := Principal(subject, Viewer, []);
    LoadedCompile(rows, seed);
    RowScopesMembers(rows, subject, s);
    OpenDecision(Loaded(seed, rows), Read, path);
    assert s in Loaded(seed, rows).scopes;
  }

  /** A row that does not compile shuts its subject out. */
  lemma RowShuts(rb: RoleBinding, path: string)
    requires rb.subject != "" && rb.scope != "" && Grant(rb.scope).None?
    ensures !Allowed(Loaded(Principal(rb.subject, Viewer, []), [rb]), Read, path)
  {
    var seed := Principal(rb.subject, Viewer, []);
    OneRow(rb);
    LoadedCompile([rb], seed);
    assert KeyOf(rb) in Bindings([rb]);
    OpenDecision(Loaded(seed, [rb]), Read, path);
  }

  /** A subject whose only row is a valid path with slashes in place of dots: it
      is shut out before, and may read that path afterwards. */
  lemma SlashHarm(rb: RoleBinding, attr: map<string, string>, rows: seq<RoleBinding>)
    requires Slugs(attr) && Rewritable(rb.scope, rb.origin, attr) && rb.subject != "" && rb.scope != ""
    requires '/' in rb.scope && Glob.ValidPath(Crn.Replace(rb.scope, '/', '.'))
    requires StoreRuns.BindingsOk(rows) && Bindings(rows) == GoalBindings(Bindings([rb]), attr)
    ensures var seed, path := Principal(rb.subject, Viewer, []), Crn.Replace(rb.scope, '/', '.');
            !Allowed(Loaded(seed, [rb]), Read, path) && Allowed(Loaded(seed, rows), Read, path)
  {
    var path := Crn.Replace(rb.scope, '/', '.');
    OneRow(rb);
    OneRowGoal(rb, attr);
    RewriteSameGrant(rb.scope, rb.origin, attr);
    RowShuts(rb, path);
    RewrittenHits(rb.scope, rb.origin, attr);
    RewrittenReads(rb.subject, NewScope(rb.scope, attr), rows, path);
  }

  lemma ExampleSlugs()
    ensures ValidSiteSlug("ab01") && ValidTenantSlug("acme")
  {
    assert "ab01"[2..] == "01" && "ab01"[..2] == "ab";
  }

  lemma ExamplePath()
    ensures Crn.Replace("ab01.p/q", '/', '.') == "ab01.p.q" && Glob.ValidPath("ab01.p.q") && '/' in "ab01.p/q"
  {
    assert "ab01.p/q"[6] == '/';
  }

  lemma ExampleSite()
    ensures FirstSegment("ab01.p/q") == "ab01"
  {
    PrefixedPiece("ab01", ".p/q");
    assert "ab01" + ".p/q" == "ab01.p/q";
  }

  lemma ExampleDue()
    ensures Slugs(map["ab01" := "acme"]) && Rewritable("ab01.p/q", "legacy", map["ab01" := "acme"])
  {
    ExampleSlugs();
    ExampleSite();
  }

  /** One such row, and the row it becomes: read access to "ab01.p.q" is denied
      before and allowed after. */
  lemma SlashHarmArises(rb: RoleBinding, crn: RoleBinding)
    requires rb.subject == "u" && rb.scope == "ab01.p/q" && rb.origin == "legacy"
    requires crn.subject == "u" && crn.scope == Crn.Print(Crn.LegacyToCrn("ab01.p/q", "acme"))
             && crn.origin == CRN_ORIGIN
    ensures Bindings([crn]) == GoalBindings(Bindings([rb]), map["ab01" := "acme"])
    ensures var seed := Principal("u", Viewer, []);
            !Allowed(Loaded(seed, [rb]), Read, "ab01.p.q") && Allowed(Loaded(seed, [crn]), Read, "ab01.p.q")
  {
    ExampleDue();
    ExamplePath();
    OneRow(rb);
    OneRowGoal(rb, map["ab01" := "acme"]);
    OneRow(crn);
    SlashHarm(rb, map["ab01" := "acme"], [crn]);
  }
}
