/** The v1.1 migration (core/migrate_v11.go) as it runs on the store: three
    passes of store writes, any of which may fail and end the run. */
module Migration {
  import opened Text
  import opened Names
  import opened Records
  import opened MigrationSpec
  import opened Rbac
  import Ops
  import Crn
  import AuditReplay
  import StoreRuns
  import Ordering
  import Disk
  import opened FileStore

  // ---- The goal of a whole state ------------------------------------------

  /** Where a completed run ends, forgetting ids and timestamps; nothing when
      the attribution of sites stops the run. */
  ghost function Destination(m: Mem): Option<(Places, map<Key, string>)> {
    var attr := Attribution(m.tenancy, AssetSites(m.assets));
    if attr.None? then None
    else Some((Goal(m.tenancy, attr.value), GoalBindings(Bindings(m.roleBindings), attr.value)))
  }

  ghost predicate Arrived(m: Mem) {
    Destination(m) == Some((PlacesOf(m.tenancy), Bindings(m.roleBindings)))
  }

  // ---- Site attribution ---------------------------------------------------

  method FirstPathSegment(path: string) returns (s: string)
    ensures s == FirstSegment(path)
  {
    for i := 0 to |path|
      invariant '.' !in path[..i]
    {
      if path[i] == '.' {
        assert path == path[..i] + ['.'] + path[i + 1..];
        SplitAppend(path[..i], path[i + 1..], '.');
        SplitSingle(path[..i], '.');
        return path[..i];
      }
    }
    assert path[..|path|] == path;
    SplitSingle(path, '.');
    s := path;
  }

  lemma SoleIs(tenants: set<string>, t: string)
    requires |tenants| == 1 && t in tenants
    ensures Sole(tenants) == Some(t)
  {
    assert |tenants - {t}| == 0;
    assert tenants == {t};
  }

  lemma NoSole(tenants: set<string>)
    requires |tenants| != 1
    ensures Sole(tenants) == None
  {
    forall t | t in tenants ensures tenants != {t} {
      assert |{t}| == 1;
    }
  }

  /** One more asset site: attributed already, given to the sole tenant, or
      stopping everything. */
  lemma AttributeMore(byOrg: map<string, string>, sole: Option<string>, seen: set<string>, m: map<string, string>,
                      s: string)
    requires Attribute(byOrg, sole, seen) == Some(m)
    ensures s in m ==> Attribute(byOrg, sole, seen + {s}) == Some(m)
    ensures s !in m && sole.Some? ==> Attribute(byOrg, sole, seen + {s}) == Some(m[s := sole.value])
  {
    var rest := seen - byOrg.Keys;
    if s in byOrg {
      assert seen + {s} - byOrg.Keys == rest;
    } else {
      assert seen + {s} - byOrg.Keys == rest + {s};
      assert rest == {} ==> byOrg + BySole({}, "") == byOrg;
      if sole.Some? {
        assert m == byOrg + BySole(rest, sole.value);
        assert byOrg + BySole(rest + {s}, sole.value) == m[s := sole.value];
        if s in m { assert m[s := sole.value] == m; }
      }
    }
  }

  method BuildSiteTenantMap(v: Tenancy, assets: map<string, Asset>) returns (r: Option<map<string, string>>)
    ensures r == Attribution(v, AssetSites(assets))
  {
    var byOrg := AttributeByOrg(v);
    r := AttributeAssets(byOrg, v.tenants.Keys, assets);
  }

  method AttributeByOrg(v: Tenancy) returns (m: map<string, string>)
    ensures m == ByOrg(v)
  {
    m := map[];
    var todo := v.sites.Keys;
    while todo != {}
      invariant todo <= v.sites.Keys
      invariant m == map s | s in ByOrg(v) && s !in todo :: ByOrg(v)[s]
      decreases todo
    {
      var s :| s in todo;
      todo := todo - {s};
      var orgId := v.sites[s].orgId;
      if orgId in v.orgs && v.orgs[orgId].tenantId in v.tenants {
        m := m[s := v.orgs[orgId].tenantId];
      }
    }
  }

  lemma AttributeStops(byOrg: map<string, string>, seen: set<string>, m: map<string, string>, s: string,
                       all: set<string>)
    requires Attribute(byOrg, None, seen) == Some(m) && s !in m && s in all
    ensures Attribute(byOrg, None, all) == None
  {
    assert s in all - byOrg.Keys;
  }

  /** One turn of the loop over assets, for a site not seen before. */
  method AttributeSite(byOrg: map<string, string>, tenants: set<string>, ghost seen: set<string>,
                       m: map<string, string>, s: string) returns (r: Option<map<string, string>>)
    requires Attribute(byOrg, Sole(tenants), seen) == Some(m)
    ensures r.Some? ==> Attribute(byOrg, Sole(tenants), seen + {s}) == r
    ensures r.None? ==> s !in m && Sole(tenants) == None
  {
    AttributeMore(byOrg, Sole(tenants), seen, m, s);
    if s in m {
      return Some(m);
    }
    if |tenants| == 1 {
      var t :| t in tenants;
      SoleIs(tenants, t);
      return Some(m[s := t]);
    }
    NoSole(tenants);
    r := None;
  }

  method AttributeAssets(byOrg: map<string, string>, tenants: set<string>, assets: map<string, Asset>)
    returns (r: Option<map<string, string>>)
    ensures r == Attribute(byOrg, Sole(tenants), AssetSites(assets))
  {
    var m, seen := byOrg, {};
    var todo, done := assets.Keys, {};
    while todo != {}
      invariant todo + done == assets.Keys
      invariant seen == SitesOf(done)
      invariant Attribute(byOrg, Sole(tenants), seen) == Some(m)
      decreases todo
    {
      var p :| p in todo;
      var s := FirstPathSegment(p);
      SitesOfMore(done, p);
      todo, done := todo - {p}, done + {p};
      if s != "" && s !in seen {
        var next := AttributeSite(byOrg, tenants, seen, m, s);
        if next.None? {
          SitesOfSubset(done, assets.Keys);
          AttributeStops(byOrg, seen, m, s, AssetSites(assets));
          return None;
        }
        seen, m := seen + {s}, next.value;
      }
      assert seen == SitesOf(done);
    }
    assert done == assets.Keys;
    r := Some(m);
  }

  lemma SitesOfSubset(a: set<string>, b: set<string>)
    requires a <= b
    ensures SitesOf(a) <= SitesOf(b)
  {}

  // ---- What can go wrong ----------------------------------------------------

  datatype Diff = Diff(subject: string, oldScope: string, newScope: string)

  /** The rewrites recorded so far, and how many could not be. */
  class AuditSink {
    var recorded: seq<Diff>
    ghost var failed: nat

    constructor ()
      ensures recorded == [] && failed == 0
    {
      recorded, failed := [], 0;
    }

    method RecordRewrite(d: Diff) returns (ok: bool)
      modifies this
      ensures recorded == if ok then old(recorded) + [d] else old(recorded)
      ensures failed == old(failed) + if ok then 0 else 1
    {
      ok := *;
      if ok {
        recorded := recorded + [d];
      } else {
        failed := failed + 1;
      }
    }
  }

  lemma RecordedMore(a: seq<Diff>, d: seq<Diff>, e: seq<Diff>)
    ensures a + d + e == a + (d + e) && a + [] == a
  {}

  /** Done exactly if nothing failed. */
  ghost predicate Unhindered(ok: bool, refused: nat, refused': nat, failed: nat, failed': nat) {
    refused <= refused' && failed <= failed' && (ok <==> refused' == refused && failed' == failed)
  }

  // ---- Pass 1: a default org for every tenant -----------------------------

  /** What the disk held before stays, and every later state satisfies `keep`. */
  ghost predicate Trail(keep: Mem -> bool, disk: seq<Mem>, disk': seq<Mem>) {
    && disk <= disk'
    && forall i :: |disk| <= i < |disk'| ==> keep(disk'[i])
  }

  /** A run under way: memory satisfies `keep` and is what the disk holds. */
  ghost predicate Going(keep: Mem -> bool, disk: seq<Mem>, m: Mem, disk': seq<Mem>) {
    keep(m) && Trail(keep, disk, disk') && |disk'| > 0 && disk'[|disk'| - 1] == m
  }

  /** Creating a tenant's default org keeps `keep`. */
  ghost predicate KeptByOrgs(keep: Mem -> bool, principal: string) {
    forall m: Mem, t, id, now, audit :: keep(m) && ValidId(id) && id !in m.tenancy.orgs ==>
      var i := Ops.CreateOrg(m.tenancy, t, Ops.DEFAULT_ORG, principal, now, id, audit);
      i.Write? ==> keep(m.(tenancy := i.state))
  }

  ghost predicate IsDefault(orgs: map<string, Org>, id: string, t: string) {
    id in orgs && orgs[id].tenantId == t && orgs[id].name == Ops.DEFAULT_ORG
  }

  method FindDefault(orgs: map<string, Org>, t: string) returns (id: Option<string>)
    ensures id.Some? ==> IsDefault(orgs, id.value, t)
    ensures id.None? ==> forall k :: !IsDefault(orgs, k, t)
  {
    var todo := orgs.Keys;
    while todo != {}
      invariant todo <= orgs.Keys
      invariant forall k :: k in orgs && k !in todo ==> !IsDefault(orgs, k, t)
      decreases todo
    {
      var k :| k in todo;
      if orgs[k].tenantId == t && orgs[k].name == Ops.DEFAULT_ORG {
        return Some(k);
      }
      todo := todo - {k};
    }
    id := None;
  }

  /** What the answer says about the orgs. */
  lemma CreateOutcome(u: Tenancy, u': Tenancy, d: seq<Mem>, d': seq<Mem>, now: Mem, t: string, principal: string,
                      at: Time, newId: string, audit: string, r: Result<Org>)
    requires t in u.tenants
    requires Transaction(u, u', d, d', now, Ops.CreateOrg(u, t, Ops.DEFAULT_ORG, principal, at, newId, audit), r)
    ensures r.Ok? ==> u'.orgs == u.orgs[newId := r.value] && IsDefault(u'.orgs, newId, t) && r.value.id == newId
    ensures r.Err? ==> u'.orgs == u.orgs && d' == d
    ensures r == Err(OrgNameConflict) <==> exists k :: IsDefault(u.orgs, k, t)
    ensures r.Ok? || r == Err(OrgNameConflict) || r == Err(SaveFailed)
  {
    Ops.DefaultIsSlug();
    if Ops.NameTaken(u.orgs, t, Ops.DEFAULT_ORG, None) {
      var k :| k in u.orgs && u.orgs[k].tenantId == t && u.orgs[k].name == Ops.DEFAULT_ORG;
      assert IsDefault(u.orgs, k, t);
    }
  }

  lemma KeptAfter(keep: Mem -> bool, disk: seq<Mem>, m: Mem, m': Mem, d: seq<Mem>, d': seq<Mem>)
    requires Going(keep, disk, m, d)
    requires (m' == m && d' == d) || (keep(m') && d' == d + [m'])
    ensures Going(keep, disk, m', d')
  {}

  lemma KeptCreate(keep: Mem -> bool, m: Mem, m': Mem, d: seq<Mem>, d': seq<Mem>, t: string, principal: string,
                   at: Time, newId: string, audit: string, r: Result<Org>)
    requires KeptByOrgs(keep, principal) && keep(m) && ValidId(newId) && newId !in m.tenancy.orgs
    requires m' == m.(tenancy := m'.tenancy)
    requires Transaction(m.tenancy, m'.tenancy, d, d', m',
                         Ops.CreateOrg(m.tenancy, t, Ops.DEFAULT_ORG, principal, at, newId, audit), r)
    ensures (m' == m && d' == d) || (keep(m') && d' == d + [m'])
  {
    var i := Ops.CreateOrg(m.tenancy, t, Ops.DEFAULT_ORG, principal, at, newId, audit);
    if m'.tenancy != m.tenancy {
      assert i.Write? && keep(m.(tenancy := i.state));
    }
  }

  ghost predicate HasDefault(orgs: map<string, Org>, t: string) { exists k :: IsDefault(orgs, k, t) }

  ghost predicate DefaultAdded(orgs: map<string, Org>, orgs': map<string, Org>, newId: string, t: string) {
    || orgs' == orgs
    || (IsDefault(orgs', newId, t) && orgs' == orgs[newId := orgs'[newId]])
  }

  /** The default org of one tenant: created, or found among the orgs listed
      before the run. */
  method EnsureDefault(st: Store, t: string, newId: string, listed: map<string, Org>, principal: string,
                       ghost keep: Mem -> bool, ghost disk: seq<Mem>)
    returns (id: Option<string>)
    requires st.Valid() && KeptByOrgs(keep, principal) && Going(keep, disk, st.Contents(), st.saved)
    requires ValidId(newId) && newId !in st.orgs && t in st.tenants
    requires forall k :: IsDefault(st.orgs, k, t) <==> IsDefault(listed, k, t)
    modifies st`orgs, st`tenantAuds, st`saved, st`refused
    ensures st.Valid() && Going(keep, disk, st.Contents(), st.saved)
    ensures id.Some? ==> IsDefault(st.orgs, id.value, t)
    ensures DefaultAdded(old(st.orgs), st.orgs, newId, t)
    ensures HasDefault(old(st.orgs), t) ==> id.Some? && st.saved == old(st.saved)
    ensures st.refused >= old(st.refused) && (id.Some? <==> st.refused == old(st.refused))
  {
    ghost var m, d := st.Contents(), st.saved;
    var now: Time := *;
    var audit: string := *;
    var r := st.CreateOrg(t, Ops.DEFAULT_ORG, principal, now, newId, audit);
    CreateOutcome(m.tenancy, st.TenancyView(), d, st.saved, st.Contents(), t, principal, now, newId, audit, r);
    KeptCreate(keep, m, st.Contents(), d, st.saved, t, principal, now, newId, audit, r);
    KeptAfter(keep, disk, m, st.Contents(), d, st.saved);
    id := None;
    if r.Ok? {
      id := Some(r.value.id);
    } else if r.error == OrgNameConflict {
      id := FindDefault(listed, t);
    }
  }

  /** A new org id for every tenant, as the random source supplies them. */
  ghost predicate FreshIds(newIds: map<string, string>, tenants: set<string>, orgs: map<string, Org>) {
    && tenants <= newIds.Keys
    && (forall t :: t in tenants ==> ValidId(newIds[t]) && newIds[t] !in orgs)
    && (forall t, u :: t in tenants && u in tenants && t != u ==> newIds[t] != newIds[u])
  }

  ghost predicate AllDefault(orgs: map<string, Org>, ids: map<string, string>) {
    forall t :: t in ids ==> IsDefault(orgs, ids[t], t)
  }

  /** Half-way through the tenants: those done have their default org, the
      others have one exactly if they had one before. */
  ghost predicate OrgsSoFar(orgs: map<string, Org>, listed: map<string, Org>, newIds: map<string, string>,
                            todo: set<string>, done: map<string, string>) {
    && AllDefault(orgs, done)
    && FreshIds(newIds, todo, orgs)
    && forall t, k :: t in todo ==> (IsDefault(orgs, k, t) <==> IsDefault(listed, k, t))
  }

  lemma OrgDone(orgs: map<string, Org>, orgs': map<string, Org>, listed: map<string, Org>, newIds: map<string, string>,
                todo: set<string>, done: map<string, string>, t: string, id: string)
    requires OrgsSoFar(orgs, listed, newIds, todo, done) && t in todo
    requires DefaultAdded(orgs, orgs', newIds[t], t) && IsDefault(orgs', id, t)
    ensures OrgsSoFar(orgs', listed, newIds, todo - {t}, done[t := id])
  {
    assert forall k, u :: u != t ==> (IsDefault(orgs', k, u) <==> IsDefault(orgs, k, u));
  }

  ghost predicate AllHave(orgs: map<string, Org>, tenants: set<string>) {
    forall t :: t in tenants ==> HasDefault(orgs, t)
  }

  lemma StillHas(orgs: map<string, Org>, listed: map<string, Org>, newIds: map<string, string>, todo: set<string>,
                 done: map<string, string>, t: string, tenants: set<string>)
    requires OrgsSoFar(orgs, listed, newIds, todo, done) && t in todo && t in tenants
    ensures AllHave(listed, tenants) ==> HasDefault(orgs, t)
    ensures forall k :: IsDefault(orgs, k, t) <==> IsDefault(listed, k, t)
  {
    if AllHave(listed, tenants) {
      var k :| IsDefault(listed, k, t);
      assert IsDefault(orgs, k, t);
    }
  }

  /** One turn of the loop over tenants. */
  method DefaultTurn(st: Store, newIds: map<string, string>, listed: map<string, Org>, principal: string,
                     ghost todo: set<string>, done: map<string, string>, t: string, ghost keep: Mem -> bool,
                     ghost disk: seq<Mem>)
    returns (r: Option<map<string, string>>)
    requires st.Valid() && KeptByOrgs(keep, principal) && Going(keep, disk, st.Contents(), st.saved)
    requires OrgsSoFar(st.orgs, listed, newIds, todo, done) && t in todo && t in st.tenants
    modifies st`orgs, st`tenantAuds, st`saved, st`refused
    ensures st.Valid() && Going(keep, disk, st.Contents(), st.saved)
    ensures r.Some? ==> r.value.Keys == done.Keys + {t} && OrgsSoFar(st.orgs, listed, newIds, todo - {t}, r.value)
    ensures AllHave(listed, st.tenants.Keys) ==> r.Some? && st.saved == old(st.saved)
    ensures st.refused >= old(st.refused) && (r.Some? <==> st.refused == old(st.refused))
  {
    ghost var before := st.orgs;
    StillHas(before, listed, newIds, todo, done, t, st.tenants.Keys);
    var id := EnsureDefault(st, t, newIds[t], listed, principal, keep, disk);
    r := None;
    if id.Some? {
      OrgDone(before, st.orgs, listed, newIds, todo, done, t, id.value);
      r := Some(done[t := id.value]);
    }
  }

  method EnsureDefaults(st: Store, newIds: map<string, string>, listed: map<string, Org>, principal: string,
                        ghost keep: Mem -> bool, ghost disk: seq<Mem>)
    returns (ids: Option<map<string, string>>)
    requires st.Valid() && KeptByOrgs(keep, principal) && Going(keep, disk, st.Contents(), st.saved)
    requires FreshIds(newIds, st.tenants.Keys, st.orgs) && listed == st.orgs
    modifies st`orgs, st`tenantAuds, st`saved, st`refused
    ensures st.Valid() && Going(keep, disk, st.Contents(), st.saved)
    ensures ids.Some? ==> st.tenants.Keys <= ids.value.Keys && AllDefault(st.orgs, ids.value)
    ensures AllHave(listed, st.tenants.Keys) ==> ids.Some? && st.saved == old(st.saved)
    ensures st.refused >= old(st.refused) && (ids.Some? <==> st.refused == old(st.refused))
  {
    var todo, done: map<string, string> := st.tenants.Keys, map[];
    while todo != {}
      invariant todo <= st.tenants.Keys && forall t :: t in st.tenants ==> t in todo || t in done
      invariant st.Valid() && Going(keep, disk, st.Contents(), st.saved)
      invariant OrgsSoFar(st.orgs, listed, newIds, todo, done)
      invariant AllHave(listed, st.tenants.Keys) ==> st.saved == old(st.saved)
      invariant st.refused == old(st.refused)
      decreases todo
    {
      var t :| t in todo;
      var r := DefaultTurn(st, newIds, listed, principal, todo, done, t, keep, disk);
      if r.None? {
        return None;
      }
      todo, done := todo - {t}, r.value;
    }
    ids := Some(done);
  }

  // ---- Pass 2: every attributed site in its tenant's default org ----------

  ghost predicate KeptBySites(keep: Mem -> bool, attr: map<string, string>, principal: string) {
    forall m: Mem, site, orgId, now, audit ::
      keep(m) && site in attr && IsDefault(m.tenancy.orgs, orgId, attr[site]) ==>
        var i := Ops.AttachSiteToOrg(m.tenancy, site, orgId, principal, now, audit);
        i.Write? ==> keep(m.(tenancy := i.state))
  }

  lemma KeptAttach(keep: Mem -> bool, m: Mem, m': Mem, d: seq<Mem>, d': seq<Mem>, attr: map<string, string>,
                   site: string, orgId: string, principal: string, at: Time, audit: string, r: Result<()>)
    requires KeptBySites(keep, attr, principal) && keep(m) && site in attr
             && IsDefault(m.tenancy.orgs, orgId, attr[site])
    requires m' == m.(tenancy := m'.tenancy)
    requires Transaction(m.tenancy, m'.tenancy, d, d', m',
                         Ops.AttachSiteToOrg(m.tenancy, site, orgId, principal, at, audit), r)
    ensures (m' == m && d' == d) || (keep(m') && d' == d + [m'])
  {
    var i := Ops.AttachSiteToOrg(m.tenancy, site, orgId, principal, at, audit);
    if m'.tenancy != m.tenancy {
      assert i.Write? && keep(m.(tenancy := i.state));
    }
  }

  ghost predicate Housed(sites: map<string, SiteOrg>, site: string, orgId: string) {
    ValidSiteSlug(site) && site in sites && sites[site].orgId == orgId
  }

  ghost predicate OnlyMoves(sites: map<string, SiteOrg>, sites': map<string, SiteOrg>, site: string) {
    forall s, o :: s != site ==> (Housed(sites', s, o) <==> Housed(sites, s, o))
  }

  lemma AttachOutcome(u: Tenancy, u': Tenancy, d: seq<Mem>, d': seq<Mem>, now: Mem, site: string, orgId: string,
                      principal: string, at: Time, audit: string, r: Result<()>)
    requires Transaction(u, u', d, d', now, Ops.AttachSiteToOrg(u, site, orgId, principal, at, audit), r)
    ensures r.Ok? ==> Housed(u'.sites, site, orgId)
    ensures orgId in u.orgs ==> (r.Ok? <==> ValidSiteSlug(site) && r != Err(SaveFailed))
    ensures OnlyMoves(u.sites, u'.sites, site)
  {}

  method AttachSite(st: Store, site: string, orgId: string, principal: string, ghost attr: map<string, string>,
                    ghost keep: Mem -> bool, ghost disk: seq<Mem>)
    returns (ok: bool)
    requires st.Valid() && KeptBySites(keep, attr, principal) && Going(keep, disk, st.Contents(), st.saved)
    requires site in attr && IsDefault(st.orgs, orgId, attr[site])
    modifies st`siteOrgs, st`tenantAuds, st`saved, st`refused
    ensures st.Valid() && Going(keep, disk, st.Contents(), st.saved)
    ensures ok ==> Housed(st.siteOrgs, site, orgId)
    ensures OnlyMoves(old(st.siteOrgs), st.siteOrgs, site)
    ensures st.refused >= old(st.refused) && (ok <==> ValidSiteSlug(site) && st.refused == old(st.refused))
  {
    ghost var m, d := st.Contents(), st.saved;
    var now: Time := *;
    var audit: string := *;
    var r := st.AttachSiteToOrg(site, orgId, principal, now, audit);
    AttachOutcome(m.tenancy, st.TenancyView(), d, st.saved, st.Contents(), site, orgId, principal, now, audit, r);
    KeptAttach(keep, m, st.Contents(), d, st.saved, attr, site, orgId, principal, now, audit, r);
    KeptAfter(keep, disk, m, st.Contents(), d, st.saved);
    ok := r.Ok?;
  }

  ghost predicate SiteSlugs(attr: map<string, string>) { forall s :: s in attr ==> ValidSiteSlug(s) }

  /** Every attributed site is in the org `ids` gives its tenant. */
  ghost predicate AllHoused(sites: map<string, SiteOrg>, attr: map<string, string>, ids: map<string, string>) {
    forall s :: s in attr ==> attr[s] in ids && Housed(sites, s, ids[attr[s]])
  }

  /** Half-way through the sites: those done are housed, the others are where
      they were. */
  ghost predicate SitesSoFar(sites: map<string, SiteOrg>, linked: map<string, SiteOrg>, attr: map<string, string>,
                             ids: map<string, string>, todo: set<string>) {
    && (forall s :: s in attr && s !in todo ==> attr[s] in ids && Housed(sites, s, ids[attr[s]]))
    && (forall s, o :: s in todo ==> (Housed(sites, s, o) <==> Housed(linked, s, o)))
  }

  lemma SiteDone(sites: map<string, SiteOrg>, sites': map<string, SiteOrg>, linked: map<string, SiteOrg>,
                 attr: map<string, string>, ids: map<string, string>, todo: set<string>, site: string)
    requires SitesSoFar(sites, linked, attr, ids, todo) && site in attr && attr[site] in ids
    requires OnlyMoves(sites, sites', site) && Housed(sites', site, ids[attr[site]])
    ensures SitesSoFar(sites', linked, attr, ids, todo - {site})
  {}

  method AttachSites(st: Store, attr: map<string, string>, ids: map<string, string>, linked: map<string, SiteOrg>,
                     principal: string, ghost keep: Mem -> bool, ghost disk: seq<Mem>)
    returns (ok: bool)
    requires st.Valid() && KeptBySites(keep, attr, principal) && Going(keep, disk, st.Contents(), st.saved)
    requires attr.Values <= ids.Keys && AllDefault(st.orgs, ids)
    requires linked == st.siteOrgs && forall s :: s in linked ==> ValidSiteSlug(s)
    modifies st`siteOrgs, st`tenantAuds, st`saved, st`refused
    ensures st.Valid() && Going(keep, disk, st.Contents(), st.saved)
    ensures ok ==> AllHoused(st.siteOrgs, attr, ids)
    ensures AllHoused(linked, attr, ids) ==> ok && st.saved == old(st.saved)
    ensures st.refused >= old(st.refused) && (ok <==> SiteSlugs(attr) && st.refused == old(st.refused))
  {
    var todo := attr.Keys;
    while todo != {}
      invariant todo <= attr.Keys
      invariant st.Valid() && Going(keep, disk, st.Contents(), st.saved)
      invariant SitesSoFar(st.siteOrgs, linked, attr, ids, todo)
      invariant AllHoused(linked, attr, ids) ==> st.saved == old(st.saved)
      invariant st.refused == old(st.refused)
      decreases todo
    {
      var site :| site in todo;
      ghost var before := st.siteOrgs;
      assert attr[site] in attr.Values;
      var orgId := ids[attr[site]];
      assert Housed(linked, site, orgId) <==> site in linked && linked[site].orgId == orgId;
      if site !in linked || linked[site].orgId != orgId {
        var attached := AttachSite(st, site, orgId, principal, attr, keep, disk);
        if !attached {
          return false;
        }
      }
      SiteDone(before, st.siteOrgs, linked, attr, ids, todo, site);
      todo := todo - {site};
    }
    ok := true;
  }

  // ---- Pass 3: legacy rows become CRN rows --------------------------------

  /** `k` is a row of `m` that has to be rewritten. */
  ghost predicate Due(m: Mem, k: Key, attr: map<string, string>) {
    var b := Bindings(m.roleBindings);
    k in b && Rewritable(k.1, b[k], attr)
  }

  ghost predicate KeptByPut(keep: Mem -> bool, attr: map<string, string>) {
    forall m: Mem, k, rb, now ::
      keep(m) && Due(m, k, attr) && KeyOf(rb) == Target(k, attr) && rb.origin == CRN_ORIGIN ==>
      keep(m.(roleBindings := Ops.PutRow(m.roleBindings, rb, now)))
  }

  ghost predicate Replaceable(m: Mem, k: Key, attr: map<string, string>) {
    var b := Bindings(m.roleBindings);
    Due(m, k, attr) && Target(k, attr) in b && b[Target(k, attr)] == CRN_ORIGIN
  }

  ghost predicate KeptByDelete(keep: Mem -> bool, attr: map<string, string>) {
    forall m: Mem, i :: keep(m) && 0 <= i < |m.roleBindings| && Replaceable(m, KeyOf(m.roleBindings[i]), attr) ==>
      keep(m.(roleBindings := m.roleBindings[..i] + m.roleBindings[i + 1..]))
  }

  lemma TargetNamed(rows: seq<RoleBinding>, k: Key, attr: map<string, string>)
    requires StoreRuns.BindingsOk(rows) && k in Bindings(rows) && FirstSegment(k.1) in attr
    ensures Target(k, attr).0 != "" && Target(k, attr).1 != ""
  {
    BindingsHold(rows);
  }

  lemma KeptPut(keep: Mem -> bool, m: Mem, m': Mem, d: seq<Mem>, d': seq<Mem>, attr: map<string, string>, k: Key,
                rb: RoleBinding, now: Time, freshId: string, r: Result<()>)
    requires KeptByPut(keep, attr) && keep(m) && Due(m, k, attr) && StoreRuns.BindingsOk(m.roleBindings)
    requires KeyOf(rb) == Target(k, attr) && rb.origin == CRN_ORIGIN
    requires m' == m.(roleBindings := m'.roleBindings)
    requires Transaction(m.roleBindings, m'.roleBindings, d, d', m',
             Ops.PutRoleBinding(m.roleBindings, rb, now, freshId), r)
    ensures (m' == m && d' == d) || (keep(m') && d' == d + [m'])
    ensures StoreRuns.BindingsOk(m'.roleBindings)
    ensures r.Ok? ==> Bindings(m'.roleBindings) == Bindings(m.roleBindings)[Target(k, attr) := CRN_ORIGIN]
    ensures r.Ok? <==> r != Err(SaveFailed)
  {
    var row := Ops.Filled(rb, freshId);
    TargetNamed(m.roleBindings, k, attr);
    PutBindings(m.roleBindings, row, now);
    assert KeyOf(row) == Target(k, attr);
  }

  /** The CRN row of row `k` goes in; the map of rows gains exactly it. */
  method PutCrnRow(st: Store, rb: RoleBinding, ghost k: Key, attr: map<string, string>,
                   ghost keep: Mem -> bool, ghost disk: seq<Mem>)
    returns (ok: bool)
    requires st.Valid() && KeptByPut(keep, attr) && Going(keep, disk, st.Contents(), st.saved)
    requires StoreRuns.BindingsOk(st.rbData[..st.rbLen]) && Due(st.Contents(), k, attr)
    requires KeyOf(rb) == Target(k, attr) && rb.origin == CRN_ORIGIN
    modifies st`rbData, st`rbLen, st.rbData, st`saved, st`refused
    ensures st.Valid() && (st.rbData == old(st.rbData) || fresh(st.rbData))
    ensures Going(keep, disk, st.Contents(), st.saved) && StoreRuns.BindingsOk(st.rbData[..st.rbLen])
    ensures ok ==>
              Bindings(st.rbData[..st.rbLen]) == old(Bindings(st.rbData[..st.rbLen]))[Target(k, attr) := CRN_ORIGIN]
    ensures st.refused >= old(st.refused) && (ok <==> st.refused == old(st.refused))
  {
    ghost var m, d := st.Contents(), st.saved;
    var now: Time := *;
    var freshId: string := *;
    var r := st.PutRoleBinding(rb, now, freshId);
    KeptPut(keep, m, st.Contents(), d, st.saved, attr, k, rb, now, freshId, r);
    KeptAfter(keep, disk, m, st.Contents(), d, st.saved);
    ok := r.Ok?;
  }

  lemma FindsRow(rows: seq<RoleBinding>, k: Key)
    requires StoreRuns.BindingsOk(rows) && k in Bindings(rows)
    ensures Ops.Find(rows, k.0, k.1) < |rows| && KeyOf(rows[Ops.Find(rows, k.0, k.1)]) == k && k.0 != "" && k.1 != ""
  {
    BindingsHold(rows);
    var i :| 0 <= i < |rows| && KeyOf(rows[i]) == k;
    assert Ops.At(rows, i, k.0, k.1);
  }

  lemma KeptDelete(keep: Mem -> bool, m: Mem, m': Mem, d: seq<Mem>, d': seq<Mem>, attr: map<string, string>, k: Key,
                   r: Result<()>)
    requires KeptByDelete(keep, attr) && keep(m) && Replaceable(m, k, attr) && StoreRuns.BindingsOk(m.roleBindings)
    requires m' == m.(roleBindings := m'.roleBindings)
    requires Transaction(m.roleBindings, m'.roleBindings, d, d', m', Ops.DeleteRoleBinding(m.roleBindings, k.0, k.1), r)
    ensures (m' == m && d' == d) || (keep(m') && d' == d + [m'])
    ensures StoreRuns.BindingsOk(m'.roleBindings)
    ensures r.Ok? ==> Bindings(m'.roleBindings) == Bindings(m.roleBindings) - {k}
    ensures r.Ok? <==> r != Err(SaveFailed)
  {
    FindsRow(m.roleBindings, k);
    DeleteBindings(m.roleBindings, Ops.Find(m.roleBindings, k.0, k.1));
  }

  /** Row `k` goes, its CRN row being there. */
  method DropLegacyRow(st: Store, k: Key, ghost attr: map<string, string>, ghost keep: Mem -> bool,
                       ghost disk: seq<Mem>)
    returns (ok: bool)
    requires st.Valid() && KeptByDelete(keep, attr) && Going(keep, disk, st.Contents(), st.saved)
    requires StoreRuns.BindingsOk(st.rbData[..st.rbLen]) && Replaceable(st.Contents(), k, attr)
    modifies st`rbLen, st.rbData, st`saved, st`refused
    ensures st.Valid()
    ensures Going(keep, disk, st.Contents(), st.saved) && StoreRuns.BindingsOk(st.rbData[..st.rbLen])
    ensures ok ==> Bindings(st.rbData[..st.rbLen]) == old(Bindings(st.rbData[..st.rbLen])) - {k}
    ensures st.refused >= old(st.refused) && (ok <==> st.refused == old(st.refused))
  {
    ghost var m, d := st.Contents(), st.saved;
    var r := st.DeleteRoleBinding(k.0, k.1);
    KeptDelete(keep, m, st.Contents(), d, st.saved, attr, k, r);
    KeptAfter(keep, disk, m, st.Contents(), d, st.saved);
    ok := r.Ok?;
  }

  lemma TargetDiffers(k: Key, origin: string, attr: map<string, string>)
    requires SiteSlugs(attr) && Rewritable(k.1, origin, attr)
    ensures NewScope(k.1, attr) != k.1
    ensures forall o :: !Rewritable(NewScope(k.1, attr), o, attr)
  {
    forall o ensures !Rewritable(NewScope(k.1, attr), o, attr) { CrnNotRewritable(NewScope(k.1, attr), o, attr); }
  }

  /** Put the CRN row, retire the legacy row, record the rewrite. Any of the
      three may fail. */
  method RewriteRow(st: Store, rb: RoleBinding, newScope: string, newId: string, attr: map<string, string>,
                    sink: AuditSink, ghost keep: Mem -> bool, ghost disk: seq<Mem>)
    returns (ok: bool)
    requires st.Valid() && KeptByPut(keep, attr) && KeptByDelete(keep, attr) && SiteSlugs(attr)
    requires Going(keep, disk, st.Contents(), st.saved) && StoreRuns.BindingsOk(st.rbData[..st.rbLen])
    requires Due(st.Contents(), KeyOf(rb), attr) && newScope == NewScope(rb.scope, attr)
    modifies st`rbData, st`rbLen, st.rbData, st`saved, st`refused, sink
    ensures st.Valid() && (st.rbData == old(st.rbData) || fresh(st.rbData))
    ensures Going(keep, disk, st.Contents(), st.saved) && StoreRuns.BindingsOk(st.rbData[..st.rbLen])
    ensures ok ==> Bindings(st.rbData[..st.rbLen]) ==
                   old(Bindings(st.rbData[..st.rbLen]))[(rb.subject, newScope) := CRN_ORIGIN] - {KeyOf(rb)}
    ensures sink.recorded == old(sink.recorded) + if ok then [Diff(rb.subject, rb.scope, newScope)] else []
    ensures st.refused >= old(st.refused) && sink.failed >= old(sink.failed)
    ensures ok <==> st.refused == old(st.refused) && sink.failed == old(sink.failed)
  {
    ghost var k := KeyOf(rb);
    TargetDiffers(k, Bindings(st.rbData[..st.rbLen])[k], attr);
    var now: Time := *;
    ok := PutCrnRow(st, RoleBinding(newId, rb.subject, newScope, CRN_ORIGIN, rb.createdAt, now), k, attr, keep, disk);
    if ok {
      ok := DropLegacyRow(st, (rb.subject, rb.scope), attr, keep, disk);
    }
    if ok {
      ok := sink.RecordRewrite(Diff(rb.subject, rb.scope, newScope));
    }
  }

  ghost predicate DistinctKeys(rows: seq<RoleBinding>) {
    forall i, j :: 0 <= i < j < |rows| ==> KeyOf(rows[i]) != KeyOf(rows[j])
  }

  lemma {:induction false} InsertDistinct(x: RoleBinding, rows: seq<RoleBinding>)
    requires DistinctKeys(rows) && forall r :: r in rows ==> KeyOf(r) != KeyOf(x)
    ensures DistinctKeys(Ordering.Insert(x, rows, Disk.BindingLess))
  {
    if rows != [] && !Disk.BindingLess(x, rows[0]) {
      InsertDistinct(x, rows[1..]);
      var rest := Ordering.Insert(x, rows[1..], Disk.BindingLess);
      Ordering.InsertContents(x, rows[1..], Disk.BindingLess);
      forall j | 0 <= j < |rest| ensures KeyOf(rest[j]) != KeyOf(rows[0]) {
        assert rest[j] in multiset(rest);
        assert rest[j] == x || rest[j] in rows[1..];
      }
    }
  }

  lemma {:induction false} SortDistinct(rows: seq<RoleBinding>)
    requires DistinctKeys(rows)
    ensures DistinctKeys(Ordering.Sort(rows, Disk.BindingLess))
  {
    if rows != [] {
      SortDistinct(rows[1..]);
      Disk.BindingStrictWeak();
      Ordering.SortCorrect(rows[1..], Disk.BindingLess);
      var rest := Ordering.Sort(rows[1..], Disk.BindingLess);
      forall r | r in rest ensures KeyOf(r) != KeyOf(rows[0]) {
        assert r in multiset(rest);
        assert r in rows[1..];
      }
      InsertDistinct(rows[0], rest);
    }
  }

  ghost predicate Listed(k: Key, rows: seq<RoleBinding>) { exists i :: 0 <= i < |rows| && KeyOf(rows[i]) == k }

  /** `rb` is still there; only a row that is not due may have become CRN. */
  ghost predicate Standing(b: map<Key, string>, rb: RoleBinding, attr: map<string, string>) {
    && KeyOf(rb) in b
    && (b[KeyOf(rb)] == rb.origin || (b[KeyOf(rb)] == CRN_ORIGIN && !Rewritable(rb.scope, rb.origin, attr)))
  }

  /** Half-way through the listed rows: those to come still stand, and no row
      but those is due. */
  ghost predicate RowsSoFar(b: map<Key, string>, todo: seq<RoleBinding>, attr: map<string, string>) {
    && DistinctKeys(todo)
    && (forall i :: 0 <= i < |todo| ==> Standing(b, todo[i], attr))
    && (forall k :: k in b && Rewritable(k.1, b[k], attr) ==> Listed(k, todo))
  }

  lemma RowsStart(rows: seq<RoleBinding>, attr: map<string, string>)
    requires StoreRuns.BindingsOk(rows)
    ensures RowsSoFar(Bindings(rows), Ordering.Sort(rows, Disk.BindingLess), attr)
  {
    var todo := Ordering.Sort(rows, Disk.BindingLess);
    BindingsHold(rows);
    SortDistinct(rows);
    Disk.BindingStrictWeak();
    Ordering.SortCorrect(rows, Disk.BindingLess);
    forall i | 0 <= i < |todo| ensures Standing(Bindings(rows), todo[i], attr) {
      assert todo[i] in multiset(todo);
      assert todo[i] in rows;
    }
    forall k | k in Bindings(rows) ensures Listed(k, todo) {
      var i :| 0 <= i < |rows| && KeyOf(rows[i]) == k;
      assert rows[i] in multiset(rows);
      assert rows[i] in todo;
    }
  }

  lemma ListedLater(k: Key, todo: seq<RoleBinding>)
    requires Listed(k, todo) && todo != [] && k != KeyOf(todo[0])
    ensures Listed(k, todo[1..])
  {
    var i :| 0 <= i < |todo| && KeyOf(todo[i]) == k;
    assert todo[1..][i - 1] == todo[i];
  }

  lemma RowSkipped(b: map<Key, string>, todo: seq<RoleBinding>, attr: map<string, string>)
    requires RowsSoFar(b, todo, attr) && todo != [] && !Rewritable(todo[0].scope, todo[0].origin, attr)
    ensures RowsSoFar(b, todo[1..], attr)
  {
    assert Standing(b, todo[0], attr);
    forall k | k in b && Rewritable(k.1, b[k], attr) ensures Listed(k, todo[1..]) { ListedLater(k, todo); }
  }

  lemma RowRewritten(b: map<Key, string>, b': map<Key, string>, todo: seq<RoleBinding>, attr: map<string, string>)
    requires SiteSlugs(attr) && RowsSoFar(b, todo, attr) && todo != []
    requires Rewritable(todo[0].scope, todo[0].origin, attr)
    requires b' == b[Target(KeyOf(todo[0]), attr) := CRN_ORIGIN] - {KeyOf(todo[0])}
    ensures RowsSoFar(b', todo[1..], attr)
  {
    var t := Target(KeyOf(todo[0]), attr);
    TargetDiffers(KeyOf(todo[0]), todo[0].origin, attr);
    forall i | 0 < i < |todo| ensures Standing(b', todo[i], attr) {
      assert Standing(b, todo[i], attr) && KeyOf(todo[i]) != KeyOf(todo[0]);
    }
    forall k | k in b' && Rewritable(k.1, b'[k], attr) ensures Listed(k, todo[1..]) { ListedLater(k, todo); }
  }

  // ---- The rewrite report ---------------------------------------------------

  /** The rewrites the rows call for, in their order. */
  function Diffs(rows: seq<RoleBinding>, attr: map<string, string>): seq<Diff> {
    if rows == [] then []
    else
      var last := rows[|rows| - 1];
      Diffs(rows[..|rows| - 1], attr) +
      (if Rewritable(last.scope, last.origin, attr)
       then [Diff(last.subject, last.scope, NewScope(last.scope, attr))] else [])
  }

  /** One turn of the loop over the listed rows. */
  method RewriteTurn(st: Store, rb: RoleBinding, newId: string, attr: map<string, string>, sink: AuditSink,
                     ghost todo: seq<RoleBinding>, ghost keep: Mem -> bool, ghost disk: seq<Mem>)
    returns (ok: bool, diffs: seq<Diff>)
    requires st.Valid() && KeptByPut(keep, attr) && KeptByDelete(keep, attr) && SiteSlugs(attr)
    requires Going(keep, disk, st.Contents(), st.saved) && StoreRuns.BindingsOk(st.rbData[..st.rbLen])
    requires todo != [] && rb == todo[0] && RowsSoFar(Bindings(st.rbData[..st.rbLen]), todo, attr)
    modifies st`rbData, st`rbLen, st.rbData, st`saved, st`refused, sink
    ensures st.Valid() && (st.rbData == old(st.rbData) || fresh(st.rbData))
    ensures Going(keep, disk, st.Contents(), st.saved) && StoreRuns.BindingsOk(st.rbData[..st.rbLen])
    ensures ok ==> RowsSoFar(Bindings(st.rbData[..st.rbLen]), todo[1..], attr) && diffs == Diffs([rb], attr)
    ensures !Rewritable(rb.scope, rb.origin, attr) ==>
              ok && st.saved == old(st.saved) && Bindings(st.rbData[..st.rbLen]) == old(Bindings(st.rbData[..st.rbLen]))
    ensures sink.recorded == old(sink.recorded) + diffs
    ensures Unhindered(ok, old(st.refused), st.refused, old(sink.failed), sink.failed)
  {
    ghost var b := Bindings(st.rbData[..st.rbLen]);
    assert Standing(b, rb, attr);
    ok, diffs := true, [];
    var site := FirstPathSegment(rb.scope);
    if rb.origin == CRN_ORIGIN || site == "" || site !in attr {
      RowSkipped(b, todo, attr);
    } else {
      var newScope := NewScope(rb.scope, attr);
      TargetDiffers(KeyOf(rb), rb.origin, attr);
      if rb.scope != newScope {
        ok := RewriteRow(st, rb, newScope, newId, attr, sink, keep, disk);
        if ok {
          RowRewritten(b, Bindings(st.rbData[..st.rbLen]), todo, attr);
          diffs := [Diff(rb.subject, rb.scope, newScope)];
        }
      }
    }
  }

  /** The rows by subject and scope, as the store lists them. */
  function Listing(rows: seq<RoleBinding>): seq<RoleBinding> { Ordering.Sort(rows, Disk.BindingLess) }

  ghost predicate NoneDue(b: map<Key, string>, attr: map<string, string>) {
    forall k :: k in b ==> !Rewritable(k.1, b[k], attr)
  }

  lemma NoneListedDue(rows: seq<RoleBinding>, attr: map<string, string>)
    requires StoreRuns.BindingsOk(rows) && NoneDue(Bindings(rows), attr)
    ensures forall rb :: rb in Ordering.Sort(rows, Disk.BindingLess) ==> !Rewritable(rb.scope, rb.origin, attr)
  {
    var todo := Ordering.Sort(rows, Disk.BindingLess);
    BindingsHold(rows);
    Disk.BindingStrictWeak();
    Ordering.SortCorrect(rows, Disk.BindingLess);
    forall rb | rb in todo ensures !Rewritable(rb.scope, rb.origin, attr) {
      assert rb in multiset(todo);
      assert rb in rows;
      var i :| 0 <= i < |rows| && rows[i] == rb;
      assert KeyOf(rows[i]).1 == rb.scope;
    }
  }

  lemma DiffsMore(rows: seq<RoleBinding>, i: nat, attr: map<string, string>)
    requires i < |rows|
    ensures Diffs(rows[..i + 1], attr) == Diffs(rows[..i], attr) + Diffs([rows[i]], attr)
    ensures rows[i..][1..] == rows[i + 1..] && rows[i..][0] == rows[i]
  {
    assert rows[..i + 1][..i] == rows[..i];
    assert [rows[i]][..0] == [];
  }

  method RewriteListed(st: Store, rows: seq<RoleBinding>, attr: map<string, string>, sink: AuditSink,
                       ghost idle: bool, ghost keep: Mem -> bool, ghost disk: seq<Mem>)
    returns (ok: bool, diffs: seq<Diff>)
    requires st.Valid() && KeptByPut(keep, attr) && KeptByDelete(keep, attr) && SiteSlugs(attr)
    requires Going(keep, disk, st.Contents(), st.saved) && StoreRuns.BindingsOk(st.rbData[..st.rbLen])
    requires RowsSoFar(Bindings(st.rbData[..st.rbLen]), rows, attr)
    requires idle ==> forall i :: 0 <= i < |rows| ==> !Rewritable(rows[i].scope, rows[i].origin, attr)
    modifies st`rbData, st`rbLen, st.rbData, st`saved, st`refused, sink
    ensures st.Valid() && (st.rbData == old(st.rbData) || fresh(st.rbData))
    ensures Going(keep, disk, st.Contents(), st.saved) && StoreRuns.BindingsOk(st.rbData[..st.rbLen])
    ensures ok ==> RowsSoFar(Bindings(st.rbData[..st.rbLen]), [], attr) && diffs == Diffs(rows, attr)
    ensures idle ==> ok && st.saved == old(st.saved)
    ensures sink.recorded == old(sink.recorded) + diffs
    ensures Unhindered(ok, old(st.refused), st.refused, old(sink.failed), sink.failed)
  {
    diffs := [];
    ghost var recorded := sink.recorded;
    RecordedMore(recorded, [], []);
    assert rows[0..] == rows && rows[..|rows|] == rows;
    for i := 0 to |rows|
      invariant st.Valid() && (st.rbData == old(st.rbData) || fresh(st.rbData))
      invariant Going(keep, disk, st.Contents(), st.saved) && StoreRuns.BindingsOk(st.rbData[..st.rbLen])
      invariant RowsSoFar(Bindings(st.rbData[..st.rbLen]), rows[i..], attr)
      invariant diffs == Diffs(rows[..i], attr)
      invariant idle ==> st.saved == old(st.saved)
      invariant sink.recorded == recorded + diffs
      invariant st.refused == old(st.refused) && sink.failed == old(sink.failed)
    {
      DiffsMore(rows, i, attr);
      var newId: string := *;
      var turn, more := RewriteTurn(st, rows[i], newId, attr, sink, rows[i..], keep, disk);
      RecordedMore(recorded, diffs, more);
      if !turn {
        return false, diffs + more;
      }
      diffs := diffs + more;
    }
    ok := true;
  }

  method RewriteBindings(st: Store, attr: map<string, string>, sink: AuditSink, ghost keep: Mem -> bool,
                         ghost disk: seq<Mem>,
                         ghost first: seq<RoleBinding>)
    returns (ok: bool, diffs: seq<Diff>)
    requires st.Valid() && KeptByPut(keep, attr) && KeptByDelete(keep, attr) && SiteSlugs(attr)
    requires Going(keep, disk, st.Contents(), st.saved) && StoreRuns.BindingsOk(st.rbData[..st.rbLen])
    requires first == st.rbData[..st.rbLen]
    modifies st`rbData, st`rbLen, st.rbData, st`saved, st`refused, sink
    ensures st.Valid() && (st.rbData == old(st.rbData) || fresh(st.rbData))
    ensures Going(keep, disk, st.Contents(), st.saved) && StoreRuns.BindingsOk(st.rbData[..st.rbLen])
    ensures ok ==> NoneDue(Bindings(st.rbData[..st.rbLen]), attr)
    ensures ok ==> diffs == Diffs(Listing(first), attr)
    ensures NoneDue(Bindings(first), attr) ==> ok && st.saved == old(st.saved)
    ensures sink.recorded == old(sink.recorded) + diffs
    ensures Unhindered(ok, old(st.refused), st.refused, old(sink.failed), sink.failed)
  {
    ghost var idle := NoneDue(Bindings(first), attr);
    RowsStart(first, attr);
    if idle { NoneListedDue(first, attr); }
    var rows := Listing(st.rbData[..st.rbLen]);
    ok, diffs := RewriteListed(st, rows, attr, sink, idle, keep, disk);
  }

  // ---- What every state of a run keeps --------------------------------------

  ghost function AttributionOf(m: Mem): Option<map<string, string>> { Attribution(m.tenancy, AssetSites(m.assets)) }

  /** A subject whose rewritable scopes are harmless has the grants it had. */
  ghost predicate SubjectKept(b0: map<Key, string>, b: map<Key, string>, attr: map<string, string>, subject: string) {
    Harmless(b0, subject, attr) ==> Harmless(b, subject, attr) && SameGrants(b0, b, subject)
  }

  /** The bindings `b` on the way from `b0`: the goal has not moved, nor have the
      grants of any subject with harmless scopes; where sites are not attributed
      or have no valid names nothing is rewritten. */
  ghost predicate RowsKept(b0: map<Key, string>, b: map<Key, string>, attr: Option<map<string, string>>) {
    && (attr.None? || !Slugs(attr.value) ==> b == b0)
    && (attr.Some? ==>
          && GoalBindings(b, attr.value) == GoalBindings(b0, attr.value)
          && forall subject :: SubjectKept(b0, b, attr.value, subject))
  }

  /** `m` may arise from `m0` by a migration, complete or cut short. */
  ghost predicate Kept(m0: Mem, m: Mem) {
    && m == m0.(tenancy := m.tenancy, roleBindings := m.roleBindings)
    && OnTheWay(m0.tenancy, m.tenancy, AssetSites(m0.assets))
    && StoreRuns.BindingsOk(m.roleBindings)
    && RowsKept(Bindings(m0.roleBindings), Bindings(m.roleBindings), AttributionOf(m0))
  }

  ghost function Keep(m0: Mem): Mem -> bool { m => Kept(m0, m) }

  lemma TenancyReplaced(m0: Mem, m: Mem, u: Tenancy)
    requires Kept(m0, m) && OnTheWay(m0.tenancy, u, AssetSites(m0.assets))
    ensures Kept(m0, m.(tenancy := u))
  {}

  lemma CreateOnTheWay(v: Tenancy, u: Tenancy, sites: set<string>, t: string, id: string, principal: string, now: Time,
                       audit: string)
    requires OnTheWay(v, u, sites) && ValidId(id) && id !in u.orgs
    ensures var i := Ops.CreateOrg(u, t, Ops.DEFAULT_ORG, principal, now, id, audit);
            i.Write? ==> OnTheWay(v, i.state, sites)
  {
    var i := Ops.CreateOrg(u, t, Ops.DEFAULT_ORG, principal, now, id, audit);
    if i.Write? {
      var o := Org(id, t, Ops.DEFAULT_ORG, now);
      var n := u.(orgs := u.orgs[id := o]);
      OrgStep(u, o, sites);
      OnTheWayTransitive(v, u, n, sites);
      OnTheWayLogged(v, n, i.state.auds, sites);
      assert i.state == n.(auds := i.state.auds);
    }
  }

  lemma CreateKept(m0: Mem, m: Mem, t: string, id: string, principal: string, now: Time, audit: string)
    requires Kept(m0, m) && ValidId(id) && id !in m.tenancy.orgs
    ensures var i := Ops.CreateOrg(m.tenancy, t, Ops.DEFAULT_ORG, principal, now, id, audit);
            i.Write? ==> Kept(m0, m.(tenancy := i.state))
  {
    var i := Ops.CreateOrg(m.tenancy, t, Ops.DEFAULT_ORG, principal, now, id, audit);
    CreateOnTheWay(m0.tenancy, m.tenancy, AssetSites(m0.assets), t, id, principal, now, audit);
    if i.Write? { TenancyReplaced(m0, m, i.state); }
  }

  lemma OrgsKept(m0: Mem, principal: string)
    ensures KeptByOrgs(Keep(m0), principal)
  {
    forall m: Mem, t, id, now, audit | Keep(m0)(m) && ValidId(id) && id !in m.tenancy.orgs
      ensures var i := Ops.CreateOrg(m.tenancy, t, Ops.DEFAULT_ORG, principal, now, id, audit);
              i.Write? ==> Keep(m0)(m.(tenancy := i.state))
    {
      CreateKept(m0, m, t, id, principal, now, audit);
    }
  }

  lemma AttachOnTheWay(v: Tenancy, u: Tenancy, sites: set<string>, attr: map<string, string>, site: string,
                       orgId: string, principal: string, now: Time, audit: string)
    requires OnTheWay(v, u, sites) && Attribution(v, sites) == Some(attr) && site in attr
             && IsDefault(u.orgs, orgId, attr[site])
    ensures var i := Ops.AttachSiteToOrg(u, site, orgId, principal, now, audit);
            i.Write? ==> OnTheWay(v, i.state, sites)
  {
    var i := Ops.AttachSiteToOrg(u, site, orgId, principal, now, audit);
    if i.Write? {
      var so := i.state.sites[site];
      var n := u.(sites := u.sites[site := so]);
      SiteStep(u, so, sites);
      OnTheWayTransitive(v, u, n, sites);
      OnTheWayLogged(v, n, i.state.auds, sites);
      assert i.state == n.(auds := i.state.auds);
    }
  }

  lemma AttachKept(m0: Mem, m: Mem, attr: map<string, string>, site: string, orgId: string, principal: string,
                   now: Time, audit: string)
    requires Kept(m0, m) && AttributionOf(m0) == Some(attr) && site in attr
             && IsDefault(m.tenancy.orgs, orgId, attr[site])
    ensures var i := Ops.AttachSiteToOrg(m.tenancy, site, orgId, principal, now, audit);
            i.Write? ==> Kept(m0, m.(tenancy := i.state))
  {
    var i := Ops.AttachSiteToOrg(m.tenancy, site, orgId, principal, now, audit);
    AttachOnTheWay(m0.tenancy, m.tenancy, AssetSites(m0.assets), attr, site, orgId, principal, now, audit);
    if i.Write? { TenancyReplaced(m0, m, i.state); }
  }

  lemma SitesKept(m0: Mem, attr: map<string, string>, principal: string)
    requires AttributionOf(m0) == Some(attr)
    ensures KeptBySites(Keep(m0), attr, principal)
  {
    forall m: Mem, site, orgId, now, audit |
      Keep(m0)(m) && site in attr && IsDefault(m.tenancy.orgs, orgId, attr[site])
      ensures var i := Ops.AttachSiteToOrg(m.tenancy, site, orgId, principal, now, audit);
              i.Write? ==> Keep(m0)(m.(tenancy := i.state))
    {
      AttachKept(m0, m, attr, site, orgId, principal, now, audit);
    }
  }

  /** Sites are attributed to tenants that exist. */
  lemma AttributedToTenants(v: Tenancy, sites: set<string>)
    requires Attribution(v, sites).Some?
    ensures Attribution(v, sites).value.Values <= v.tenants.Keys
  {}

  lemma PutSubjectKept(b0: map<Key, string>, b: map<Key, string>, attr: map<string, string>, k: Key, subject: string)
    requires SubjectKept(b0, b, attr, subject) && Slugs(attr) && k in b && Rewritable(k.1, b[k], attr)
    ensures SubjectKept(b0, b[Target(k, attr) := CRN_ORIGIN], attr, subject)
  {
    if Harmless(b0, subject, attr) {
      RewriteSameGrant(k.1, b[k], attr);
      TwinAdded(b, k, Target(k, attr), CRN_ORIGIN, subject);
    }
  }

  lemma PutKept(b0: map<Key, string>, b: map<Key, string>, attr: map<string, string>, k: Key)
    requires RowsKept(b0, b, Some(attr)) && Slugs(attr) && k in b && Rewritable(k.1, b[k], attr)
    ensures RowsKept(b0, b[Target(k, attr) := CRN_ORIGIN], Some(attr))
  {
    PutStep(b, k, attr);
    var c := b[Target(k, attr) := CRN_ORIGIN];
    forall subject ensures SubjectKept(b0, c, attr, subject) {
      PutSubjectKept(b0, b, attr, k, subject);
    }
  }

  lemma DeleteSubjectKept(b0: map<Key, string>, b: map<Key, string>, attr: map<string, string>, k: Key, subject: string)
    requires SubjectKept(b0, b, attr, subject) && Slugs(attr) && k in b && Rewritable(k.1, b[k], attr)
    requires Target(k, attr) in b
    ensures SubjectKept(b0, b - {k}, attr, subject)
  {
    if Harmless(b0, subject, attr) {
      RewriteSameGrant(k.1, b[k], attr);
      TargetDiffers(k, b[k], attr);
      TwinRemoved(b, k, Target(k, attr), subject);
    }
  }

  lemma DeleteKept(b0: map<Key, string>, b: map<Key, string>, attr: map<string, string>, k: Key)
    requires RowsKept(b0, b, Some(attr)) && Slugs(attr) && k in b && Rewritable(k.1, b[k], attr)
    requires Target(k, attr) in b && b[Target(k, attr)] == CRN_ORIGIN
    ensures RowsKept(b0, b - {k}, Some(attr))
  {
    DeleteStep(b, k, attr);
    var c := b - {k};
    forall subject ensures SubjectKept(b0, c, attr, subject) {
      DeleteSubjectKept(b0, b, attr, k, subject);
    }
  }

  lemma RowsReplaced(m0: Mem, m: Mem, rows: seq<RoleBinding>)
    requires Kept(m0, m) && StoreRuns.BindingsOk(rows)
    requires RowsKept(Bindings(m0.roleBindings), Bindings(rows), AttributionOf(m0))
    ensures Kept(m0, m.(roleBindings := rows))
  {}

  lemma PutRowsKept(b0: map<Key, string>, rows: seq<RoleBinding>, attr: map<string, string>, k: Key, rb: RoleBinding,
                    now: Time)
    requires RowsKept(b0, Bindings(rows), Some(attr)) && Slugs(attr) && StoreRuns.BindingsOk(rows)
    requires k in Bindings(rows) && Rewritable(k.1, Bindings(rows)[k], attr)
    requires KeyOf(rb) == Target(k, attr) && rb.origin == CRN_ORIGIN
    ensures StoreRuns.BindingsOk(Ops.PutRow(rows, rb, now))
            && RowsKept(b0, Bindings(Ops.PutRow(rows, rb, now)), Some(attr))
  {
    TargetNamed(rows, k, attr);
    PutBindings(rows, rb, now);
    PutKept(b0, Bindings(rows), attr, k);
  }

  lemma DeleteRowsKept(b0: map<Key, string>, rows: seq<RoleBinding>, attr: map<string, string>, i: nat)
    requires RowsKept(b0, Bindings(rows), Some(attr)) && Slugs(attr) && StoreRuns.BindingsOk(rows) && i < |rows|
    requires var b, k := Bindings(rows), KeyOf(rows[i]);
             k in b && Rewritable(k.1, b[k], attr) && Target(k, attr) in b && b[Target(k, attr)] == CRN_ORIGIN
    ensures var rest := rows[..i] + rows[i + 1..];
            StoreRuns.BindingsOk(rest) && RowsKept(b0, Bindings(rest), Some(attr))
  {
    DeleteBindings(rows, i);
    DeleteKept(b0, Bindings(rows), attr, KeyOf(rows[i]));
  }

  lemma PutsKept(m0: Mem, attr: map<string, string>)
    requires AttributionOf(m0) == Some(attr) && Slugs(attr)
    ensures KeptByPut(Keep(m0), attr)
  {
    forall m: Mem, k, rb, now | Keep(m0)(m) && Due(m, k, attr) && KeyOf(rb) == Target(k, attr)
      && rb.origin == CRN_ORIGIN
      ensures Keep(m0)(m.(roleBindings := Ops.PutRow(m.roleBindings, rb, now)))
    {
      PutRowsKept(Bindings(m0.roleBindings), m.roleBindings, attr, k, rb, now);
      RowsReplaced(m0, m, Ops.PutRow(m.roleBindings, rb, now));
    }
  }

  lemma DeletesKept(m0: Mem, attr: map<string, string>)
    requires AttributionOf(m0) == Some(attr) && Slugs(attr)
    ensures KeptByDelete(Keep(m0), attr)
  {
    forall m: Mem, i | Keep(m0)(m) && 0 <= i < |m.roleBindings| && Replaceable(m, KeyOf(m.roleBindings[i]), attr)
      ensures Keep(m0)(m.(roleBindings := m.roleBindings[..i] + m.roleBindings[i + 1..]))
    {
      DeleteRowsKept(Bindings(m0.roleBindings), m.roleBindings, attr, i);
      RowsReplaced(m0, m, m.roleBindings[..i] + m.roleBindings[i + 1..]);
    }
  }

  // ---- Arriving ---------------------------------------------------------------

  lemma AllNamed(u: Tenancy, ids: map<string, string>)
    requires AllDefault(u.orgs, ids) && u.tenants.Keys <= ids.Keys
    ensures NamesOf(u) + Defaults(u.tenants.Keys) == NamesOf(u)
  {
    forall x | x in Defaults(u.tenants.Keys) ensures x in NamesOf(u) {
      var t :| t in u.tenants && x == (t, Ops.DEFAULT_ORG);
      assert IsDefault(u.orgs, ids[t], t);
    }
  }

  lemma AllHome(u: Tenancy, attr: map<string, string>, ids: map<string, string>)
    requires AllDefault(u.orgs, ids) && AllHoused(u.sites, attr, ids)
    ensures HomesOf(u) + DefaultHomes(attr) == HomesOf(u)
  {
    forall s | s in attr ensures s in HomesOf(u) && HomesOf(u)[s] == (attr[s], Ops.DEFAULT_ORG) {
      assert IsDefault(u.orgs, ids[attr[s]], attr[s]);
    }
  }

  lemma ArrivedNamed(v: Tenancy)
    requires NamesOf(v) + Defaults(v.tenants.Keys) == NamesOf(v)
    ensures AllHave(v.orgs, v.tenants.Keys)
  {
    forall t | t in v.tenants ensures HasDefault(v.orgs, t) {
      assert (t, Ops.DEFAULT_ORG) in Defaults(v.tenants.Keys);
      assert (t, Ops.DEFAULT_ORG) in NamesOf(v);
      var k :| k in v.orgs && (v.orgs[k].tenantId, v.orgs[k].name) == (t, Ops.DEFAULT_ORG);
      assert IsDefault(v.orgs, k, t);
    }
  }

  lemma ArrivedHoused(v: Tenancy, attr: map<string, string>, ids: map<string, string>)
    requires AuditReplay.TenancyOk(v) && AllDefault(v.orgs, ids) && attr.Values <= ids.Keys
    requires HomesOf(v) + DefaultHomes(attr) == HomesOf(v)
    ensures AllHoused(v.sites, attr, ids)
  {
    forall s | s in attr ensures attr[s] in ids && Housed(v.sites, s, ids[attr[s]]) {
      assert attr[s] in attr.Values;
      assert s in DefaultHomes(attr);
      assert (HomesOf(v) + DefaultHomes(attr))[s] == (attr[s], Ops.DEFAULT_ORG);
      assert s in HomesOf(v) && IsDefault(v.orgs, v.sites[s].orgId, attr[s]);
      assert IsDefault(v.orgs, ids[attr[s]], attr[s]);
    }
  }

  lemma ArrivedRows(b: map<Key, string>, attr: map<string, string>)
    requires SiteSlugs(attr) && GoalBindings(b, attr) == b
    ensures NoneDue(b, attr)
  {
    forall k | k in b ensures !Rewritable(k.1, b[k], attr) {
      assert k in (b.Keys - OldKeys(b, attr)) + Targets(b, attr);
      if k in Targets(b, attr) {
        CrnNotRewritable(k.1, b[k], attr);
      }
    }
  }

  // ---- The run ------------------------------------------------------------------

  ghost predicate AlreadyHoused(u: Tenancy, attr: map<string, string>) {
    forall ids :: AllDefault(u.orgs, ids) && attr.Values <= ids.Keys ==> AllHoused(u.sites, attr, ids)
  }

  /** Passes 1 and 2. */
  method Backfill(st: Store, attr: map<string, string>, newIds: map<string, string>, principal: string,
                  ghost keep: Mem -> bool, ghost disk: seq<Mem>)
    returns (ids: Option<map<string, string>>)
    requires st.Valid() && Going(keep, disk, st.Contents(), st.saved)
    requires KeptByOrgs(keep, principal) && KeptBySites(keep, attr, principal)
    requires FreshIds(newIds, st.tenants.Keys, st.orgs) && attr.Values <= st.tenants.Keys
    requires forall s :: s in st.siteOrgs ==> ValidSiteSlug(s)
    modifies st`orgs, st`siteOrgs, st`tenantAuds, st`saved, st`refused
    ensures st.Valid() && Going(keep, disk, st.Contents(), st.saved)
    ensures ids.Some? ==>
              && st.tenants.Keys <= ids.value.Keys && AllDefault(st.orgs, ids.value)
              && AllHoused(st.siteOrgs, attr, ids.value)
    ensures old(AllHave(st.orgs, st.tenants.Keys) && AlreadyHoused(st.TenancyView(), attr)) ==>
              ids.Some? && st.saved == old(st.saved)
    ensures st.refused >= old(st.refused) && (ids.Some? <==> SiteSlugs(attr) && st.refused == old(st.refused))
  {
    var listed, linked := st.orgs, st.siteOrgs;
    ghost var m := st.Contents();
    ids := EnsureDefaults(st, newIds, listed, principal, keep, disk);
    if ids.Some? {
      assert st.saved == old(st.saved) ==> st.Contents() == m;
      var ok := AttachSites(st, attr, ids.value, linked, principal, keep, disk);
      if !ok {
        ids := None;
      }
    }
  }

  lemma SlugsOf(sites: map<string, SiteOrg>, attr: map<string, string>, ids: map<string, string>)
    requires TenantSlugs(attr) && AllHoused(sites, attr, ids)
    ensures Slugs(attr) && SiteSlugs(attr)
  {
    forall s | s in attr ensures ValidSiteSlug(s) && ValidTenantSlug(attr[s]) {
      assert Housed(sites, s, ids[attr[s]]);
    }
  }

  ghost predicate TenantSlugs(attr: map<string, string>) { forall s :: s in attr ==> ValidTenantSlug(attr[s]) }

  /** Every write of a run keeps `keep`. */
  ghost predicate Closed(keep: Mem -> bool, attr: map<string, string>, principal: string) {
    && KeptByOrgs(keep, principal) && KeptBySites(keep, attr, principal)
    && (Slugs(attr) ==> KeptByPut(keep, attr) && KeptByDelete(keep, attr))
  }

  /** There is nothing to do. */
  ghost predicate Idle(m: Mem, attr: map<string, string>) {
    && AllHave(m.tenancy.orgs, m.tenancy.tenants.Keys) && AlreadyHoused(m.tenancy, attr)
    && (SiteSlugs(attr) ==> NoneDue(Bindings(m.roleBindings), attr))
  }

  /** Everything is done. */
  ghost predicate Finished(m: Mem, attr: map<string, string>, ids: map<string, string>) {
    && m.tenancy.tenants.Keys <= ids.Keys && AllDefault(m.tenancy.orgs, ids) && AllHoused(m.tenancy.sites, attr, ids)
    && NoneDue(Bindings(m.roleBindings), attr)
  }

  lemma AllFinished(m: Mem, v: Tenancy, rows: seq<RoleBinding>, attr: map<string, string>, ids: map<string, string>)
    requires m.tenancy == v && m.roleBindings == rows && NoneDue(Bindings(rows), attr)
    requires v.tenants.Keys <= ids.Keys && AllDefault(v.orgs, ids) && AllHoused(v.sites, attr, ids)
    ensures Finished(m, attr, ids)
  {}

  method RunPasses(st: Store, attr: map<string, string>, newIds: map<string, string>, principal: string,
                   sink: AuditSink, ghost keep: Mem -> bool, ghost disk: seq<Mem>)
    returns (ok: bool, diffs: seq<Diff>, ids: map<string, string>)
    requires st.Valid() && Going(keep, disk, st.Contents(), st.saved) && Closed(keep, attr, principal)
    requires FreshIds(newIds, st.tenants.Keys, st.orgs) && attr.Values <= st.tenants.Keys && TenantSlugs(attr)
    requires StoreRuns.BindingsOk(st.rbData[..st.rbLen]) && forall s :: s in st.siteOrgs ==> ValidSiteSlug(s)
    modifies st`orgs, st`siteOrgs, st`tenantAuds, st`rbData, st`rbLen, st.rbData, st`saved, st`refused, sink
    ensures st.Valid() && (st.rbData == old(st.rbData) || fresh(st.rbData))
            && Going(keep, disk, st.Contents(), st.saved)
    ensures ok ==> Finished(st.Contents(), attr, ids)
    ensures ok ==> diffs == Diffs(Listing(old(st.rbData[..st.rbLen])), attr)
    ensures old(Idle(st.Contents(), attr)) ==> ok && st.saved == old(st.saved)
    ensures sink.recorded == old(sink.recorded) + diffs
    ensures st.refused >= old(st.refused) && sink.failed >= old(sink.failed)
    ensures ok <==> SiteSlugs(attr) && st.refused == old(st.refused) && sink.failed == old(sink.failed)
  {
    ok, diffs, ids := false, [], map[];
    RecordedMore(sink.recorded, [], []);
    var filled := Backfill(st, attr, newIds, principal, keep, disk);
    if filled.Some? {
      ids := filled.value;
      SlugsOf(st.siteOrgs, attr, ids);
      ghost var v := st.TenancyView();
      ok, diffs := RewriteBindings(st, attr, sink, keep, disk, st.rbData[..st.rbLen]);
      if ok {
        AllFinished(st.Contents(), v, st.rbData[..st.rbLen], attr, ids);
      }
    }
  }

  lemma Attributed(v: Tenancy, sites: set<string>)
    requires Attribution(v, sites).Some? && AuditReplay.TenancyOk(v)
    ensures var attr := Attribution(v, sites).value; attr.Values <= v.tenants.Keys && TenantSlugs(attr)
    ensures forall s :: s in v.sites ==> ValidSiteSlug(s)
  {
    AttributedToTenants(v, sites);
    var attr := Attribution(v, sites).value;
    forall s | s in attr ensures ValidTenantSlug(attr[s]) { assert attr[s] in attr.Values; }
  }

  lemma KeepClosed(m0: Mem, attr: map<string, string>, principal: string)
    requires AttributionOf(m0) == Some(attr)
    ensures Closed(Keep(m0), attr, principal)
  {
    OrgsKept(m0, principal);
    SitesKept(m0, attr, principal);
    if Slugs(attr) {
      PutsKept(m0, attr);
      DeletesKept(m0, attr);
    }
  }

  lemma KeptSelf(m: Mem, disk: seq<Mem>)
    requires AuditReplay.TenancyOk(m.tenancy) && StoreRuns.BindingsOk(m.roleBindings)
    requires |disk| > 0 && disk[|disk| - 1] == m
    ensures Going(Keep(m), disk, m, disk)
  {}

  /** A migrated store needs nothing. */
  lemma ArrivedIdle(m: Mem, attr: map<string, string>)
    requires AuditReplay.TenancyOk(m.tenancy) && AttributionOf(m) == Some(attr)
    ensures Arrived(m) ==> Idle(m, attr)
  {
    if Arrived(m) {
      ArrivedNamed(m.tenancy);
      forall ids | AllDefault(m.tenancy.orgs, ids) && attr.Values <= ids.Keys
        ensures AllHoused(m.tenancy.sites, attr, ids)
      {
        ArrivedHoused(m.tenancy, attr, ids);
      }
      if SiteSlugs(attr) {
        ArrivedRows(Bindings(m.roleBindings), attr);
      }
    }
  }

  lemma Arrives(m0: Mem, m: Mem, attr: map<string, string>, ids: map<string, string>)
    requires Keep(m0)(m) && AttributionOf(m0) == Some(attr) && Finished(m, attr, ids)
    ensures Destination(m0) == Some((PlacesOf(m.tenancy), Bindings(m.roleBindings)))
  {
    AllNamed(m.tenancy, ids);
    AllHome(m.tenancy, attr, ids);
    Reached(Bindings(m.roleBindings), attr);
  }

  lemma NoAttribution(m: Mem)
    ensures Arrived(m) ==> AttributionOf(m).Some?
  {}

  /** Every site has a tenant and a name that can be attached. */
  ghost predicate CanRun(m: Mem) { AttributionOf(m).Some? && SiteSlugs(AttributionOf(m).value) }

  /** The migration. Whatever happens, every state it makes durable has the
      same destination as the state it started from, and gives every subject
      whose legacy scopes survive rewriting the same grants. A run that reports
      success is at the destination; a run started there writes nothing. It
      succeeds exactly if every site can be attached and no save or record fails,
      and what it reports is what was recorded. */
  method MigrateV11(st: Store, newIds: map<string, string>, caller: string, sink: AuditSink)
    returns (ok: bool, diffs: seq<Diff>)
    requires st.Valid() && st.Synced() && AuditReplay.TenancyOk(st.TenancyView())
    requires StoreRuns.BindingsOk(st.rbData[..st.rbLen]) && FreshIds(newIds, st.tenants.Keys, st.orgs)
    modifies st`orgs, st`siteOrgs, st`tenantAuds, st`rbData, st`rbLen, st.rbData, st`saved, st`refused, sink
    ensures st.Valid() && (st.rbData == old(st.rbData) || fresh(st.rbData))
    ensures Going(Keep(old(st.Contents())), old(st.saved), st.Contents(), st.saved)
    ensures ok ==>
              Destination(old(st.Contents())) == Some((PlacesOf(st.TenancyView()), Bindings(st.rbData[..st.rbLen])))
    ensures ok ==> AttributionOf(old(st.Contents())).Some? &&
                   diffs == Diffs(Listing(old(st.rbData[..st.rbLen])), AttributionOf(old(st.Contents())).value)
    ensures AttributionOf(old(st.Contents())).None? ==> !ok && st.saved == old(st.saved)
    ensures Arrived(old(st.Contents())) ==> ok && st.saved == old(st.saved)
    ensures sink.recorded == old(sink.recorded) + diffs
    ensures ok <==> && CanRun(old(st.Contents()))
                    && st.refused == old(st.refused) && sink.failed == old(sink.failed)
  {
    var principal := if caller == "" then "system:migrate-v11" else caller;
    ghost var m0, disk := st.Contents(), st.saved;
    ghost var keep := Keep(m0);
    KeptSelf(m0, disk);
    RecordedMore(sink.recorded, [], []);
    ok, diffs := false, [];
    var attr := BuildSiteTenantMap(Tenancy(st.tenants, st.orgs, st.siteOrgs, st.tenantAuds), st.assets);
    NoAttribution(m0);
    if attr.Some? {
      Attributed(m0.tenancy, AssetSites(m0.assets));
      KeepClosed(m0, attr.value, principal);
      ArrivedIdle(m0, attr.value);
      var ids;
      ok, diffs, ids := RunPasses(st, attr.value, newIds, principal, sink, keep, disk);
      if ok {
        Arrives(m0, st.Contents(), attr.value, ids);
      }
    }
  }

  // ---- Runs cut short and started again ---------------------------------------

  lemma SameDestination(m0: Mem, m: Mem)
    requires Kept(m0, m)
    ensures Destination(m) == Destination(m0)
  {}

  lemma RowsKeptTransitive(b0: map<Key, string>, b1: map<Key, string>, b2: map<Key, string>,
                           attr: Option<map<string, string>>)
    requires RowsKept(b0, b1, attr) && RowsKept(b1, b2, attr)
    ensures RowsKept(b0, b2, attr)
  {
    if attr.Some? {
      forall subject ensures SubjectKept(b0, b2, attr.value, subject) {
        assert SubjectKept(b0, b1, attr.value, subject) && SubjectKept(b1, b2, attr.value, subject);
      }
    }
  }

  lemma KeptTransitive(m0: Mem, m1: Mem, m2: Mem)
    requires Kept(m0, m1) && Kept(m1, m2)
    ensures Kept(m0, m2)
  {
    OnTheWayTransitive(m0.tenancy, m1.tenancy, m2.tenancy, AssetSites(m0.assets));
    RowsKeptTransitive(Bindings(m0.roleBindings), Bindings(m1.roleBindings), Bindings(m2.roleBindings),
      AttributionOf(m0));
  }

  // ---- Reading the file back ----------------------------------------------------

  lemma {:induction false} SortedBindings(rows: seq<RoleBinding>)
    requires StoreRuns.BindingsOk(rows)
    ensures StoreRuns.BindingsOk(Listing(rows)) && Bindings(Listing(rows)) == Bindings(rows)
  {
    var sorted := Listing(rows);
    Disk.BindingStrictWeak();
    Ordering.SortCorrect(rows, Disk.BindingLess);
    forall r ensures r in sorted <==> r in rows {
      assert r in sorted <==> r in multiset(sorted);
      assert r in rows <==> r in multiset(rows);
    }
    SortDistinct(rows);
    SameRowsOk(rows, sorted);
    BindingsHold(rows);
    BindingsHold(sorted);
    SameRowsHeld(rows, sorted, Bindings(rows));
    HoldsOne(sorted, Bindings(sorted), Bindings(rows));
  }

  lemma SameRowsOk(rows: seq<RoleBinding>, sorted: seq<RoleBinding>)
    requires StoreRuns.BindingsOk(rows) && DistinctKeys(sorted) && forall r :: r in sorted <==> r in rows
    ensures StoreRuns.BindingsOk(sorted)
  {
    forall i | 0 <= i < |sorted| ensures sorted[i].subject != "" && sorted[i].scope != "" {
      assert sorted[i] in sorted;
    }
    forall i, j | 0 <= i < j < |sorted|
      ensures sorted[i].subject != sorted[j].subject || sorted[i].scope != sorted[j].scope
    {
      assert KeyOf(sorted[i]) != KeyOf(sorted[j]);
    }
  }

  lemma SameRowsHeld(rows: seq<RoleBinding>, sorted: seq<RoleBinding>, b: map<Key, string>)
    requires Holds(rows, b) && forall r :: r in sorted <==> r in rows
    ensures Holds(sorted, b)
  {
    forall i | 0 <= i < |sorted| ensures KeyOf(sorted[i]) in b && b[KeyOf(sorted[i])] == sorted[i].origin {
      assert sorted[i] in rows;
    }
    forall k | k in b ensures exists i :: 0 <= i < |sorted| && KeyOf(sorted[i]) == k {
      var i :| 0 <= i < |rows| && KeyOf(rows[i]) == k;
      assert rows[i] in sorted;
    }
  }

  /** What a restart finds: the file the state was saved to, read back. */
  ghost function Reloaded(m: Mem): Mem { Disk.Decode(Disk.Encode(m)) }

  lemma KeptReloaded(m0: Mem, m: Mem)
    requires Kept(m0, m) && Disk.KeysOk(m0)
    ensures Disk.KeysOk(m) && Kept(m0, Reloaded(m))
  {
    KeysKept(m0, m);
    Disk.LoadAfterSave(m);
    SortedBindings(m.roleBindings);
    RowsReplaced(m0, m, Listing(m.roleBindings));
  }

  lemma KeysKept(m0: Mem, m: Mem)
    requires Kept(m0, m) && Disk.KeysOk(m0)
    ensures Disk.KeysOk(m)
  {}

  /** A chain of runs: each starts from the file the one before left behind and
      ends, complete or cut short, in some durable state. */
  ghost predicate Restarts(states: seq<Mem>) {
    forall i :: 0 <= i < |states| - 1 ==> Kept(Reloaded(states[i]), states[i + 1])
  }

  ghost predicate Well(m: Mem) {
    Disk.KeysOk(m) && AuditReplay.TenancyOk(m.tenancy) && StoreRuns.BindingsOk(m.roleBindings)
  }

  lemma KeptAtOnce(m: Mem)
    requires Well(m)
    ensures Kept(m, m) && Kept(m, Reloaded(m)) && Well(Reloaded(m))
  {
    KeptReloaded(m, m);
    KeysKept(m, Reloaded(m));
  }

  /** Kept in the state and in its file. */
  ghost predicate KeptBoth(m0: Mem, m: Mem) { Kept(m0, m) && Kept(m0, Reloaded(m)) && Well(m) }

  lemma KeptNext(m0: Mem, a: Mem, b: Mem)
    requires Well(m0) && KeptBoth(m0, a) && Kept(Reloaded(a), b)
    ensures KeptBoth(m0, b)
  {
    KeptTransitive(m0, Reloaded(a), b);
    KeptReloaded(m0, b);
  }

  /** Everything a migration keeps is kept over any number of restarts. */
  lemma {:induction false} RestartsKeep(states: seq<Mem>, n: nat)
    requires n < |states| && Restarts(states) && Well(states[0])
    ensures KeptBoth(states[0], states[n])
  {
    if n == 0 {
      KeptAtOnce(states[0]);
    } else {
      RestartsKeep(states, n - 1);
      RestartAt(states, n);
      KeptNext(states[0], states[n - 1], states[n]);
    }
  }

  lemma RestartAt(states: seq<Mem>, n: nat)
    requires Restarts(states) && 0 < n < |states|
    ensures Kept(Reloaded(states[n - 1]), states[n])
  {
    assert Kept(Reloaded(states[n - 1]), states[n - 1 + 1]);
  }

  /** However often the migration is cut short, at whatever durable state, and
      started again from the file: the run that completes ends where an
      uninterrupted run would have, and the next one has nothing to do. */
  lemma RestartSafe(states: seq<Mem>)
    requires |states| > 1 && Restarts(states) && Well(states[0])
    requires var last := states[|states| - 1];
             Destination(Reloaded(states[|states| - 2])) == Some((PlacesOf(last.tenancy), Bindings(last.roleBindings)))
    ensures var last := states[|states| - 1];
            && Destination(states[0]) == Some((PlacesOf(last.tenancy), Bindings(last.roleBindings)))
            && Arrived(last) && Arrived(Reloaded(last))
  {
    var n := |states| - 1;
    RestartsKeep(states, n - 1);
    RestartsKeep(states, n);
    SameDestination(states[0], Reloaded(states[n - 1]));
    SameDestination(states[0], states[n]);
    SameDestination(states[0], Reloaded(states[n]));
    Disk.LoadAfterSave(states[n]);
    SortedBindings(states[n].roleBindings);
  }

  // ---- Decisions ------------------------------------------------------------------

  ghost predicate SteadyIn(m: Mem, seed: Principal) {
    AttributionOf(m).Some? ==> Steady(Bindings(m.roleBindings), AttributionOf(m).value, seed)
  }

  lemma SameRowsDecide(was: seq<RoleBinding>, rows: seq<RoleBinding>, seed: Principal, action: Action, path: string)
    requires StoreRuns.BindingsOk(was) && StoreRuns.BindingsOk(rows) && Bindings(was) == Bindings(rows)
    ensures Allowed(Loaded(seed, rows), action, path) == Allowed(Loaded(seed, was), action, path)
  {
    GrantsDecide(was, rows, seed, action, path);
  }

  /** At no durable state of any run is a steady seed allowed more or less than
      before. */
  lemma DecisionsKept(m0: Mem, m: Mem, seed: Principal, action: Action, path: string)
    requires Kept(m0, m) && StoreRuns.BindingsOk(m0.roleBindings) && SteadyIn(m0, seed)
    ensures Allowed(Loaded(seed, m.roleBindings), action, path) == Allowed(Loaded(seed, m0.roleBindings), action, path)
  {
    var attr := AttributionOf(m0);
    if attr.None? || !Slugs(attr.value) {
      SameRowsDecide(m0.roleBindings, m.roleBindings, seed, action, path);
    } else {
      assert SubjectKept(Bindings(m0.roleBindings), Bindings(m.roleBindings), attr.value, seed.subject);
      SteadySame(m0.roleBindings, m.roleBindings, attr.value, seed, action, path);
    }
  }

  ghost predicate SameDecisions(seed: Principal, was: seq<RoleBinding>, rows: seq<RoleBinding>) {
    forall action, path :: Allowed(Loaded(seed, rows), action, path) == Allowed(Loaded(seed, was), action, path)
  }

  lemma SteadyKeeps(m0: Mem, m: Mem, seed: Principal)
    requires Kept(m0, m) && StoreRuns.BindingsOk(m0.roleBindings) && SteadyIn(m0, seed)
    ensures SameDecisions(seed, m0.roleBindings, m.roleBindings)
  {
    forall action, path
      ensures Allowed(Loaded(seed, m.roleBindings), action, path) ==
              Allowed(Loaded(seed, m0.roleBindings), action, path)
    {
      DecisionsKept(m0, m, seed, action, path);
    }
  }

  lemma UnsteadyChanges(was: seq<RoleBinding>, rows: seq<RoleBinding>, attr: map<string, string>, seed: Principal)
    requires StoreRuns.BindingsOk(was) && StoreRuns.BindingsOk(rows) && !Steady(Bindings(was), attr, seed)
    requires Bindings(rows) == GoalBindings(Bindings(was), attr)
    ensures !SameDecisions(seed, was, rows)
  {
    var path := UnsteadyReads(was, rows, attr, seed);
  }

  /** After a completed run every decision for a seed is what it was exactly if
      the seed is steady. */
  lemma DecisionsExact(m0: Mem, m: Mem, seed: Principal)
    requires Kept(m0, m) && StoreRuns.BindingsOk(m0.roleBindings)
    requires Destination(m0) == Some((PlacesOf(m.tenancy), Bindings(m.roleBindings)))
    ensures SameDecisions(seed, m0.roleBindings, m.roleBindings) <==> SteadyIn(m0, seed)
  {
    if SteadyIn(m0, seed) {
      SteadyKeeps(m0, m, seed);
    } else {
      UnsteadyChanges(m0.roleBindings, m.roleBindings, AttributionOf(m0).value, seed);
    }
  }

  /** So over any number of restarts. */
  lemma DecisionsOverRestarts(states: seq<Mem>, n: nat, seed: Principal, action: Action, path: string)
    requires n < |states| && Restarts(states) && Well(states[0]) && SteadyIn(states[0], seed)
    ensures var rows := states[0].roleBindings;
            && Allowed(Loaded(seed, states[n].roleBindings), action, path) == Allowed(Loaded(seed, rows), action, path)
            && Allowed(Loaded(seed, Reloaded(states[n]).roleBindings), action, path) ==
               Allowed(Loaded(seed, rows), action, path)
  {
    RestartsKeep(states, n);
    DecisionsKept(states[0], states[n], seed, action, path);
    DecisionsKept(states[0], Reloaded(states[n]), seed, action, path);
  }
}
