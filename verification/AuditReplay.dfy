/** The tenant audit log determines the tenants, orgs and sites: replaying it
    row by row, parsing each row's text, rebuilds them after every run of the
    eight tenant, org and site mutators. */
module AuditReplay {
  import opened Text
  import opened Names
  import opened Records
  import Ops

  // ---- Well-formed tenancies ----------------------------------------------

  ghost predicate TenantsOk(v: Tenancy) {
    forall id :: id in v.tenants ==>
      v.tenants[id].id == id && ValidTenantSlug(id) && Ops.TierRank(v.tenants[id].tier).Some?
  }

  /** Every org has a valid id and name and belongs to an existing tenant. */
  ghost predicate OrgsOk(v: Tenancy) {
    forall o :: o in v.orgs ==>
      && v.orgs[o].id == o && ValidId(o) && ValidTenantSlug(v.orgs[o].name)
      && v.orgs[o].tenantId in v.tenants
  }

  ghost predicate NamesUnique(orgs: map<string, Org>) {
    forall a, b :: a in orgs && b in orgs && orgs[a].tenantId == orgs[b].tenantId && orgs[a].name == orgs[b].name ==>
      a == b
  }

  /** Every mapped site has a valid slug and an existing org. */
  ghost predicate SitesOk(v: Tenancy) {
    forall s :: s in v.sites ==> v.sites[s].site == s && ValidSiteSlug(s) && v.sites[s].orgId in v.orgs
  }

  ghost predicate TenancyOk(v: Tenancy) {
    TenantsOk(v) && OrgsOk(v) && NamesUnique(v.orgs) && SitesOk(v)
  }

  // ---- Replay -------------------------------------------------------------

  /** What the log should determine: each tenant's display name and tier, each
      org's tenant and name, each site's org. */
  datatype View = View(
    tenants: map<string, (string, string)>, orgs: map<string, (string, string)>, sites: map<string, string>)

  function TenantView(tenants: map<string, Tenant>): map<string, (string, string)> {
    map id | id in tenants :: (tenants[id].displayName, tenants[id].tier)
  }

  function OrgView(orgs: map<string, Org>): map<string, (string, string)> {
    map o | o in orgs :: (orgs[o].tenantId, orgs[o].name)
  }

  function SiteView(sites: map<string, SiteOrg>): map<string, string> {
    map s | s in sites :: sites[s].orgId
  }

  function ViewOf(v: Tenancy): View { View(TenantView(v.tenants), OrgView(v.orgs), SiteView(v.sites)) }

  const EMPTY := View(map[], map[], map[])

  /** The text before and after the first `c`. */
  function Cut(s: string, c: char): (string, string) {
    if s == "" then ("", "")
    else if s[0] == c then ("", s[1..])
    else
      var (a, b) := Cut(s[1..], c);
      ([s[0]] + a, b)
  }

  const ARROW_CHAR := '\U{2192}'

  function Renamed(orgs: map<string, (string, string)>, from: (string, string), to: (string, string)):
    map<string, (string, string)>
  {
    map o | o in orgs :: if orgs[o] == from then to else orgs[o]
  }

  function Removed(orgs: map<string, (string, string)>, gone: (string, string)): map<string, (string, string)> {
    map o | o in orgs && orgs[o] != gone :: orgs[o]
  }

  function Retiered(tenants: map<string, (string, string)>, id: string, detail: string): map<string, (string, string)> {
    if HasSuffix(detail, " REFUSED") || id !in tenants then tenants
    else tenants[id := (tenants[id].0, Cut(detail, ARROW_CHAR).1)]
  }

  function Resited(sites: map<string, string>, detail: string): map<string, string> {
    var (left, right) := Cut(detail, ARROW_CHAR);
    var site := Cut(left, ':').0;
    if right == "" then sites - {site} else sites[site := right]
  }

  /** The view after one row, read from its text alone. */
  function Apply(w: View, row: TenantAudit): View {
    match row.op
    case TenantCreated => w.(tenants := w.tenants[row.tenantId := (row.detail, "label")])
    case OrgCreated =>
      var (id, name) := Cut(row.detail, ':');
      w.(orgs := w.orgs[id := (row.tenantId, name)])
    case OrgRenamed =>
      var (from, to) := Cut(row.detail, ARROW_CHAR);
      w.(orgs := Renamed(w.orgs, (row.tenantId, from), (row.tenantId, to)))
    case OrgDeleted => w.(orgs := Removed(w.orgs, (row.tenantId, row.detail)))
    case TierChanged => w.(tenants := Retiered(w.tenants, row.tenantId, row.detail))
    case SiteReattached => w.(sites := Resited(w.sites, row.detail))
    case TenantStatus => if row.detail == "deleted" then w.(tenants := w.tenants - {row.tenantId}) else w
  }

  function Replay(log: seq<TenantAudit>): View {
    if log == [] then EMPTY else Apply(Replay(log[..|log| - 1]), log[|log| - 1])
  }

  lemma ReplaySnoc(log: seq<TenantAudit>, row: TenantAudit)
    ensures Replay(log + [row]) == Apply(Replay(log), row)
  {
    assert (log + [row])[..|log|] == log;
  }

  lemma {:induction false} CutAt(a: string, c: char, b: string)
    requires c !in a
    ensures Cut(a + [c] + b, c) == (a, b)
  {
    var s := a + [c] + b;
    if a != "" {
      CutAt(a[1..], c, b);
      assert s[1..] == a[1..] + [c] + b && a == [a[0]] + a[1..];
    } else {
      assert s[1..] == b;
    }
  }

  lemma {:induction false} CutNone(a: string, c: char)
    requires c !in a
    ensures Cut(a, c) == (a, "")
  {
    if a != "" {
      CutNone(a[1..], c);
      assert a == [a[0]] + a[1..];
    }
  }

  lemma SlugPlain(s: string, c: char)
    requires ValidTenantSlug(s) && !SlugChar(c)
    ensures c !in s
  {
    assert s == [s[0]] + s[1..];
  }

  lemma SitePlain(s: string, c: char)
    requires ValidSiteSlug(s) && !IsAlnum(c)
    ensures c !in s
  {
    assert s == s[..|s| - 2] + s[|s| - 2..];
  }

  lemma IdPlain(s: string, c: char)
    requires ValidId(s) && !IdChar(c)
    ensures c !in s
  {}

  // ---- One mutator at a time ----------------------------------------------

  ghost predicate Good(v: Tenancy) {
    TenancyOk(v) && Replay(v.auds) == ViewOf(v)
  }

  /** A well-formed tenancy whose log grew by one row that, applied to the old
      view, gives the new one, is again good. */
  lemma GoodStep(v: Tenancy, u: Tenancy, row: TenantAudit)
    requires Good(v) && TenancyOk(u) && u.auds == v.auds + [row] && Apply(ViewOf(v), row) == ViewOf(u)
    ensures Good(u)
  {
    ReplaySnoc(v.auds, row);
  }

  lemma OrgCreateRow(v: Tenancy, o: Org, row: TenantAudit)
    requires ValidId(o.id) && o.id !in v.orgs && row.op == OrgCreated && row.tenantId == o.tenantId
    requires row.detail == o.id + ":" + o.name
    ensures Apply(ViewOf(v), row) == ViewOf(v.(orgs := v.orgs[o.id := o]))
  {
    IdPlain(o.id, ':');
    CutAt(o.id, ':', o.name);
    assert row.detail == o.id + [':'] + o.name;
    assert OrgView(v.orgs)[o.id := (o.tenantId, o.name)] == OrgView(v.orgs[o.id := o]);
  }

  lemma NewOrgOk(v: Tenancy, o: Org)
    requires TenancyOk(v) && o.id !in v.orgs && ValidId(o.id) && ValidTenantSlug(o.name) && o.tenantId in v.tenants
    requires !Ops.NameTaken(v.orgs, o.tenantId, o.name, None)
    ensures TenancyOk(v.(orgs := v.orgs[o.id := o]))
  {}

  lemma CreateOrgGood(v: Tenancy, tenantId: string, name: string, principal: string, now: Time, orgId: string,
                      audit: string)
    requires Good(v) && ValidId(orgId) && orgId !in v.orgs
    ensures var i := Ops.CreateOrg(v, tenantId, name, principal, now, orgId, audit); i.Write? ==> Good(i.state)
  {
    var i := Ops.CreateOrg(v, tenantId, name, principal, now, orgId, audit);
    if i.Write? {
      var o := i.result.value;
      var row := i.state.auds[|v.auds|];
      NewOrgOk(v, o);
      OrgCreateRow(v, o, row);
      assert i.state == v.(orgs := v.orgs[o.id := o], auds := v.auds + [row]);
      GoodStep(v, i.state, row);
    }
  }

  lemma NewTenantOk(v: Tenancy, t: Tenant)
    requires TenancyOk(v) && t.id !in v.tenants && ValidTenantSlug(t.id) && t.tier == "label"
    ensures TenancyOk(v.(tenants := v.tenants[t.id := t]))
    ensures forall name :: !Ops.NameTaken(v.orgs, t.id, name, None)
  {}

  lemma TenantCreateRow(v: Tenancy, t: Tenant, row: TenantAudit)
    requires t.tier == "label" && row.op == TenantCreated && row.tenantId == t.id && row.detail == t.displayName
    ensures Apply(ViewOf(v), row) == ViewOf(v.(tenants := v.tenants[t.id := t]))
  {
    assert TenantView(v.tenants)[t.id := (t.displayName, t.tier)] == TenantView(v.tenants[t.id := t]);
  }

  lemma InsertTenantGood(v: Tenancy, t: Tenant, o: Org, row1: TenantAudit, row2: TenantAudit)
    requires Good(v) && t.id !in v.tenants && ValidTenantSlug(t.id) && t.tier == "label"
    requires row1.op == TenantCreated && row1.tenantId == t.id && row1.detail == t.displayName
    requires ValidId(o.id) && o.id !in v.orgs && o.tenantId == t.id && ValidTenantSlug(o.name)
    requires row2.op == OrgCreated && row2.tenantId == t.id && row2.detail == o.id + ":" + o.name
    ensures Good(Tenancy(v.tenants[t.id := t], v.orgs[o.id := o], v.sites, v.auds + [row1] + [row2]))
  {
    var mid := v.(tenants := v.tenants[t.id := t], auds := v.auds + [row1]);
    NewTenantOk(v, t);
    TenantCreateRow(v, t, row1);
    GoodStep(v, mid, row1);
    NewOrgOk(mid, o);
    OrgCreateRow(mid, o, row2);
    GoodStep(mid, mid.(orgs := mid.orgs[o.id := o], auds := mid.auds + [row2]), row2);
  }

  lemma CreateTenantGood(v: Tenancy, rawId: string, rawName: string, principal: string, now: Time, orgId: string,
                         audit1: string, audit2: string)
    requires Good(v) && ValidId(orgId) && orgId !in v.orgs
    ensures var i := Ops.CreateTenant(v, rawId, rawName, principal, now, orgId, audit1, audit2);
            i.Write? ==> Good(i.state)
  {
    var i := Ops.CreateTenant(v, rawId, rawName, principal, now, orgId, audit1, audit2);
    if i.Write? {
      var (t, o) := i.result.value;
      var row1, row2 := i.state.auds[|v.auds|], i.state.auds[|v.auds| + 1];
      assert i.state.auds == v.auds + [row1] + [row2];
      Ops.DefaultIsSlug();
      InsertTenantGood(v, t, o, row1, row2);
    }
  }

  lemma RenamedOk(v: Tenancy, id: string, name: string)
    requires TenancyOk(v) && id in v.orgs && ValidTenantSlug(name)
    requires !Ops.NameTaken(v.orgs, v.orgs[id].tenantId, name, Some(id))
    ensures TenancyOk(v.(orgs := v.orgs[id := v.orgs[id].(name := name)]))
  {}

  lemma RenamedView(orgs: map<string, Org>, id: string, name: string)
    requires NamesUnique(orgs) && id in orgs
    ensures var tid := orgs[id].tenantId;
            Renamed(OrgView(orgs), (tid, orgs[id].name), (tid, name)) == OrgView(orgs[id := orgs[id].(name := name)])
  {}

  lemma RenameRow(v: Tenancy, id: string, name: string, row: TenantAudit)
    requires TenancyOk(v) && id in v.orgs && row.op == OrgRenamed && row.tenantId == v.orgs[id].tenantId
    requires row.detail == v.orgs[id].name + Ops.ARROW + name
    ensures Apply(ViewOf(v), row) == ViewOf(v.(orgs := v.orgs[id := v.orgs[id].(name := name)]))
  {
    var prev := v.orgs[id];
    SlugPlain(prev.name, ARROW_CHAR);
    CutAt(prev.name, ARROW_CHAR, name);
    assert row.detail == prev.name + [ARROW_CHAR] + name;
    RenamedView(v.orgs, id, name);
  }

  lemma RenameOrgGood(v: Tenancy, id: string, newName: string, principal: string, now: Time, audit: string)
    requires Good(v)
    ensures var i := Ops.RenameOrg(v, id, newName, principal, now, audit); i.Write? ==> Good(i.state)
  {
    var i := Ops.RenameOrg(v, id, newName, principal, now, audit);
    if i.Write? {
      var row := i.state.auds[|v.auds|];
      RenamedOk(v, id, newName);
      RenameRow(v, id, newName, row);
      assert i.state == v.(orgs := v.orgs[id := v.orgs[id].(name := newName)], auds := v.auds + [row]);
      GoodStep(v, i.state, row);
    }
  }

  lemma DeletedOk(v: Tenancy, id: string)
    requires TenancyOk(v) && !Ops.OwnsSites(v.sites, id)
    ensures TenancyOk(v.(orgs := v.orgs - {id}))
  {}

  lemma RemovedView(orgs: map<string, Org>, id: string)
    requires NamesUnique(orgs) && id in orgs
    ensures Removed(OrgView(orgs), (orgs[id].tenantId, orgs[id].name)) == OrgView(orgs - {id})
  {}

  lemma DeleteOrgGood(v: Tenancy, id: string, principal: string, now: Time, audit: string)
    requires Good(v)
    ensures var i := Ops.DeleteOrg(v, id, principal, now, audit); i.Write? ==> Good(i.state)
  {
    var i := Ops.DeleteOrg(v, id, principal, now, audit);
    if i.Write? {
      var row := i.state.auds[|v.auds|];
      DeletedOk(v, id);
      RemovedView(v.orgs, id);
      assert i.state == v.(orgs := v.orgs - {id}, auds := v.auds + [row]);
      GoodStep(v, i.state, row);
    }
  }

  /** An upgrade's audit text is not a refusal, and a refusal's is. */
  lemma TierRow(cur: string, target: string)
    requires Ops.TierRank(cur).Some? && Ops.TierRank(target).Some?
    ensures Cut(cur + Ops.ARROW + target, ARROW_CHAR).1 == target
    ensures !HasSuffix(cur + Ops.ARROW + target, " REFUSED")
    ensures HasSuffix(cur + Ops.ARROW + target + " REFUSED", " REFUSED")
  {
    CutAt(cur, ARROW_CHAR, target);
    assert cur + Ops.ARROW + target == cur + [ARROW_CHAR] + target;
    var s := cur + Ops.ARROW + target;
    assert s[|s| - 1] == target[|target| - 1];
    if HasSuffix(s, " REFUSED") {
      assert " REFUSED"[7] == s[|s| - 8..][7];
    }
    var t := s + " REFUSED";
    assert t[|t| - 8..] == " REFUSED";
  }

  lemma RetierOk(v: Tenancy, id: string, tier: string, now: Time)
    requires TenancyOk(v) && id in v.tenants && Ops.TierRank(tier).Some?
    ensures TenancyOk(v.(tenants := v.tenants[id := v.tenants[id].(tier := tier, updatedAt := now)]))
  {}

  lemma RetierRow(v: Tenancy, id: string, tier: string, now: Time, row: TenantAudit)
    requires TenancyOk(v) && id in v.tenants && Ops.TierRank(tier).Some?
    requires row.op == TierChanged && row.tenantId == id && row.detail == v.tenants[id].tier + Ops.ARROW + tier
    ensures Apply(ViewOf(v), row) ==
            ViewOf(v.(tenants := v.tenants[id := v.tenants[id].(tier := tier, updatedAt := now)]))
  {
    TierRow(v.tenants[id].tier, tier);
    var t := v.tenants[id].(tier := tier, updatedAt := now);
    assert TenantView(v.tenants)[id := (t.displayName, tier)] == TenantView(v.tenants[id := t]);
  }

  lemma UpdateTierGood(v: Tenancy, id: string, target: string, principal: string, now: Time, audit: string)
    requires Good(v)
    ensures var i := Ops.UpdateTenantTier(v, id, target, principal, now, audit); i.Write? ==> Good(i.state)
  {
    var i := Ops.UpdateTenantTier(v, id, target, principal, now, audit);
    if i.Write? {
      var row := i.state.auds[|v.auds|];
      if i.result.Ok? {
        RetierOk(v, id, target, now);
        RetierRow(v, id, target, now, row);
        assert i.state == v.(tenants := v.tenants[id := v.tenants[id].(tier := target, updatedAt := now)],
                             auds := v.auds + [row]);
      } else {
        TierRow(v.tenants[id].tier, target);
      }
      GoodStep(v, i.state, row);
    }
  }

  /** All three forms of the site row name the site and the new org. */
  lemma SiteRow(site: string, from: string, to: string)
    requires ValidSiteSlug(site) && ValidId(from)
    ensures Cut(site + ": " + from + Ops.ARROW + to, ARROW_CHAR) == (site + ": " + from, to)
    ensures Cut(site + ": " + from, ':').0 == site
    ensures Cut(site + Ops.ARROW + to, ARROW_CHAR) == (site, to)
    ensures Cut(site, ':').0 == site
  {
    SitePlain(site, ':');
    SitePlain(site, ARROW_CHAR);
    IdPlain(from, ARROW_CHAR);
    CutAt(site + ": " + from, ARROW_CHAR, to);
    CutAt(site, ARROW_CHAR, to);
    CutAt(site, ':', " " + from);
    CutNone(site, ':');
    assert site + ": " + from == site + [':'] + (" " + from);
    assert site + ": " + from + Ops.ARROW + to == (site + ": " + from) + [ARROW_CHAR] + to;
    assert site + Ops.ARROW + to == site + [ARROW_CHAR] + to;
  }

  /** Both forms of an attachment row, and the detachment row (an empty `to`). */
  lemma ResitedBy(w: map<string, string>, site: string, from: string, to: string)
    requires ValidSiteSlug(site) && ValidId(from)
    ensures var next := if to == "" then w - {site} else w[site := to];
            Resited(w, site + ": " + from + Ops.ARROW + to) == next && Resited(w, site + Ops.ARROW + to) == next
  {
    SiteRow(site, from, to);
  }

  lemma ResiteOk(v: Tenancy, so: SiteOrg)
    requires TenancyOk(v) && ValidSiteSlug(so.site) && so.orgId in v.orgs
    ensures TenancyOk(v.(sites := v.sites[so.site := so]))
  {}

  lemma ResiteRow(v: Tenancy, so: SiteOrg, from: string, row: TenantAudit)
    requires ValidSiteSlug(so.site) && ValidId(from) && so.orgId != "" && row.op == SiteReattached
    requires row.detail == so.site + ": " + from + Ops.ARROW + so.orgId || row.detail == so.site + Ops.ARROW + so.orgId
    ensures Apply(ViewOf(v), row) == ViewOf(v.(sites := v.sites[so.site := so]))
  {
    ResitedBy(SiteView(v.sites), so.site, from, so.orgId);
    assert SiteView(v.sites)[so.site := so.orgId] == SiteView(v.sites[so.site := so]);
  }

  lemma AttachGood(v: Tenancy, site: string, orgId: string, principal: string, now: Time, audit: string)
    requires Good(v)
    ensures var i := Ops.AttachSiteToOrg(v, site, orgId, principal, now, audit); i.Write? ==> Good(i.state)
  {
    var i := Ops.AttachSiteToOrg(v, site, orgId, principal, now, audit);
    if i.Write? {
      var row, so := i.state.auds[|v.auds|], i.state.sites[site];
      ResiteOk(v, so);
      ResiteRow(v, so, if site in v.sites then v.sites[site].orgId else orgId, row);
      assert i.state == v.(sites := v.sites[site := so], auds := v.auds + [row]);
      GoodStep(v, i.state, row);
    }
  }

  lemma UnsiteRow(v: Tenancy, site: string, row: TenantAudit)
    requires TenancyOk(v) && site in v.sites && row.op == SiteReattached
    requires row.detail == site + ": " + v.sites[site].orgId + Ops.ARROW
    ensures Apply(ViewOf(v), row) == ViewOf(v.(sites := v.sites - {site}))
  {
    ResitedBy(SiteView(v.sites), site, v.sites[site].orgId, "");
    assert row.detail == row.detail + "";
    assert SiteView(v.sites) - {site} == SiteView(v.sites - {site});
  }

  lemma DetachGood(v: Tenancy, site: string, principal: string, now: Time, audit: string)
    requires Good(v)
    ensures var i := Ops.DetachSiteFromOrg(v, site, principal, now, audit); i.Write? ==> Good(i.state)
  {
    var i := Ops.DetachSiteFromOrg(v, site, principal, now, audit);
    if i.Write? {
      assert ValidTenantSlug(v.orgs[v.sites[site].orgId].tenantId);
      var row := i.state.auds[|v.auds|];
      UnsiteRow(v, site, row);
      assert i.state == v.(sites := v.sites - {site}, auds := v.auds + [row]);
      GoodStep(v, i.state, row);
    }
  }

  lemma DeleteTenantGood(v: Tenancy, id: string, principal: string, now: Time, audit: string)
    requires Good(v)
    ensures var i := Ops.DeleteTenant(v, id, principal, now, audit); i.Write? ==> Good(i.state)
  {
    var i := Ops.DeleteTenant(v, id, principal, now, audit);
    if i.Write? {
      var row := i.state.auds[|v.auds|];
      assert TenantView(v.tenants) - {id} == TenantView(v.tenants - {id});
      GoodStep(v, i.state, row);
    }
  }

  // ---- Whole runs ---------------------------------------------------------

  datatype Call =
    | CreateTenant(rawId: string, rawName: string, principal: string, now: Time, orgId: string, audit: string,
      audit2: string)
    | CreateOrg(tenantId: string, name: string, principal: string, now: Time, orgId: string, audit: string)
    | RenameOrg(id: string, newName: string, principal: string, now: Time, audit: string)
    | DeleteOrg(id: string, principal: string, now: Time, audit: string)
    | UpdateTier(id: string, target: string, principal: string, now: Time, audit: string)
    | Attach(site: string, orgId: string, principal: string, now: Time, audit: string)
    | Detach(site: string, principal: string, now: Time, audit: string)
    | DeleteTenant(id: string, principal: string, now: Time, audit: string)

  /** The state after a call whose save succeeds or not. */
  function Commit<S, T>(s: S, i: Intent<S, T>, saved: bool): S {
    if i.Write? && saved then i.state else s
  }

  function Step(v: Tenancy, c: Call, saved: bool): Tenancy {
    match c
    case CreateTenant(a, b, p, t, o, x, y) => Commit(v, Ops.CreateTenant(v, a, b, p, t, o, x, y), saved)
    case CreateOrg(a, b, p, t, o, x) => Commit(v, Ops.CreateOrg(v, a, b, p, t, o, x), saved)
    case RenameOrg(a, b, p, t, x) => Commit(v, Ops.RenameOrg(v, a, b, p, t, x), saved)
    case DeleteOrg(a, p, t, x) => Commit(v, Ops.DeleteOrg(v, a, p, t, x), saved)
    case UpdateTier(a, b, p, t, x) => Commit(v, Ops.UpdateTenantTier(v, a, b, p, t, x), saved)
    case Attach(a, b, p, t, x) => Commit(v, Ops.AttachSiteToOrg(v, a, b, p, t, x), saved)
    case Detach(a, p, t, x) => Commit(v, Ops.DetachSiteFromOrg(v, a, p, t, x), saved)
    case DeleteTenant(a, p, t, x) => Commit(v, Ops.DeleteTenant(v, a, p, t, x), saved)
  }

  /** A freshly drawn org id is well-formed and not in use. */
  predicate Fresh(v: Tenancy, c: Call) {
    (c.CreateTenant? || c.CreateOrg?) ==> ValidId(c.orgId) && c.orgId !in v.orgs
  }

  function Run(v: Tenancy, calls: seq<(Call, bool)>): Tenancy
    decreases |calls|
  {
    if calls == [] then v else Run(Step(v, calls[0].0, calls[0].1), calls[1..])
  }

  predicate RunFresh(v: Tenancy, calls: seq<(Call, bool)>)
    decreases |calls|
  {
    calls == [] || (Fresh(v, calls[0].0) && RunFresh(Step(v, calls[0].0, calls[0].1), calls[1..]))
  }

  lemma StepGood(v: Tenancy, c: Call, saved: bool)
    requires Good(v) && Fresh(v, c)
    ensures Good(Step(v, c, saved))
  {
    match c
    case CreateTenant(a, b, p, t, o, x, y) => CreateTenantGood(v, a, b, p, t, o, x, y);
    case CreateOrg(a, b, p, t, o, x) => CreateOrgGood(v, a, b, p, t, o, x);
    case RenameOrg(a, b, p, t, x) => RenameOrgGood(v, a, b, p, t, x);
    case DeleteOrg(a, p, t, x) => DeleteOrgGood(v, a, p, t, x);
    case UpdateTier(a, b, p, t, x) => UpdateTierGood(v, a, b, p, t, x);
    case Attach(a, b, p, t, x) => AttachGood(v, a, b, p, t, x);
    case Detach(a, p, t, x) => DetachGood(v, a, p, t, x);
    case DeleteTenant(a, p, t, x) => DeleteTenantGood(v, a, p, t, x);
  }

  lemma {:induction false} RunGood(v: Tenancy, calls: seq<(Call, bool)>)
    requires Good(v) && RunFresh(v, calls)
    ensures Good(Run(v, calls))
    decreases |calls|
  {
    if calls != [] {
      StepGood(v, calls[0].0, calls[0].1);
      RunGood(Step(v, calls[0].0, calls[0].1), calls[1..]);
    }
  }

  /** From the empty store, after any run with any saves failing, the tenancy
      is well-formed and its log replays to exactly it. */
  lemma ReplayRebuilds(calls: seq<(Call, bool)>)
    requires RunFresh(Tenancy(map[], map[], map[], []), calls)
    ensures var v := Run(Tenancy(map[], map[], map[], []), calls);
            TenancyOk(v) && Replay(v.auds) == ViewOf(v)
  {
    RunGood(Tenancy(map[], map[], map[], []), calls);
  }

  // ---- Tiers only rise ----------------------------------------------------

  function Rank(v: Tenancy, id: string): int
    requires id in v.tenants
  {
    var r := Ops.TierRank(v.tenants[id].tier);
    if r.None? then -1 else r.value
  }

  /** No call lowers the tier of a tenant that survives it; a refused
      downgrade changes nothing but the log. */
  lemma StepTier(v: Tenancy, c: Call, saved: bool, id: string)
    requires id in v.tenants && id in Step(v, c, saved).tenants
    ensures Rank(Step(v, c, saved), id) >= Rank(v, id)
    ensures c.UpdateTier? && Ops.UpdateTenantTier(v, c.id, c.target, c.principal, c.now, c.audit).result ==
            Err(TierDowngrade)
            ==> ViewOf(Step(v, c, saved)) == ViewOf(v)
  {}

  predicate Survives(v: Tenancy, calls: seq<(Call, bool)>, id: string)
    decreases |calls|
  {
    id in v.tenants && (calls == [] || Survives(Step(v, calls[0].0, calls[0].1), calls[1..], id))
  }

  lemma {:induction false} TierNeverFalls(v: Tenancy, calls: seq<(Call, bool)>, id: string)
    requires Survives(v, calls, id)
    ensures id in Run(v, calls).tenants && Rank(Run(v, calls), id) >= Rank(v, id)
    decreases |calls|
  {
    if calls != [] {
      var u := Step(v, calls[0].0, calls[0].1);
      assert Survives(u, calls[1..], id);
      TierNeverFalls(u, calls[1..], id);
      StepTier(v, calls[0].0, calls[0].1, id);
    }
  }
}
