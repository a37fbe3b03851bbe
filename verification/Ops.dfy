/** What each store mutator intends, as a function of the state it finds
    (core/store.go). Clocks and random ids are parameters. */
module Ops {
  import opened Text
  import opened Names
  import opened Records

  // ---- Assets -------------------------------------------------------------

  function PutAsset(assets: map<string, Asset>, a: Asset, expectVersion: int, now: Time):
    Intent<map<string, Asset>, Asset>
  {
    if a.path in assets then
      var cur := assets[a.path];
      if expectVersion > 0 && cur.version != expectVersion then Answer(Err(VersionConflict))
      else
        var next := cur.(spec := a.spec, version := cur.version + 1, updatedAt := now);
        Write(assets[a.path := next], Ok(next))
    else if expectVersion > 0 then Answer(Err(VersionConflict))
    else
      var next := a.(version := 1, createdAt := now, updatedAt := now);
      Write(assets[a.path := next], Ok(next))
  }

  predicate IsChild(path: string, p: string) { HasPrefix(p, path + ".") }

  function Children(assets: map<string, Asset>, path: string): set<string> {
    set p | p in assets && IsChild(path, p)
  }

  function DeleteAsset(assets: map<string, Asset>, path: string, cascade: bool): Intent<map<string, Asset>, nat> {
    var kids := Children(assets, path);
    var gone := if path in assets then kids + {path} else kids;
    if gone == {} then Answer(Ok(0))
    else if kids != {} && !cascade then Answer(Err(HasChildren))
    else Write(assets - gone, Ok(|gone|))
  }

  // ---- Alarms -------------------------------------------------------------

  function SeedOne(alarms: map<string, Alarm>, a: Alarm): map<string, Alarm> {
    if a.id in alarms
    then alarms[a.id := alarms[a.id].(severity := a.severity, state := a.state, summary := a.summary, path := a.path)]
    else alarms[a.id := a]
  }

  function SeedAll(alarms: map<string, Alarm>, input: seq<Alarm>): map<string, Alarm>
    decreases |input|
  {
    if input == [] then alarms else SeedAll(SeedOne(alarms, input[0]), input[1..])
  }

  function AckAlarm(alarms: map<string, Alarm>, id: string, actor: string, now: Time):
    Intent<map<string, Alarm>, Alarm>
  {
    if id !in alarms then Answer(Err(NotFound))
    else if alarms[id].state != "firing" then Answer(Err(AlarmNotAckable))
    else
      var a := alarms[id].(state := "acked", ackedBy := actor, ackedAt := Some(now));
      Write(alarms[id := a], Ok(a))
  }

  // ---- Tickets ------------------------------------------------------------

  predicate Active(t: Ticket) { t.alarmId != "" && t.state != "closed" }

  /** Another active ticket carries the same alarm id. */
  predicate Clashes(tickets: map<string, Ticket>, t: Ticket) {
    Active(t) && exists id :: id in tickets && id != t.id && Active(tickets[id]) && tickets[id].alarmId == t.alarmId
  }

  function PutTicket(tickets: map<string, Ticket>, t: Ticket, expectVersion: int):
    Intent<map<string, Ticket>, Ticket>
  {
    if Clashes(tickets, t) then Answer(Err(DuplicateActiveTicket))
    else if t.id in tickets then
      if expectVersion > 0 && tickets[t.id].version != expectVersion then Answer(Err(VersionConflict))
      else
        var next := t.(version := tickets[t.id].version + 1);
        Write(tickets[t.id := next], Ok(next))
    else if expectVersion > 0 then Answer(Err(VersionConflict))
    else
      var next := t.(version := 1);
      Write(tickets[t.id := next], Ok(next))
  }

  function UpdateTicketAssignee(tickets: map<string, Ticket>, id: string, assignee: string):
    Intent<map<string, Ticket>, Ticket>
  {
    if id !in tickets then Answer(Err(NotFound))
    else
      var next := tickets[id].(assignee := assignee);
      Write(tickets[id := next], Ok(next))
  }

  // ---- Schedules, spares, control audits ----------------------------------

  /** Upsert of a row under its id: PM schedules and inspection templates. */
  function Upsert<V>(rows: map<string, V>, id: string, row: V): Intent<map<string, V>, ()> {
    Write(rows[id := row], Ok(()))
  }

  predicate SkuTaken(spares: map<string, SparePart>, sp: SparePart) {
    exists id :: id in spares && id != sp.id && spares[id].sku == sp.sku
  }

  function PutSpare(s: Stock, sp: SparePart): Intent<Stock, ()> {
    if SkuTaken(s.spares, sp) then Answer(Err(SkuExists))
    else Write(s.(spares := s.spares[sp.id := sp]), Ok(()))
  }

  function AdjustSpare(s: Stock, id: string, delta: int, ticketId: string, at: Time, txnId: string):
    Intent<Stock, (SparePart, SpareTxn)>
  {
    if id !in s.spares then Answer(Err(NotFound))
    else if delta == 0 then Answer(Err(BadInput))
    else if s.spares[id].qty + delta < 0 then Answer(Err(InsufficientStock))
    else
      var sp := s.spares[id].(qty := s.spares[id].qty + delta);
      var txn := SpareTxn(txnId, id, delta, ticketId, at);
      Write(Stock(s.spares[id := sp], s.txns + [txn]), Ok((sp, txn)))
  }

  function AppendSetAudit(audits: seq<SetAudit>, a: SetAudit): Intent<seq<SetAudit>, ()> {
    Write(audits + [a], Ok(()))
  }

  // ---- Tenants, orgs, sites -----------------------------------------------

  const DEFAULT_ORG := "default"

  lemma DefaultIsSlug()
    ensures ValidTenantSlug(DEFAULT_ORG)
  {}

  const ARROW := "\U{2192}"

  /** White space at either end is cut (Go's strings.TrimSpace on ASCII). */
  predicate IsSpace(c: char) { c == ' ' || '\t' <= c <= '\r' }

  function TrimSpace(s: string): string {
    if s == "" then ""
    else if IsSpace(s[0]) then TrimSpace(s[1..])
    else if IsSpace(s[|s| - 1]) then TrimSpace(s[..|s| - 1])
    else s
  }

  function TierRank(tier: string): Option<nat> {
    if tier == "label" then Some(0) else if tier == "row" then Some(1) else if tier == "db" then Some(2) else None
  }

  /** Some org of the tenant other than `except` has the name. */
  predicate NameTaken(orgs: map<string, Org>, tenantId: string, name: string, except: Option<string>) {
    exists k :: k in orgs && orgs[k].tenantId == tenantId && orgs[k].name == name && Some(orgs[k].id) != except
  }

  /** The audit row every tenant, org or site change appends. */
  function Audited(v: Tenancy, auditId: string, now: Time, principal: string, tenantId: string, op: AuditOp,
                   detail: string):
    seq<TenantAudit>
  {
    v.auds + [TenantAudit(auditId, now, principal, tenantId, op, detail)]
  }

  /** `orgId` and the audit ids are freshly drawn. */
  function CreateTenant(v: Tenancy, rawId: string, rawName: string, principal: string, now: Time, orgId: string,
                        audit1: string, audit2: string): Intent<Tenancy, (Tenant, Org)>
  {
    var id, displayName := TrimSpace(rawId), TrimSpace(rawName);
    if !ValidTenantSlug(id) || displayName == "" then Answer(Err(BadInput))
    else if id in v.tenants then Answer(Err(TenantExists))
    else
      var t := Tenant(id, displayName, "label", "active", now, now);
      var o := Org(orgId, id, DEFAULT_ORG, now);
      Write(v.(tenants := v.tenants[id := t],
               orgs := v.orgs[orgId := o],
               auds := v.auds + [
                 TenantAudit(audit1, now, principal, id, TenantCreated, displayName),
                 TenantAudit(audit2, now, principal, id, OrgCreated, orgId + ":" + DEFAULT_ORG)]),
            Ok((t, o)))
  }

  function CreateOrg(v: Tenancy, tenantId: string, name: string, principal: string, now: Time, orgId: string,
                     audit: string): Intent<Tenancy, Org>
  {
    if !ValidTenantSlug(name) then Answer(Err(BadInput))
    else if tenantId !in v.tenants then Answer(Err(NotFound))
    else if NameTaken(v.orgs, tenantId, name, None) then Answer(Err(OrgNameConflict))
    else
      var o := Org(orgId, tenantId, name, now);
      Write(v.(orgs := v.orgs[orgId := o],
               auds := Audited(v, audit, now, principal, tenantId, OrgCreated, orgId + ":" + name)),
            Ok(o))
  }

  function RenameOrg(v: Tenancy, id: string, newName: string, principal: string, now: Time, audit: string):
    Intent<Tenancy, ()>
  {
    if !ValidTenantSlug(newName) then Answer(Err(BadInput))
    else if id !in v.orgs then Answer(Err(NotFound))
    else
      var prev := v.orgs[id];
      if prev.name == newName then Answer(Ok(()))
      else if NameTaken(v.orgs, prev.tenantId, newName, Some(id)) then Answer(Err(OrgNameConflict))
      else
        Write(v.(orgs := v.orgs[id := prev.(name := newName)],
                 auds := Audited(v, audit, now, principal, prev.tenantId, OrgRenamed,
                                       prev.name + ARROW + newName)),
              Ok(()))
  }

  predicate OwnsSites(sites: map<string, SiteOrg>, orgId: string) {
    exists s :: s in sites && sites[s].orgId == orgId
  }

  predicate OwnsOrgs(orgs: map<string, Org>, tenantId: string) {
    exists o :: o in orgs && orgs[o].tenantId == tenantId
  }

  function DeleteOrg(v: Tenancy, id: string, principal: string, now: Time, audit: string): Intent<Tenancy, ()> {
    if id !in v.orgs then Answer(Err(NotFound))
    else if OwnsSites(v.sites, id) then Answer(Err(OrgOwnsResources))
    else
      Write(v.(orgs := v.orgs - {id},
               auds := Audited(v, audit, now, principal, v.orgs[id].tenantId, OrgDeleted, v.orgs[id].name)),
            Ok(()))
  }

  /** A refused downgrade still writes its audit row. */
  function UpdateTenantTier(v: Tenancy, id: string, target: string, principal: string, now: Time, audit: string):
    Intent<Tenancy, ()>
  {
    if TierRank(target).None? then Answer(Err(BadInput))
    else if id !in v.tenants || TierRank(v.tenants[id].tier).None? then Answer(Err(NotFound))
    else
      var t := v.tenants[id];
      var cur, want := TierRank(t.tier).value, TierRank(target).value;
      if want == cur then Answer(Ok(()))
      else if want < cur then
        Write(v.(auds := Audited(v, audit, now, principal, id, TierChanged, t.tier + ARROW + target + " REFUSED")),
              Err(TierDowngrade))
      else
        Write(v.(tenants := v.tenants[id := t.(tier := target, updatedAt := now)],
                 auds := Audited(v, audit, now, principal, id, TierChanged, t.tier + ARROW + target)),
              Ok(()))
  }

  function AttachSiteToOrg(v: Tenancy, site: string, orgId: string, principal: string, now: Time, audit: string):
    Intent<Tenancy, ()>
  {
    if !ValidSiteSlug(site) then Answer(Err(BadInput))
    else if orgId !in v.orgs then Answer(Err(NotFound))
    else if site in v.sites && v.sites[site].orgId == orgId then Answer(Ok(()))
    else
      var exists_ := site in v.sites;
      var detail := if exists_ then site + ": " + v.sites[site].orgId + ARROW + orgId else site + ARROW + orgId;
      var created := if exists_ then v.sites[site].createdAt else now;
      Write(v.(sites := v.sites[site := SiteOrg(site, orgId, created, now)],
               auds := Audited(v, audit, now, principal, v.orgs[orgId].tenantId, SiteReattached, detail)),
            Ok(()))
  }

  function DetachSiteFromOrg(v: Tenancy, site: string, principal: string, now: Time, audit: string):
    Intent<Tenancy, ()>
  {
    if site !in v.sites then Answer(Err(NotFound))
    else
      var orgId := v.sites[site].orgId;
      var tenantId := if orgId in v.orgs then v.orgs[orgId].tenantId else "";
      Write(v.(sites := v.sites - {site},
               auds := if tenantId == "" then v.auds
                             else Audited(v, audit, now, principal, tenantId, SiteReattached,
                               site + ": " + orgId + ARROW)),
            Ok(()))
  }

  function DeleteTenant(v: Tenancy, id: string, principal: string, now: Time, audit: string): Intent<Tenancy, ()> {
    if id !in v.tenants then Answer(Err(NotFound))
    else if OwnsOrgs(v.orgs, id) then Answer(Err(TenantOwnsOrgs))
    else
      Write(v.(tenants := v.tenants - {id},
               auds := Audited(v, audit, now, principal, id, TenantStatus, "deleted")),
            Ok(()))
  }

  // ---- Role bindings ------------------------------------------------------

  predicate At(rows: seq<RoleBinding>, i: int, subject: string, scope: string) {
    0 <= i < |rows| && rows[i].subject == subject && rows[i].scope == scope
  }

  /** The first row for (subject, scope) from `i` on, or the number of rows. */
  function FindFrom(rows: seq<RoleBinding>, subject: string, scope: string, i: nat): (r: nat)
    requires i <= |rows|
    ensures i <= r <= |rows|
    ensures r < |rows| ==> At(rows, r, subject, scope)
    ensures forall j :: i <= j < r ==> !At(rows, j, subject, scope)
    decreases |rows| - i
  {
    if i == |rows| || At(rows, i, subject, scope) then i else FindFrom(rows, subject, scope, i + 1)
  }

  function Find(rows: seq<RoleBinding>, subject: string, scope: string): nat {
    FindFrom(rows, subject, scope, 0)
  }

  function Filled(rb: RoleBinding, freshId: string): RoleBinding {
    rb.(origin := if rb.origin == "" then "legacy" else rb.origin, id := if rb.id == "" then freshId else rb.id)
  }

  function PutRow(rows: seq<RoleBinding>, rb: RoleBinding, now: Time): seq<RoleBinding> {
    var i := Find(rows, rb.subject, rb.scope);
    if i < |rows| then
      var hit := rows[i];
      rows[i := hit.(origin := rb.origin, updatedAt := now,
                     createdAt := if hit.createdAt == ZERO_TIME then now else hit.createdAt)]
    else rows + [rb.(createdAt := if rb.createdAt == ZERO_TIME then now else rb.createdAt, updatedAt := now)]
  }

  function PutRoleBinding(rows: seq<RoleBinding>, rb: RoleBinding, now: Time, freshId: string):
    Intent<seq<RoleBinding>, ()>
  {
    if rb.subject == "" || rb.scope == "" then Answer(Err(BadInput))
    else Write(PutRow(rows, Filled(rb, freshId), now), Ok(()))
  }

  function DeleteRoleBinding(rows: seq<RoleBinding>, subject: string, scope: string): Intent<seq<RoleBinding>, ()> {
    if subject == "" || scope == "" then Answer(Err(BadInput))
    else
      var i := Find(rows, subject, scope);
      if i == |rows| then Answer(Ok(())) else Write(rows[..i] + rows[i + 1..], Ok(()))
  }
}
