/** The JSON-file store (core/store.go): maps and slices updated in place,
    saved whole after every change, and rolled back by hand when the save
    fails. Every mutator is proved to be a transaction of its intent. */
module FileStore {
  import opened Text
  import opened Names
  import opened Records
  import Disk
  import Ops

  /** Either the intent is carried out and the resulting whole state `now` is
      durable, or nothing happened. */
  ghost predicate Transaction<S, T>(before: S, after: S, disk: seq<Mem>, disk': seq<Mem>, now: Mem,
                                    intent: Intent<S, T>, r: Result<T>) {
    match intent
    case Answer(x) => after == before && disk' == disk && r == x
    case Write(s, x) =>
      || (after == s && disk' == disk + [now] && r == x)
      || (after == before && disk' == disk && r == Err(SaveFailed))
  }

  /** A call fails to save at most once, and says so. */
  ghost function Failures<T>(r: Result<T>): nat { if r == Err(SaveFailed) then 1 else 0 }

  lemma UndoInsert<V>(m: map<string, V>, k: string, v: V)
    requires k !in m
    ensures m[k := v] - {k} == m
  {}

  lemma UndoUpdate<V>(m: map<string, V>, k: string, v: V)
    requires k in m
    ensures m[k := v][k := m[k]] == m
  {}

  lemma UndoDelete<V>(m: map<string, V>, k: string)
    requires k in m
    ensures (m - {k})[k := m[k]] == m
  {}

  /** Cutting row `i` out and putting it back. */
  lemma Spliced<T>(rows: seq<T>, i: nat)
    requires i < |rows|
    ensures (rows[..i] + rows[i + 1..])[i..] == rows[i + 1..] && (rows[..i] + rows[i + 1..])[..i] == rows[..i]
    ensures rows[..i] + ([rows[i]] + rows[i + 1..]) == rows
  {}

  class Store {
    var assets: map<string, Asset>
    var alarms: map<string, Alarm>
    var tickets: map<string, Ticket>
    var pmSchedules: map<string, PMSchedule>
    var inspections: map<string, InspectionTemplate>
    var spares: map<string, SparePart>
    var spareTxns: seq<SpareTxn>
    var setAudits: seq<SetAudit>
    var tenants: map<string, Tenant>
    var orgs: map<string, Org>
    var siteOrgs: map<string, SiteOrg>
    var tenantAuds: seq<TenantAudit>
    // The role bindings are a slice: the first rbLen cells of a backing array.
    var rbData: array<RoleBinding>
    var rbLen: nat
    // Every state the disk has held, oldest first, and how many saves failed.
    ghost var saved: seq<Mem>
    ghost var refused: nat

    ghost predicate Valid()
      reads this
    {
      rbLen <= rbData.Length
    }

    constructor (file: Disk.Shape)
      ensures Valid() && fresh(rbData) && Contents() == Disk.Decode(file) && Synced() && refused == 0
    {
      var m := Disk.Load(file);
      var rows := m.roleBindings;
      var data := new RoleBinding[|rows|](k requires 0 <= k < |rows| => rows[k]);
      assert data[..|rows|] == rows;
      assets, alarms, tickets, pmSchedules, inspections := m.assets, m.alarms, m.tickets, m.pmSchedules, m.inspections;
      spares, spareTxns, setAudits := m.stock.spares, m.stock.txns, m.setAudits;
      tenants, orgs, siteOrgs, tenantAuds := m.tenancy.tenants, m.tenancy.orgs, m.tenancy.sites, m.tenancy.auds;
      rbData, rbLen := data, |rows|;
      new;
      saved, refused := [Contents()], 0;
    }

    ghost function Contents(): Mem
      reads this, rbData
      requires Valid()
    {
      Mem(assets, alarms, tickets, pmSchedules, inspections, StockView(), setAudits, TenancyView(), rbData[..rbLen])
    }

    ghost function StockView(): Stock
      reads `spares, `spareTxns
    {
      Stock(spares, spareTxns)
    }

    ghost function TenancyView(): Tenancy
      reads `tenants, `orgs, `siteOrgs, `tenantAuds
    {
      Tenancy(tenants, orgs, siteOrgs, tenantAuds)
    }

    /** Memory equals what the disk holds. */
    ghost predicate Synced()
      reads this, rbData
      requires Valid()
    {
      |saved| > 0 && saved[|saved| - 1] == Contents()
    }

    /** A write to disk replaces the file whole or leaves it as it was. */
    method Save() returns (ok: bool)
      requires Valid()
      modifies `saved, `refused
      ensures saved == if ok then old(saved) + [Contents()] else old(saved)
      ensures refused == old(refused) + if ok then 0 else 1
    {
      ok := *;
      if ok {
        saved := saved + [Contents()];
      } else {
        refused := refused + 1;
      }
    }

    // ---- Assets -----------------------------------------------------------

    method PutAsset(a: Asset, expectVersion: int, now: Time) returns (r: Result<Asset>)
      requires Valid()
      modifies `assets, `saved, `refused
      ensures Valid()
      ensures Transaction(old(assets), assets, old(saved), saved, Contents(),
              Ops.PutAsset(old(assets), a, expectVersion, now), r)
      ensures refused == old(refused) + Failures(r)
    {
      if a.path in assets {
        var prev := assets[a.path];
        if expectVersion > 0 && prev.version != expectVersion {
          return Err(VersionConflict);
        }
        var cur := prev.(spec := a.spec, version := prev.version + 1, updatedAt := now);
        assets := assets[a.path := cur];
        var ok := Save();
        if !ok {
          assets := assets[a.path := prev];
          assert assets == old(assets);
          return Err(SaveFailed);
        }
        return Ok(cur);
      }
      if expectVersion > 0 {
        return Err(VersionConflict);
      }
      var fresh_ := a.(version := 1, createdAt := now, updatedAt := now);
      assets := assets[a.path := fresh_];
      var ok := Save();
      if !ok {
        assets := assets - {a.path};
        assert assets == old(assets);
        return Err(SaveFailed);
      }
      r := Ok(fresh_);
    }

    method HasChildren(path: string) returns (kids: set<string>)
      requires Valid()
      ensures kids == Ops.Children(assets, path)
    {
      kids := {};
      var todo := assets.Keys;
      while todo != {}
        invariant todo <= assets.Keys
        invariant kids == set p | p in assets && p !in todo && Ops.IsChild(path, p)
        decreases todo
      {
        var p :| p in todo;
        if Ops.IsChild(path, p) {
          kids := kids + {p};
        }
        todo := todo - {p};
      }
    }

    method DeleteAsset(path: string, cascade: bool) returns (r: Result<nat>)
      requires Valid()
      modifies `assets, `saved, `refused
      ensures Valid()
      ensures Transaction(old(assets), assets, old(saved), saved, Contents(),
              Ops.DeleteAsset(old(assets), path, cascade), r)
      ensures refused == old(refused) + Failures(r)
    {
      var exists_ := path in assets;
      var kids := HasChildren(path);
      if !exists_ && kids == {} {
        return Ok(0);
      }
      if kids != {} && !cascade {
        return Err(Error.HasChildren);
      }
      var gone := if exists_ then kids + {path} else kids;
      var prev := Snapshot(gone);
      var deleted := RemoveAll(gone);
      var ok := Save();
      if !ok {
        Restore(prev);
        return Err(SaveFailed);
      }
      r := Ok(deleted);
    }

    /** The entries about to go, so that a failed save can put them back. */
    method Snapshot(gone: set<string>) returns (prev: map<string, Asset>)
      requires gone <= assets.Keys
      ensures prev.Keys == gone && assets - gone + prev == assets
    {
      prev := map p | p in gone :: assets[p];
    }

    method RemoveAll(gone: set<string>) returns (deleted: nat)
      requires Valid() && gone <= assets.Keys
      modifies `assets
      ensures assets == old(assets) - gone && deleted == |gone|
    {
      deleted := 0;
      var todo := gone;
      while todo != {}
        invariant todo <= gone
        invariant assets == old(assets) - (gone - todo)
        invariant deleted + |todo| == |gone|
        decreases todo
      {
        var p :| p in todo;
        assets := assets - {p};
        todo := todo - {p};
        deleted := deleted + 1;
      }
    }

    method Restore(prev: map<string, Asset>)
      requires Valid()
      modifies `assets
      ensures assets == old(assets) + prev
    {
      var todo := prev.Keys;
      while todo != {}
        invariant todo <= prev.Keys
        invariant assets == old(assets) + (prev - todo)
        decreases todo
      {
        var p :| p in todo;
        assets := assets[p := prev[p]];
        todo := todo - {p};
      }
      assert prev - {} == prev;
    }

    // ---- Alarms: the two mutators that do not roll back ---------------------

    method SeedAlarms(input: seq<Alarm>) returns (ok: bool)
      requires Valid()
      modifies `alarms, `saved, `refused
      ensures Valid()
      ensures alarms == Ops.SeedAll(old(alarms), input)
      ensures saved == if ok then old(saved) + [Contents()] else old(saved)
      ensures refused == old(refused) + if ok then 0 else 1
      ensures old(Synced()) ==> (Synced() <==> ok || Ops.SeedAll(old(alarms), input) == old(alarms))
    {
      for i := 0 to |input|
        invariant saved == old(saved) && refused == old(refused)
        invariant Ops.SeedAll(alarms, input[i..]) == Ops.SeedAll(old(alarms), input)
      {
        var a := input[i];
        assert input[i..][1..] == input[i + 1..];
        if a.id in alarms {
          var prev := alarms[a.id];
          alarms := alarms[a.id := prev.(severity := a.severity, state := a.state, summary := a.summary,
                                            path := a.path)];
        } else {
          alarms := alarms[a.id := a];
        }
      }
      ok := Save();
    }

    /** After a failed save the alarm stays acknowledged in memory only. */
    method AckAlarm(id: string, actor: string, now: Time) returns (r: Result<Alarm>)
      requires Valid()
      modifies `alarms, `saved, `refused
      ensures Valid()
      ensures match Ops.AckAlarm(old(alarms), id, actor, now)
              case Answer(x) => alarms == old(alarms) && saved == old(saved) && r == x
              case Write(s, x) =>
                && alarms == s
                && saved == (if r == Err(SaveFailed) then old(saved) else old(saved) + [Contents()])
                && (r == x || r == Err(SaveFailed))
      ensures refused == old(refused) + Failures(r)
      ensures old(Synced()) ==> (Synced() <==> r != Err(SaveFailed))
    {
      if id !in alarms {
        return Err(NotFound);
      }
      var a := alarms[id];
      if a.state != "firing" {
        return Err(AlarmNotAckable);
      }
      a := a.(state := "acked", ackedBy := actor, ackedAt := Some(now));
      alarms := alarms[id := a];
      var ok := Save();
      r := if ok then Ok(a) else Err(SaveFailed);
    }

    // ---- Tickets ------------------------------------------------------------

    method ClashingTicket(t: Ticket) returns (clash: bool)
      ensures clash == Ops.Clashes(tickets, t)
    {
      clash := false;
      if t.alarmId != "" && t.state != "closed" {
        var todo := tickets.Keys;
        while todo != {}
          invariant todo <= tickets.Keys
          invariant forall id :: id in tickets && id !in todo && id != t.id ==>
                      !(tickets[id].alarmId == t.alarmId && tickets[id].state != "closed")
          decreases todo
        {
          var id :| id in todo;
          if id != t.id && tickets[id].alarmId == t.alarmId && tickets[id].state != "closed" {
            return true;
          }
          todo := todo - {id};
        }
      }
    }

    method PutTicket(t: Ticket, expectVersion: int) returns (r: Result<Ticket>)
      requires Valid()
      modifies `tickets, `saved, `refused
      ensures Valid()
      ensures Transaction(old(tickets), tickets, old(saved), saved, Contents(),
              Ops.PutTicket(old(tickets), t, expectVersion), r)
      ensures refused == old(refused) + Failures(r)
    {
      var clash := ClashingTicket(t);
      if clash {
        return Err(DuplicateActiveTicket);
      }
      if t.id in tickets {
        var prev := tickets[t.id];
        if expectVersion > 0 && prev.version != expectVersion {
          return Err(VersionConflict);
        }
        var next := t.(version := prev.version + 1);
        tickets := tickets[t.id := next];
        var ok := Save();
        if !ok {
          tickets := tickets[t.id := prev];
          assert tickets == old(tickets);
          return Err(SaveFailed);
        }
        return Ok(next);
      }
      if expectVersion > 0 {
        return Err(VersionConflict);
      }
      var next := t.(version := 1);
      tickets := tickets[t.id := next];
      var ok := Save();
      if !ok {
        tickets := tickets - {t.id};
        assert tickets == old(tickets);
        return Err(SaveFailed);
      }
      r := Ok(next);
    }

    method UpdateTicketAssignee(id: string, assignee: string) returns (r: Result<Ticket>)
      requires Valid()
      modifies `tickets, `saved, `refused
      ensures Valid()
      ensures Transaction(old(tickets), tickets, old(saved), saved, Contents(),
              Ops.UpdateTicketAssignee(old(tickets), id, assignee), r)
      ensures refused == old(refused) + Failures(r)
    {
      if id !in tickets {
        return Err(NotFound);
      }
      var prev := tickets[id];
      tickets := tickets[id := prev.(assignee := assignee)];
      var ok := Save();
      if !ok {
        tickets := tickets[id := prev];
        assert tickets == old(tickets);
        return Err(SaveFailed);
      }
      r := Ok(prev.(assignee := assignee));
    }

    // ---- Schedules, spares, control audits ----------------------------------

    method PutPMSchedule(p: PMSchedule) returns (r: Result<()>)
      requires Valid()
      modifies `pmSchedules, `saved, `refused
      ensures Valid()
      ensures Transaction(old(pmSchedules), pmSchedules, old(saved), saved, Contents(),
              Ops.Upsert(old(pmSchedules), p.id, p), r)
      ensures refused == old(refused) + Failures(r)
    {
      var before := pmSchedules;
      pmSchedules := pmSchedules[p.id := p];
      var ok := Save();
      if !ok {
        if p.id in before {
          pmSchedules := pmSchedules[p.id := before[p.id]];
        } else {
          pmSchedules := pmSchedules - {p.id};
        }
        assert pmSchedules == old(pmSchedules);
        return Err(SaveFailed);
      }
      r := Ok(());
    }

    method PutInspectionTemplate(it: InspectionTemplate) returns (r: Result<()>)
      requires Valid()
      modifies `inspections, `saved, `refused
      ensures Valid()
      ensures Transaction(old(inspections), inspections, old(saved), saved, Contents(),
              Ops.Upsert(old(inspections), it.id, it), r)
      ensures refused == old(refused) + Failures(r)
    {
      var before := inspections;
      inspections := inspections[it.id := it];
      var ok := Save();
      if !ok {
        if it.id in before {
          inspections := inspections[it.id := before[it.id]];
        } else {
          inspections := inspections - {it.id};
        }
        assert inspections == old(inspections);
        return Err(SaveFailed);
      }
      r := Ok(());
    }

    method SkuTaken(sp: SparePart) returns (taken: bool)
      ensures taken == Ops.SkuTaken(spares, sp)
    {
      taken := false;
      var todo := spares.Keys;
      while todo != {}
        invariant todo <= spares.Keys
        invariant forall id :: id in spares && id !in todo && id != sp.id ==> spares[id].sku != sp.sku
        decreases todo
      {
        var id :| id in todo;
        if id != sp.id && spares[id].sku == sp.sku {
          return true;
        }
        todo := todo - {id};
      }
    }

    method PutSpare(sp: SparePart) returns (r: Result<()>)
      requires Valid()
      modifies `spares, `saved, `refused
      ensures Valid()
      ensures Transaction(old(StockView()), StockView(), old(saved), saved, Contents(),
              Ops.PutSpare(old(StockView()), sp), r)
      ensures refused == old(refused) + Failures(r)
    {
      var taken := SkuTaken(sp);
      if taken {
        return Err(SkuExists);
      }
      var before := spares;
      spares := spares[sp.id := sp];
      var ok := Save();
      if !ok {
        if sp.id in before {
          spares := spares[sp.id := before[sp.id]];
        } else {
          spares := spares - {sp.id};
        }
        assert spares == old(spares);
        return Err(SaveFailed);
      }
      r := Ok(());
    }

    method AdjustSpare(id: string, delta: int, ticketId: string, at: Time, txnId: string)
      returns (r: Result<(SparePart, SpareTxn)>)
      requires Valid()
      modifies `spares, `spareTxns, `saved, `refused
      ensures Valid()
      ensures Transaction(old(StockView()), StockView(), old(saved), saved, Contents(),
              Ops.AdjustSpare(old(StockView()), id, delta, ticketId, at, txnId), r)
      ensures refused == old(refused) + Failures(r)
    {
      if id !in spares {
        return Err(NotFound);
      }
      if delta == 0 {
        return Err(BadInput);
      }
      var prevSpare, prevTxnLen := spares[id], |spareTxns|;
      var newQty := prevSpare.qty + delta;
      if newQty < 0 {
        return Err(InsufficientStock);
      }
      var sp, txn := prevSpare.(qty := newQty), SpareTxn(txnId, id, delta, ticketId, at);
      spares := spares[id := sp];
      spareTxns := spareTxns + [txn];
      var ok := Save();
      if !ok {
        spares := spares[id := prevSpare];
        spareTxns := spareTxns[..prevTxnLen];
        assert spares == old(spares) && spareTxns == old(spareTxns);
        return Err(SaveFailed);
      }
      r := Ok((sp, txn));
    }

    method AppendSetAudit(a: SetAudit) returns (r: Result<()>)
      requires Valid()
      modifies `setAudits, `saved, `refused
      ensures Valid()
      ensures Transaction(old(setAudits), setAudits, old(saved), saved, Contents(),
              Ops.AppendSetAudit(old(setAudits), a), r)
      ensures refused == old(refused) + Failures(r)
    {
      var prevLen := |setAudits|;
      setAudits := setAudits + [a];
      var ok := Save();
      if !ok {
        setAudits := setAudits[..prevLen];
        assert setAudits == old(setAudits);
        return Err(SaveFailed);
      }
      r := Ok(());
    }

    // ---- Tenants, orgs, sites -----------------------------------------------

    method Log(id: string, ts: Time, principal: string, tenantId: string, op: AuditOp, detail: string)
      modifies `tenantAuds
      ensures tenantAuds == Ops.Audited(old(TenancyView()), id, ts, principal, tenantId, op, detail)
    {
      tenantAuds := tenantAuds + [TenantAudit(id, ts, principal, tenantId, op, detail)];
    }

    method CreateTenant(rawId: string, rawName: string, principal: string, now: Time, orgId: string,
                        audit1: string, audit2: string) returns (r: Result<(Tenant, Org)>)
      requires Valid() && orgId !in orgs
      modifies `tenants, `orgs, `tenantAuds, `saved, `refused
      ensures Valid()
      ensures Transaction(old(TenancyView()), TenancyView(), old(saved), saved, Contents(),
                          Ops.CreateTenant(old(TenancyView()), rawId, rawName, principal, now, orgId,
                                           audit1, audit2), r)
      ensures refused == old(refused) + Failures(r)
    {
      var id, displayName := Ops.TrimSpace(rawId), Ops.TrimSpace(rawName);
      if !ValidTenantSlug(id) || displayName == "" {
        return Err(BadInput);
      }
      if id in tenants {
        return Err(TenantExists);
      }
      var t := Tenant(id, displayName, "label", "active", now, now);
      var o := Org(orgId, id, Ops.DEFAULT_ORG, now);
      r := InsertTenant(t, o, [
        TenantAudit(audit1, now, principal, id, TenantCreated, displayName),
        TenantAudit(audit2, now, principal, id, OrgCreated, orgId + ":" + Ops.DEFAULT_ORG)]);
    }

    /** The mutation, the save and the rollback of a tenant creation. */
    method InsertTenant(t: Tenant, o: Org, rows: seq<TenantAudit>) returns (r: Result<(Tenant, Org)>)
      requires Valid() && t.id !in tenants && o.id !in orgs
      modifies `tenants, `orgs, `tenantAuds, `saved, `refused
      ensures Valid()
      ensures Transaction(old(TenancyView()), TenancyView(), old(saved), saved, Contents(),
                          Write(Tenancy(old(tenants)[t.id := t], old(orgs)[o.id := o], old(siteOrgs),
                                        old(tenantAuds) + rows), Ok((t, o))), r)
      ensures refused == old(refused) + Failures(r)
    {
      var prevAudLen := |tenantAuds|;
      tenants := tenants[t.id := t];
      orgs := orgs[o.id := o];
      tenantAuds := tenantAuds + rows;
      var ok := Save();
      if !ok {
        UndoInsert(old(tenants), t.id, t);
        UndoInsert(old(orgs), o.id, o);
        tenants := tenants - {t.id};
        orgs := orgs - {o.id};
        tenantAuds := tenantAuds[..prevAudLen];
        return Err(SaveFailed);
      }
      r := Ok((t, o));
    }

    method FindName(tenantId: string, name: string, except: Option<string>) returns (taken: bool)
      ensures taken == Ops.NameTaken(orgs, tenantId, name, except)
    {
      taken := false;
      var todo := orgs.Keys;
      while todo != {}
        invariant todo <= orgs.Keys
        invariant forall k :: k in orgs && k !in todo ==>
                    !(orgs[k].tenantId == tenantId && orgs[k].name == name && Some(orgs[k].id) != except)
        decreases todo
      {
        var k :| k in todo;
        if orgs[k].tenantId == tenantId && orgs[k].name == name && Some(orgs[k].id) != except {
          return true;
        }
        todo := todo - {k};
      }
    }

    method CreateOrg(tenantId: string, name: string, principal: string, now: Time, orgId: string, audit: string)
      returns (r: Result<Org>)
      requires Valid() && orgId !in orgs
      modifies `orgs, `tenantAuds, `saved, `refused
      ensures Valid()
      ensures Transaction(old(TenancyView()), TenancyView(), old(saved), saved, Contents(),
                          Ops.CreateOrg(old(TenancyView()), tenantId, name, principal, now, orgId, audit), r)
      ensures refused == old(refused) + Failures(r)
    {
      if !ValidTenantSlug(name) {
        return Err(BadInput);
      }
      if tenantId !in tenants {
        return Err(NotFound);
      }
      var taken := FindName(tenantId, name, None);
      if taken {
        return Err(OrgNameConflict);
      }
      var o := Org(orgId, tenantId, name, now);
      var prevAudLen := |tenantAuds|;
      orgs := orgs[orgId := o];
      Log(audit, now, principal, tenantId, OrgCreated, orgId + ":" + name);
      var ok := Save();
      if !ok {
        UndoInsert(old(orgs), orgId, o);
        orgs := orgs - {orgId};
        tenantAuds := tenantAuds[..prevAudLen];
        return Err(SaveFailed);
      }
      r := Ok(o);
    }

    method RenameOrg(id: string, newName: string, principal: string, now: Time, audit: string) returns (r: Result<()>)
      requires Valid()
      modifies `orgs, `tenantAuds, `saved, `refused
      ensures Valid()
      ensures Transaction(old(TenancyView()), TenancyView(), old(saved), saved, Contents(),
                          Ops.RenameOrg(old(TenancyView()), id, newName, principal, now, audit), r)
      ensures refused == old(refused) + Failures(r)
    {
      if !ValidTenantSlug(newName) {
        return Err(BadInput);
      }
      if id !in orgs {
        return Err(NotFound);
      }
      var prev := orgs[id];
      if prev.name == newName {
        return Ok(());
      }
      var taken := FindName(prev.tenantId, newName, Some(id));
      if taken {
        return Err(OrgNameConflict);
      }
      var prevAudLen := |tenantAuds|;
      orgs := orgs[id := prev.(name := newName)];
      Log(audit, now, principal, prev.tenantId, OrgRenamed, prev.name + Ops.ARROW + newName);
      var ok := Save();
      if !ok {
        UndoUpdate(old(orgs), id, prev.(name := newName));
        orgs := orgs[id := prev];
        tenantAuds := tenantAuds[..prevAudLen];
        return Err(SaveFailed);
      }
      r := Ok(());
    }

    /** A site is counted while any is left to look at. */
    method CountSitesByOrg(orgId: string) returns (n: nat)
      ensures n == |set s | s in siteOrgs && siteOrgs[s].orgId == orgId|
      ensures n > 0 <==> Ops.OwnsSites(siteOrgs, orgId)
    {
      n := 0;
      ghost var counted: set<string> := {};
      var todo := siteOrgs.Keys;
      while todo != {}
        invariant todo <= siteOrgs.Keys && n == |counted|
        invariant forall s :: s in counted <==> s in siteOrgs && s !in todo && siteOrgs[s].orgId == orgId
        decreases todo
      {
        var s :| s in todo;
        todo := todo - {s};
        if siteOrgs[s].orgId == orgId {
          n := n + 1;
          counted := counted + {s};
        }
      }
      assert counted == set s | s in siteOrgs && siteOrgs[s].orgId == orgId;
      assert n > 0 <==> exists s :: s in counted;
    }

    method DeleteOrg(id: string, principal: string, now: Time, audit: string) returns (r: Result<()>)
      requires Valid()
      modifies `orgs, `tenantAuds, `saved, `refused
      ensures Valid()
      ensures Transaction(old(TenancyView()), TenancyView(), old(saved), saved, Contents(),
                          Ops.DeleteOrg(old(TenancyView()), id, principal, now, audit), r)
      ensures refused == old(refused) + Failures(r)
    {
      if id !in orgs {
        return Err(NotFound);
      }
      var prev := orgs[id];
      var n := CountSitesByOrg(id);
      if n > 0 {
        return Err(OrgOwnsResources);
      }
      var prevAudLen := |tenantAuds|;
      orgs := orgs - {id};
      Log(audit, now, principal, prev.tenantId, OrgDeleted, prev.name);
      var ok := Save();
      if !ok {
        UndoDelete(old(orgs), id);
        orgs := orgs[id := prev];
        tenantAuds := tenantAuds[..prevAudLen];
        return Err(SaveFailed);
      }
      r := Ok(());
    }

    method UpdateTenantTier(id: string, target: string, principal: string, now: Time, audit: string)
      returns (r: Result<()>)
      requires Valid()
      modifies `tenants, `tenantAuds, `saved, `refused
      ensures Valid()
      ensures Transaction(old(TenancyView()), TenancyView(), old(saved), saved, Contents(),
                          Ops.UpdateTenantTier(old(TenancyView()), id, target, principal, now, audit), r)
      ensures refused == old(refused) + Failures(r)
    {
      var targetRank := Ops.TierRank(target);
      if targetRank.None? {
        return Err(BadInput);
      }
      if id !in tenants {
        return Err(NotFound);
      }
      var prev := tenants[id];
      var curRank := Ops.TierRank(prev.tier);
      if curRank.None? {
        return Err(NotFound);
      }
      if targetRank == curRank {
        return Ok(());
      }
      var prevLen := |tenantAuds|;
      if targetRank.value < curRank.value {
        Log(audit, now, principal, id, TierChanged, prev.tier + Ops.ARROW + target + " REFUSED");
        var ok := Save();
        if !ok {
          tenantAuds := tenantAuds[..prevLen];
          assert tenantAuds == old(tenantAuds);
          return Err(SaveFailed);
        }
        return Err(TierDowngrade);
      }
      tenants := tenants[id := prev.(tier := target, updatedAt := now)];
      Log(audit, now, principal, id, TierChanged, prev.tier + Ops.ARROW + target);
      var ok := Save();
      if !ok {
        UndoUpdate(old(tenants), id, tenants[id]);
        tenants := tenants[id := prev];
        tenantAuds := tenantAuds[..prevLen];
        return Err(SaveFailed);
      }
      r := Ok(());
    }

    method AttachSiteToOrg(site: string, orgId: string, principal: string, now: Time, audit: string)
      returns (r: Result<()>)
      requires Valid()
      modifies `siteOrgs, `tenantAuds, `saved, `refused
      ensures Valid()
      ensures Transaction(old(TenancyView()), TenancyView(), old(saved), saved, Contents(),
                          Ops.AttachSiteToOrg(old(TenancyView()), site, orgId, principal, now, audit), r)
      ensures refused == old(refused) + Failures(r)
    {
      if !ValidSiteSlug(site) {
        return Err(BadInput);
      }
      if orgId !in orgs {
        return Err(NotFound);
      }
      var before := siteOrgs;
      if site in before && before[site].orgId == orgId {
        return Ok(());
      }
      var prevAudLen := |tenantAuds|;
      var detail, updated := site + Ops.ARROW + orgId, SiteOrg(site, orgId, now, now);
      if site in before {
        detail := site + ": " + before[site].orgId + Ops.ARROW + orgId;
        updated := updated.(createdAt := before[site].createdAt);
      }
      siteOrgs := siteOrgs[site := updated];
      Log(audit, now, principal, orgs[orgId].tenantId, SiteReattached, detail);
      var ok := Save();
      if !ok {
        if site in before {
          UndoUpdate(before, site, updated);
          siteOrgs := siteOrgs[site := before[site]];
        } else {
          UndoInsert(before, site, updated);
          siteOrgs := siteOrgs - {site};
        }
        tenantAuds := tenantAuds[..prevAudLen];
        return Err(SaveFailed);
      }
      r := Ok(());
    }

    method DetachSiteFromOrg(site: string, principal: string, now: Time, audit: string) returns (r: Result<()>)
      requires Valid()
      modifies `siteOrgs, `tenantAuds, `saved, `refused
      ensures Valid()
      ensures Transaction(old(TenancyView()), TenancyView(), old(saved), saved, Contents(),
                          Ops.DetachSiteFromOrg(old(TenancyView()), site, principal, now, audit), r)
      ensures refused == old(refused) + Failures(r)
    {
      if site !in siteOrgs {
        return Err(NotFound);
      }
      var cur := siteOrgs[site];
      var tenantId := "";
      if cur.orgId in orgs {
        tenantId := orgs[cur.orgId].tenantId;
      }
      var prevAudLen := |tenantAuds|;
      siteOrgs := siteOrgs - {site};
      if tenantId != "" {
        Log(audit, now, principal, tenantId, SiteReattached, site + ": " + cur.orgId + Ops.ARROW);
      }
      var ok := Save();
      if !ok {
        UndoDelete(old(siteOrgs), site);
        siteOrgs := siteOrgs[site := cur];
        tenantAuds := tenantAuds[..prevAudLen];
        return Err(SaveFailed);
      }
      r := Ok(());
    }

    method AnyOrgOf(tenantId: string) returns (any: bool)
      ensures any == Ops.OwnsOrgs(orgs, tenantId)
    {
      any := false;
      var todo := orgs.Keys;
      while todo != {}
        invariant todo <= orgs.Keys
        invariant forall k :: k in orgs && k !in todo ==> orgs[k].tenantId != tenantId
        decreases todo
      {
        var k :| k in todo;
        if orgs[k].tenantId == tenantId {
          return true;
        }
        todo := todo - {k};
      }
    }

    method DeleteTenant(id: string, principal: string, now: Time, audit: string) returns (r: Result<()>)
      requires Valid()
      modifies `tenants, `tenantAuds, `saved, `refused
      ensures Valid()
      ensures Transaction(old(TenancyView()), TenancyView(), old(saved), saved, Contents(),
                          Ops.DeleteTenant(old(TenancyView()), id, principal, now, audit), r)
      ensures refused == old(refused) + Failures(r)
    {
      if id !in tenants {
        return Err(NotFound);
      }
      var prev := tenants[id];
      var any := AnyOrgOf(id);
      if any {
        return Err(TenantOwnsOrgs);
      }
      var prevAudLen := |tenantAuds|;
      tenants := tenants - {id};
      Log(audit, now, principal, id, TenantStatus, "deleted");
      var ok := Save();
      if !ok {
        UndoDelete(old(tenants), id);
        tenants := tenants[id := prev];
        tenantAuds := tenantAuds[..prevAudLen];
        return Err(SaveFailed);
      }
      r := Ok(());
    }

    // ---- Role bindings ------------------------------------------------------

    method FindRow(subject: string, scope: string) returns (i: nat)
      requires Valid()
      ensures i == Ops.Find(rbData[..rbLen], subject, scope)
    {
      i := 0;
      while i < rbLen
        invariant i <= rbLen
        invariant Ops.Find(rbData[..rbLen], subject, scope) == Ops.FindFrom(rbData[..rbLen], subject, scope, i)
      {
        if rbData[i].subject == subject && rbData[i].scope == scope {
          return;
        }
        i := i + 1;
      }
    }

    /** Append within the slice's capacity, or to a grown copy of the array. */
    method AppendRow(rb: RoleBinding)
      requires Valid()
      modifies `rbData, `rbLen, rbData
      ensures Valid() && (rbData == old(rbData) || fresh(rbData))
      ensures rbData[..rbLen] == old(rbData[..rbLen]) + [rb] && rbLen == old(rbLen) + 1
    {
      if rbLen == rbData.Length {
        var data, n := rbData, rbLen;
        var grown := new RoleBinding[2 * n + 1];
        for k := 0 to n
          invariant rbLen == n && rbData == data && data[..] == old(rbData[..])
          invariant grown[..k] == data[..k]
        {
          grown[k] := data[k];
        }
        rbData := grown;
      }
      rbData[rbLen] := rb;
      rbLen := rbLen + 1;
    }

    method PutRoleBinding(rb: RoleBinding, now: Time, freshId: string) returns (r: Result<()>)
      requires Valid()
      modifies `rbData, `rbLen, rbData, `saved, `refused
      ensures Valid() && (rbData == old(rbData) || fresh(rbData))
      ensures Transaction(old(rbData[..rbLen]), rbData[..rbLen], old(saved), saved, Contents(),
                          Ops.PutRoleBinding(old(rbData[..rbLen]), rb, now, freshId), r)
      ensures refused == old(refused) + Failures(r)
    {
      if rb.subject == "" || rb.scope == "" {
        return Err(BadInput);
      }
      var row := Ops.Filled(rb, freshId);
      var prevLen := rbLen;
      var i := FindRow(row.subject, row.scope);
      if i < rbLen {
        var existing := rbData[i];
        var created := if existing.createdAt == ZERO_TIME then now else existing.createdAt;
        rbData[i] := existing.(origin := row.origin, updatedAt := now, createdAt := created);
        var ok := Save();
        if !ok {
          rbData[i] := existing;
          assert rbData[..rbLen] == old(rbData[..rbLen]);
          return Err(SaveFailed);
        }
        return Ok(());
      }
      var created := if row.createdAt == ZERO_TIME then now else row.createdAt;
      AppendRow(row.(createdAt := created, updatedAt := now));
      var ok := Save();
      if !ok {
        rbLen := prevLen;
        assert rbData[..rbLen] == old(rbData[..rbLen]);
        return Err(SaveFailed);
      }
      r := Ok(());
    }

    /** Splice out row `i` in place: the rows after it move down one cell. */
    method ShiftDown(i: nat)
      requires Valid() && i < rbLen
      modifies `rbLen, rbData
      ensures Valid() && rbLen == old(rbLen) - 1
      ensures rbData[..rbLen] == old(rbData[..i] + rbData[i + 1..rbLen])
    {
      var n := rbLen;
      for k := i to n - 1
        invariant rbLen == n
        invariant forall j :: 0 <= j < i ==> rbData[j] == old(rbData[j])
        invariant forall j :: i <= j < k ==> rbData[j] == old(rbData[j + 1])
        invariant forall j :: k <= j < n ==> rbData[j] == old(rbData[j])
      {
        rbData[k] := rbData[k + 1];
      }
      rbLen := n - 1;
    }

    /** Overwrite the slice from cell `i` on with `rest`, within capacity. */
    method WriteFrom(i: nat, rest: seq<RoleBinding>)
      requires Valid() && i <= rbLen && i + |rest| <= rbData.Length
      modifies `rbLen, rbData
      ensures Valid() && rbData[..rbLen] == old(rbData[..i]) + rest
    {
      for k := 0 to |rest|
        invariant rbData[..i + k] == old(rbData[..i]) + rest[..k]
      {
        rbData[i + k] := rest[k];
      }
      rbLen := i + |rest|;
    }

    method DeleteRoleBinding(subject: string, scope: string) returns (r: Result<()>)
      requires Valid()
      modifies `rbLen, rbData, `saved, `refused
      ensures Valid()
      ensures Transaction(old(rbData[..rbLen]), rbData[..rbLen], old(saved), saved, Contents(),
                          Ops.DeleteRoleBinding(old(rbData[..rbLen]), subject, scope), r)
      ensures refused == old(refused) + Failures(r)
    {
      if subject == "" || scope == "" {
        return Err(BadInput);
      }
      var i := FindRow(subject, scope);
      if i == rbLen {
        return Ok(());
      }
      ghost var rows := rbData[..rbLen];
      var existing := rbData[i];
      ShiftDown(i);
      assert rbData[..rbLen] == rows[..i] + rows[i + 1..];
      var ok := Save();
      if !ok {
        Spliced(rows, i);
        assert rbData[i..rbLen] == rbData[..rbLen][i..] && rbData[..i] == rbData[..rbLen][..i];
        WriteFrom(i, [existing] + rbData[i..rbLen]);
        return Err(SaveFailed);
      }
      r := Ok(());
    }
  }
}
