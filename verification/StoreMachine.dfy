/** The store's methods carry out the steps of the runs the invariants are
    proved over, and keep the disk in step with memory. */
module StoreMachine {
  import opened Records
  import opened FileStore
  import opened StoreRuns
  import AuditReplay
  import Disk
  import Names
  import Ops

  /** Either nothing was saved and nothing changed, or the new state was saved. */
  ghost predicate InStep<S>(before: S, after: S, disk: seq<Mem>, disk': seq<Mem>, now: Mem) {
    (disk' == disk && after == before) || disk' == disk + [now]
  }

  lemma Committed<S, T>(before: S, after: S, disk: seq<Mem>, disk': seq<Mem>, now: Mem, intent: Intent<S, T>,
                        r: Result<T>)
    requires Transaction(before, after, disk, disk', now, intent, r) && intent.result != Err(SaveFailed)
    ensures after == AuditReplay.Commit(before, intent, r != Err(SaveFailed))
    ensures InStep(before, after, disk, disk', now)
  {}

  /** The call was carried out if no save failed; other than for the two alarm
      calls, memory and disk have moved together. */
  ghost predicate Performed(m: Mem, m': Mem, c: Call, disk: seq<Mem>, disk': seq<Mem>, refused: nat, refused': nat) {
    && refused <= refused' && m' == Step(m, c, refused' == refused)
    && (!c.SeedAlarms? && !c.AckAlarm? ==> InStep(m, m', disk, disk', m'))
  }

  ghost predicate TenancyPerformed(v: Tenancy, v': Tenancy, t: AuditReplay.Call, disk: seq<Mem>, disk': seq<Mem>,
                                   now: Mem,
                                   refused: nat, refused': nat)
  {
    && refused <= refused' && v' == AuditReplay.Step(v, t, refused' == refused)
    && InStep(v, v', disk, disk', now)
  }

  method TenantCall(st: Store, t: AuditReplay.Call)
    requires st.Valid() && AuditReplay.Fresh(st.TenancyView(), t)
             && (t.CreateTenant? || t.UpdateTier? || t.DeleteTenant?)
    modifies st`tenants, st`orgs, st`tenantAuds, st`saved, st`refused
    ensures st.Valid()
    ensures TenancyPerformed(old(st.TenancyView()), st.TenancyView(), t, old(st.saved), st.saved, st.Contents(),
                             old(st.refused), st.refused)
  {
    ghost var v, d := st.TenancyView(), st.saved;
    match t {
      case CreateTenant(a, b, p, now, o, x, y) =>
        var r := st.CreateTenant(a, b, p, now, o, x, y);
        Committed(v, st.TenancyView(), d, st.saved, st.Contents(), Ops.CreateTenant(v, a, b, p, now, o, x, y), r);
      case UpdateTier(a, b, p, now, x) =>
        var r := st.UpdateTenantTier(a, b, p, now, x);
        Committed(v, st.TenancyView(), d, st.saved, st.Contents(), Ops.UpdateTenantTier(v, a, b, p, now, x), r);
      case DeleteTenant(a, p, now, x) =>
        var r := st.DeleteTenant(a, p, now, x);
        Committed(v, st.TenancyView(), d, st.saved, st.Contents(), Ops.DeleteTenant(v, a, p, now, x), r);
    }
  }

  method OrgCall(st: Store, t: AuditReplay.Call)
    requires st.Valid() && AuditReplay.Fresh(st.TenancyView(), t) && (t.CreateOrg? || t.RenameOrg? || t.DeleteOrg?)
    modifies st`orgs, st`tenantAuds, st`saved, st`refused
    ensures st.Valid()
    ensures TenancyPerformed(old(st.TenancyView()), st.TenancyView(), t, old(st.saved), st.saved, st.Contents(),
                             old(st.refused), st.refused)
  {
    ghost var v, d := st.TenancyView(), st.saved;
    match t {
      case CreateOrg(a, b, p, now, o, x) =>
        var r := st.CreateOrg(a, b, p, now, o, x);
        Committed(v, st.TenancyView(), d, st.saved, st.Contents(), Ops.CreateOrg(v, a, b, p, now, o, x), r);
      case RenameOrg(a, b, p, now, x) =>
        var r := st.RenameOrg(a, b, p, now, x);
        Committed(v, st.TenancyView(), d, st.saved, st.Contents(), Ops.RenameOrg(v, a, b, p, now, x), r);
      case DeleteOrg(a, p, now, x) =>
        var r := st.DeleteOrg(a, p, now, x);
        Committed(v, st.TenancyView(), d, st.saved, st.Contents(), Ops.DeleteOrg(v, a, p, now, x), r);
    }
  }

  method SiteCall(st: Store, t: AuditReplay.Call)
    requires st.Valid() && AuditReplay.Fresh(st.TenancyView(), t) && (t.Attach? || t.Detach?)
    modifies st`siteOrgs, st`tenantAuds, st`saved, st`refused
    ensures st.Valid()
    ensures TenancyPerformed(old(st.TenancyView()), st.TenancyView(), t, old(st.saved), st.saved, st.Contents(),
                             old(st.refused), st.refused)
  {
    ghost var v, d := st.TenancyView(), st.saved;
    match t {
      case Attach(a, b, p, now, x) =>
        var r := st.AttachSiteToOrg(a, b, p, now, x);
        Committed(v, st.TenancyView(), d, st.saved, st.Contents(), Ops.AttachSiteToOrg(v, a, b, p, now, x), r);
      case Detach(a, p, now, x) =>
        var r := st.DetachSiteFromOrg(a, p, now, x);
        Committed(v, st.TenancyView(), d, st.saved, st.Contents(), Ops.DetachSiteFromOrg(v, a, p, now, x), r);
    }
  }

  method TenancyCall(st: Store, t: AuditReplay.Call)
    requires st.Valid() && AuditReplay.Fresh(st.TenancyView(), t)
    modifies st`tenants, st`orgs, st`siteOrgs, st`tenantAuds, st`saved, st`refused
    ensures st.Valid()
    ensures TenancyPerformed(old(st.TenancyView()), st.TenancyView(), t, old(st.saved), st.saved, st.Contents(),
                             old(st.refused), st.refused)
  {
    if t.CreateTenant? || t.UpdateTier? || t.DeleteTenant? {
      TenantCall(st, t);
    } else if t.Attach? || t.Detach? {
      SiteCall(st, t);
    } else {
      OrgCall(st, t);
    }
  }

  method AssetCall(st: Store, c: Call)
    requires st.Valid() && (c.PutAsset? || c.DeleteAsset?)
    modifies st`assets, st`saved, st`refused
    ensures st.Valid()
    ensures Performed(old(st.Contents()), st.Contents(), c, old(st.saved), st.saved, old(st.refused), st.refused)
  {
    ghost var m, d := st.Contents(), st.saved;
    match c {
      case PutAsset(a, v, now) =>
        var r := st.PutAsset(a, v, now);
        Committed(m.assets, st.assets, d, st.saved, st.Contents(), Ops.PutAsset(m.assets, a, v, now), r);
      case DeleteAsset(p, k) =>
        var r := st.DeleteAsset(p, k);
        Committed(m.assets, st.assets, d, st.saved, st.Contents(), Ops.DeleteAsset(m.assets, p, k), r);
    }
  }

  method TicketCall(st: Store, c: Call)
    requires st.Valid() && (c.PutTicket? || c.UpdateTicketAssignee?)
    modifies st`tickets, st`saved, st`refused
    ensures st.Valid()
    ensures Performed(old(st.Contents()), st.Contents(), c, old(st.saved), st.saved, old(st.refused), st.refused)
  {
    ghost var m, d := st.Contents(), st.saved;
    match c {
      case PutTicket(t, v) =>
        var r := st.PutTicket(t, v);
        Committed(m.tickets, st.tickets, d, st.saved, st.Contents(), Ops.PutTicket(m.tickets, t, v), r);
      case UpdateTicketAssignee(id, who) =>
        var r := st.UpdateTicketAssignee(id, who);
        Committed(m.tickets, st.tickets, d, st.saved, st.Contents(), Ops.UpdateTicketAssignee(m.tickets, id, who), r);
    }
  }

  method ScheduleCall(st: Store, c: Call)
    requires st.Valid() && (c.PutPMSchedule? || c.PutInspectionTemplate?)
    modifies st`pmSchedules, st`inspections, st`saved, st`refused
    ensures st.Valid()
    ensures Performed(old(st.Contents()), st.Contents(), c, old(st.saved), st.saved, old(st.refused), st.refused)
  {
    ghost var m, d := st.Contents(), st.saved;
    match c {
      case PutPMSchedule(p) =>
        var r := st.PutPMSchedule(p);
        Committed(m.pmSchedules, st.pmSchedules, d, st.saved, st.Contents(), Ops.Upsert(m.pmSchedules, p.id, p), r);
      case PutInspectionTemplate(i) =>
        var r := st.PutInspectionTemplate(i);
        Committed(m.inspections, st.inspections, d, st.saved, st.Contents(), Ops.Upsert(m.inspections, i.id, i), r);
    }
  }

  method StockCall(st: Store, c: Call)
    requires st.Valid() && (c.PutSpare? || c.AdjustSpare?)
    modifies st`spares, st`spareTxns, st`saved, st`refused
    ensures st.Valid()
    ensures Performed(old(st.Contents()), st.Contents(), c, old(st.saved), st.saved, old(st.refused), st.refused)
  {
    ghost var m, d := st.Contents(), st.saved;
    match c {
      case PutSpare(sp) =>
        var r := st.PutSpare(sp);
        Committed(m.stock, st.StockView(), d, st.saved, st.Contents(), Ops.PutSpare(m.stock, sp), r);
      case AdjustSpare(id, delta, tk, now, x) =>
        var r := st.AdjustSpare(id, delta, tk, now, x);
        Committed(m.stock, st.StockView(), d, st.saved, st.Contents(), Ops.AdjustSpare(m.stock, id, delta, tk, now, x),
          r);
    }
  }

  method SetAuditCall(st: Store, a: SetAudit)
    requires st.Valid()
    modifies st`setAudits, st`saved, st`refused
    ensures st.Valid()
    ensures Performed(old(st.Contents()), st.Contents(), AppendSetAudit(a), old(st.saved), st.saved, old(st.refused),
                      st.refused)
  {
    ghost var m, d := st.Contents(), st.saved;
    var r := st.AppendSetAudit(a);
    Committed(m.setAudits, st.setAudits, d, st.saved, st.Contents(), Ops.AppendSetAudit(m.setAudits, a), r);
  }

  method PutBindingCall(st: Store, rb: RoleBinding, now: Time, id: string)
    requires st.Valid()
    modifies st`rbData, st`rbLen, st.rbData, st`saved, st`refused
    ensures st.Valid() && (st.rbData == old(st.rbData) || fresh(st.rbData))
    ensures Performed(old(st.Contents()), st.Contents(), PutRoleBinding(rb, now, id), old(st.saved), st.saved,
                      old(st.refused), st.refused)
  {
    ghost var m, d := st.Contents(), st.saved;
    var r := st.PutRoleBinding(rb, now, id);
    Committed(m.roleBindings, st.rbData[..st.rbLen], d, st.saved, st.Contents(),
              Ops.PutRoleBinding(m.roleBindings, rb, now, id), r);
  }

  method DeleteBindingCall(st: Store, subject: string, scope: string)
    requires st.Valid()
    modifies st`rbLen, st.rbData, st`saved, st`refused
    ensures st.Valid()
    ensures Performed(old(st.Contents()), st.Contents(), DeleteRoleBinding(subject, scope), old(st.saved), st.saved,
                      old(st.refused), st.refused)
  {
    ghost var m, d := st.Contents(), st.saved;
    var r := st.DeleteRoleBinding(subject, scope);
    Committed(m.roleBindings, st.rbData[..st.rbLen], d, st.saved, st.Contents(),
              Ops.DeleteRoleBinding(m.roleBindings, subject, scope), r);
  }

  method AlarmCall(st: Store, c: Call)
    requires st.Valid() && (c.SeedAlarms? || c.AckAlarm?)
    modifies st`alarms, st`saved, st`refused
    ensures st.Valid()
    ensures Performed(old(st.Contents()), st.Contents(), c, old(st.saved), st.saved, old(st.refused), st.refused)
  {
    match c {
      case SeedAlarms(input) => var _ := st.SeedAlarms(input);
      case AckAlarm(id, who, now) => var _ := st.AckAlarm(id, who, now);
    }
  }

  /** Any call, on the store object. */
  method Perform(st: Store, c: Call)
    requires st.Valid() && Fresh(st.Contents(), c)
    modifies st, st.rbData
    ensures st.Valid() && (st.rbData == old(st.rbData) || fresh(st.rbData))
    ensures Performed(old(st.Contents()), st.Contents(), c, old(st.saved), st.saved, old(st.refused), st.refused)
  {
    if c.OfTenancy? {
      TenancyCall(st, c.call);
    } else if c.PutRoleBinding? {
      PutBindingCall(st, c.binding, c.now, c.freshId);
    } else if c.DeleteRoleBinding? {
      DeleteBindingCall(st, c.subject, c.scope);
    } else if c.SeedAlarms? || c.AckAlarm? {
      AlarmCall(st, c);
    } else if c.PutAsset? || c.DeleteAsset? {
      AssetCall(st, c);
    } else if c.PutTicket? || c.UpdateTicketAssignee? {
      TicketCall(st, c);
    } else if c.PutPMSchedule? || c.PutInspectionTemplate? {
      ScheduleCall(st, c);
    } else if c.AppendSetAudit? {
      SetAuditCall(st, c.audit);
    } else {
      StockCall(st, c);
    }
  }

  // ---- Whole runs on the store object -------------------------------------------

  predicate Creates(c: Call) { c.OfTenancy? && (c.call.CreateTenant? || c.call.CreateOrg?) }

  /** The org ids drawn for the calls are new and all different. */
  ghost predicate NewOrgIds(calls: seq<Call>, orgs: map<string, Org>) {
    && (forall i :: 0 <= i < |calls| && Creates(calls[i]) ==>
          Names.ValidId(calls[i].call.orgId) && calls[i].call.orgId !in orgs)
    && (forall i, j :: 0 <= i < j < |calls| && Creates(calls[i]) && Creates(calls[j]) ==>
          calls[i].call.orgId != calls[j].call.orgId)
  }

  /** A call adds at most the org whose id was drawn for it. */
  lemma {:induction false} OrgsAdded(m: Mem, c: Call, saved: bool, id: string)
    requires id in Step(m, c, saved).tenancy.orgs && id !in m.tenancy.orgs
    ensures Creates(c) && c.call.orgId == id
  {}

  lemma {:induction false} StillNew(m: Mem, calls: seq<Call>, saved: bool)
    requires calls != [] && NewOrgIds(calls, m.tenancy.orgs)
    ensures Fresh(m, calls[0]) && NewOrgIds(calls[1..], Step(m, calls[0], saved).tenancy.orgs)
  {
    var orgs := Step(m, calls[0], saved).tenancy.orgs;
    assert Creates(calls[0]) ==> calls[0].call.orgId !in m.tenancy.orgs;
    forall i | 0 <= i < |calls[1..]| && Creates(calls[1..][i])
      ensures Names.ValidId(calls[1..][i].call.orgId) && calls[1..][i].call.orgId !in orgs
    {
      assert calls[1..][i] == calls[i + 1];
      var id := calls[i + 1].call.orgId;
      if id in orgs { OrgsAdded(m, calls[0], saved, id); }
    }
  }

  predicate NoAlarmCalls(calls: seq<Call>) {
    forall i :: 0 <= i < |calls| ==> !calls[i].SeedAlarms? && !calls[i].AckAlarm?
  }

  ghost predicate AtLast(m: Mem, disk: seq<Mem>) { |disk| > 0 && disk[|disk| - 1] == m }

  lemma RunCons(m: Mem, c: Call, saved: bool, rest: seq<(Call, bool)>)
    ensures Run(m, [(c, saved)] + rest) == Run(Step(m, c, saved), rest)
    ensures RunFresh(m, [(c, saved)] + rest) <==> Fresh(m, c) && RunFresh(Step(m, c, saved), rest)
  {
    assert ([(c, saved)] + rest)[1..] == rest;
  }

  /** `log` is the calls, each with whether it counts as saved; all do if no save
      failed. */
  ghost predicate IsLog(log: seq<(Call, bool)>, calls: seq<Call>, clean: bool) {
    && |log| == |calls|
    && forall i :: 0 <= i < |calls| ==> log[i].0 == calls[i] && (clean ==> log[i].1)
  }

  lemma LogCons(c: Call, saved: bool, rest: seq<(Call, bool)>, calls: seq<Call>, clean: bool)
    requires calls != [] && calls[0] == c && (clean ==> saved) && IsLog(rest, calls[1..], clean)
    ensures IsLog([(c, saved)] + rest, calls, clean)
  {
    var log := [(c, saved)] + rest;
    forall i | 0 <= i < |calls| ensures log[i].0 == calls[i] && (clean ==> log[i].1) {
      if i > 0 {
        assert log[i] == rest[i - 1] && calls[1..][i - 1] == calls[i];
      }
    }
  }

  lemma LogWeaker(rest: seq<(Call, bool)>, calls: seq<Call>, clean: bool, less: bool)
    requires IsLog(rest, calls, clean) && (less ==> clean)
    ensures IsLog(rest, calls, less)
  {}

  lemma StaysLast(m: Mem, m': Mem, c: Call, disk: seq<Mem>, disk': seq<Mem>, refused: nat, refused': nat)
    requires Performed(m, m', c, disk, disk', refused, refused') && AtLast(m, disk)
    ensures !c.SeedAlarms? && !c.AckAlarm? ==> AtLast(m', disk')
  {}

  /** The calls one after the other. */
  method RunCalls(st: Store, calls: seq<Call>, ghost synced: bool) returns (ghost log: seq<(Call, bool)>)
    requires st.Valid() && NewOrgIds(calls, st.orgs) && (synced ==> AtLast(st.Contents(), st.saved))
    modifies st, st.rbData
    ensures st.Valid() && RunFresh(old(st.Contents()), log) && st.Contents() == Run(old(st.Contents()), log)
    ensures st.refused >= old(st.refused) && IsLog(log, calls, st.refused == old(st.refused))
    ensures NoAlarmCalls(calls) && synced ==> AtLast(st.Contents(), st.saved)
    decreases |calls|
  {
    log := [];
    if calls != [] {
      ghost var m, d, f := st.Contents(), st.saved, st.refused;
      StillNew(m, calls, true);
      StillNew(m, calls, false);
      Perform(st, calls[0]);
      ghost var s, g := st.refused == f, st.refused;
      ghost var still := synced && !calls[0].SeedAlarms? && !calls[0].AckAlarm?;
      if synced { StaysLast(m, st.Contents(), calls[0], d, st.saved, f, g); }
      ghost var rest := RunCalls(st, calls[1..], still);
      log := [(calls[0], s)] + rest;
      RunCons(m, calls[0], s, rest);
      LogWeaker(rest, calls[1..], st.refused == g, st.refused == f);
      LogCons(calls[0], s, rest, calls, st.refused == f);
    }
  }

  const BLANK := Disk.Shape(1, [], [], [], [], [], [], [], [], [], [], [], [], [])

  /** From an empty file, any calls in any order and any saves failing: the store
      holds what the calls that were saved make of it, is well-formed, its audit log
      tells its tenancy, and without the two alarm calls memory is what the disk
      holds. */
  method Serve(calls: seq<Call>) returns (st: Store, ghost log: seq<(Call, bool)>)
    requires NewOrgIds(calls, map[])
    ensures st.Valid() && IsLog(log, calls, st.refused == 0) && st.Contents() == Run(EMPTY, log)
    ensures st.Valid() && WellFormed(st.Contents())
    ensures AuditReplay.Replay(st.tenantAuds) == AuditReplay.ViewOf(st.TenancyView())
    ensures NoAlarmCalls(calls) ==> st.Synced()
  {
    st := new Store(BLANK);
    assert st.Contents() == EMPTY;
    log := RunCalls(st, calls, true);
    EveryRun(log);
  }
}
