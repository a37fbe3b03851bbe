/** What every run of the store keeps: keys, references and uniqueness, and
    the stock ledger. */
module StoreRuns {
  import opened Text
  import opened Names
  import opened Records
  import Ops
  import AuditReplay
  import Disk

  // ---- Invariants by collection -------------------------------------------

  ghost predicate AssetsOk(assets: map<string, Asset>) {
    forall p :: p in assets ==> assets[p].path == p && assets[p].version >= 1
  }

  predicate SameAlarm(a: Ticket, b: Ticket) { Ops.Active(a) && Ops.Active(b) && a.alarmId == b.alarmId }

  /** At most one ticket that is not closed carries a given alarm id. */
  ghost predicate OneActive(tickets: map<string, Ticket>) {
    forall a, b :: a in tickets && b in tickets && SameAlarm(tickets[a], tickets[b]) ==> a == b
  }

  ghost predicate TicketsOk(tickets: map<string, Ticket>) {
    && (forall id :: id in tickets ==> tickets[id].id == id && tickets[id].version >= 1)
    && OneActive(tickets)
  }

  ghost predicate SparesOk(spares: map<string, SparePart>) {
    && (forall id :: id in spares ==> spares[id].id == id)
    && (forall a, b :: a in spares && b in spares && spares[a].sku == spares[b].sku ==> a == b)
  }

  /** (subject, scope) is unique and neither is empty. */
  ghost predicate BindingsOk(rows: seq<RoleBinding>) {
    && (forall i :: 0 <= i < |rows| ==> rows[i].subject != "" && rows[i].scope != "")
    && (forall i, j :: 0 <= i < j < |rows| ==> rows[i].subject != rows[j].subject || rows[i].scope != rows[j].scope)
  }

  ghost predicate AlarmsOk(alarms: map<string, Alarm>) {
    forall id :: id in alarms ==> alarms[id].id == id
  }

  ghost predicate WellFormed(m: Mem) {
    && AssetsOk(m.assets) && AlarmsOk(m.alarms) && TicketsOk(m.tickets)
    && (forall id :: id in m.pmSchedules ==> m.pmSchedules[id].id == id)
    && (forall id :: id in m.inspections ==> m.inspections[id].id == id)
    && SparesOk(m.stock.spares) && AuditReplay.TenancyOk(m.tenancy) && BindingsOk(m.roleBindings)
  }

  lemma WellFormedKeyed(m: Mem)
    requires WellFormed(m)
    ensures Disk.KeysOk(m)
  {}

  // ---- Each collection's mutators keep its invariant ----------------------

  lemma PutTicketOk(tickets: map<string, Ticket>, t: Ticket, expectVersion: int)
    requires TicketsOk(tickets)
    ensures var i := Ops.PutTicket(tickets, t, expectVersion); i.Write? ==> TicketsOk(i.state)
  {}

  lemma AssignOk(tickets: map<string, Ticket>, id: string, assignee: string)
    requires TicketsOk(tickets)
    ensures var i := Ops.UpdateTicketAssignee(tickets, id, assignee); i.Write? ==> TicketsOk(i.state)
  {}

  lemma AssetCallsOk(assets: map<string, Asset>, a: Asset, expectVersion: int, now: Time, path: string, cascade: bool)
    requires AssetsOk(assets)
    ensures var i := Ops.PutAsset(assets, a, expectVersion, now); i.Write? ==> AssetsOk(i.state)
    ensures var i := Ops.DeleteAsset(assets, path, cascade); i.Write? ==> AssetsOk(i.state)
  {}

  lemma PutSpareOk(stock: Stock, sp: SparePart)
    requires SparesOk(stock.spares)
    ensures var i := Ops.PutSpare(stock, sp); i.Write? ==> SparesOk(i.state.spares)
  {}

  lemma AdjustSpareOk(stock: Stock, id: string, delta: int, ticketId: string, at: Time, txnId: string)
    requires SparesOk(stock.spares)
    ensures var i := Ops.AdjustSpare(stock, id, delta, ticketId, at, txnId); i.Write? ==> SparesOk(i.state.spares)
  {}

  lemma {:induction false} SeedOk(alarms: map<string, Alarm>, input: seq<Alarm>)
    requires AlarmsOk(alarms)
    ensures AlarmsOk(Ops.SeedAll(alarms, input))
    decreases |input|
  {
    if input != [] {
      SeedOk(Ops.SeedOne(alarms, input[0]), input[1..]);
    }
  }

  lemma PutRowOk(rows: seq<RoleBinding>, rb: RoleBinding, now: Time)
    requires BindingsOk(rows) && rb.subject != "" && rb.scope != ""
    ensures BindingsOk(Ops.PutRow(rows, rb, now))
  {
    var i := Ops.Find(rows, rb.subject, rb.scope);
    var next := Ops.PutRow(rows, rb, now);
    if i == |rows| {
      forall j | 0 <= j < |rows| ensures next[j].subject != rb.subject || next[j].scope != rb.scope {
        assert !Ops.At(rows, j, rb.subject, rb.scope);
      }
    }
  }

  lemma BindingCallsOk(rows: seq<RoleBinding>, rb: RoleBinding, now: Time, freshId: string, subject: string,
                       scope: string)
    requires BindingsOk(rows)
    ensures var i := Ops.PutRoleBinding(rows, rb, now, freshId); i.Write? ==> BindingsOk(i.state)
    ensures var i := Ops.DeleteRoleBinding(rows, subject, scope); i.Write? ==> BindingsOk(i.state)
  {
    if rb.subject != "" && rb.scope != "" {
      PutRowOk(rows, Ops.Filled(rb, freshId), now);
    }
    var i := Ops.Find(rows, subject, scope);
    if i < |rows| {
      DeleteRowOk(rows, i);
    }
  }

  lemma DeleteRowOk(rows: seq<RoleBinding>, i: nat)
    requires BindingsOk(rows) && i < |rows|
    ensures BindingsOk(rows[..i] + rows[i + 1..])
  {
    var cut := rows[..i] + rows[i + 1..];
    assert forall j :: 0 <= j < |cut| ==> cut[j] == rows[if j < i then j else j + 1];
  }

  // ---- Whole runs ---------------------------------------------------------

  datatype Call =
    | PutAsset(asset: Asset, expectVersion: int, now: Time)
    | DeleteAsset(path: string, cascade: bool)
    | SeedAlarms(input: seq<Alarm>)
    | AckAlarm(id: string, actor: string, now: Time)
    | PutTicket(ticket: Ticket, expectVersion: int)
    | UpdateTicketAssignee(id: string, assignee: string)
    | PutPMSchedule(schedule: PMSchedule)
    | PutInspectionTemplate(template: InspectionTemplate)
    | PutSpare(spare: SparePart)
    | AdjustSpare(id: string, delta: int, ticketId: string, now: Time, txnId: string)
    | AppendSetAudit(audit: SetAudit)
    | OfTenancy(call: AuditReplay.Call)
    | PutRoleBinding(binding: RoleBinding, now: Time, freshId: string)
    | DeleteRoleBinding(subject: string, scope: string)

  /** The state after a call. The two alarm calls change memory even when the
      save fails. */
  function Step(m: Mem, c: Call, saved: bool): Mem {
    match c
    case PutAsset(a, v, now) => m.(assets := AuditReplay.Commit(m.assets, Ops.PutAsset(m.assets, a, v, now), saved))
    case DeleteAsset(p, k) => m.(assets := AuditReplay.Commit(m.assets, Ops.DeleteAsset(m.assets, p, k), saved))
    case SeedAlarms(input) => m.(alarms := Ops.SeedAll(m.alarms, input))
    case AckAlarm(id, who, now) =>
      m.(alarms := AuditReplay.Commit(m.alarms, Ops.AckAlarm(m.alarms, id, who, now), true))
    case PutTicket(t, v) => m.(tickets := AuditReplay.Commit(m.tickets, Ops.PutTicket(m.tickets, t, v), saved))
    case UpdateTicketAssignee(id, who) =>
      m.(tickets := AuditReplay.Commit(m.tickets, Ops.UpdateTicketAssignee(m.tickets, id, who), saved))
    case PutPMSchedule(p) =>
      m.(pmSchedules := AuditReplay.Commit(m.pmSchedules, Ops.Upsert(m.pmSchedules, p.id, p), saved))
    case PutInspectionTemplate(i) =>
      m.(inspections := AuditReplay.Commit(m.inspections, Ops.Upsert(m.inspections, i.id, i), saved))
    case PutSpare(sp) => m.(stock := AuditReplay.Commit(m.stock, Ops.PutSpare(m.stock, sp), saved))
    case AdjustSpare(id, d, tk, now, x) =>
      m.(stock := AuditReplay.Commit(m.stock, Ops.AdjustSpare(m.stock, id, d, tk, now, x), saved))
    case AppendSetAudit(a) =>
      m.(setAudits := AuditReplay.Commit(m.setAudits, Ops.AppendSetAudit(m.setAudits, a), saved))
    case OfTenancy(t) => m.(tenancy := AuditReplay.Step(m.tenancy, t, saved))
    case PutRoleBinding(rb, now, id) =>
      m.(roleBindings := AuditReplay.Commit(m.roleBindings, Ops.PutRoleBinding(m.roleBindings, rb, now, id), saved))
    case DeleteRoleBinding(s, sc) =>
      m.(roleBindings := AuditReplay.Commit(m.roleBindings, Ops.DeleteRoleBinding(m.roleBindings, s, sc), saved))
  }

  predicate Fresh(m: Mem, c: Call) { c.OfTenancy? ==> AuditReplay.Fresh(m.tenancy, c.call) }

  function Run(m: Mem, calls: seq<(Call, bool)>): Mem
    decreases |calls|
  {
    if calls == [] then m else Run(Step(m, calls[0].0, calls[0].1), calls[1..])
  }

  predicate RunFresh(m: Mem, calls: seq<(Call, bool)>)
    decreases |calls|
  {
    calls == [] || (Fresh(m, calls[0].0) && RunFresh(Step(m, calls[0].0, calls[0].1), calls[1..]))
  }

  const EMPTY := Mem(map[], map[], map[], map[], map[], Stock(map[], []), [], Tenancy(map[], map[], map[], []), [])

  /** The part of the invariant that speaks of tenants also carries the log. */
  ghost predicate Good(m: Mem) { WellFormed(m) && AuditReplay.Good(m.tenancy) }

  lemma AssetAlarmTicketStep(m: Mem, c: Call, saved: bool)
    requires Good(m) && (c.PutAsset? || c.DeleteAsset? || c.SeedAlarms? || c.AckAlarm? || c.PutTicket?
             || c.UpdateTicketAssignee?)
    ensures Good(Step(m, c, saved))
  {
    match c {
      case PutAsset(a, v, now) => AssetCallsOk(m.assets, a, v, now, "", false);
      case DeleteAsset(p, k) => AssetCallsOk(m.assets, Asset(p, 0, map[], 0, 0), 0, 0, p, k);
      case SeedAlarms(input) => SeedOk(m.alarms, input);
      case PutTicket(t, v) => PutTicketOk(m.tickets, t, v);
      case UpdateTicketAssignee(id, who) => AssignOk(m.tickets, id, who);
      case _ =>
    }
  }

  lemma StockTenancyStep(m: Mem, c: Call, saved: bool)
    requires Good(m) && Fresh(m, c) && (c.PutSpare? || c.AdjustSpare? || c.OfTenancy? || c.AppendSetAudit?)
    ensures Good(Step(m, c, saved))
  {
    match c {
      case PutSpare(sp) => PutSpareOk(m.stock, sp);
      case AdjustSpare(id, d, tk, now, x) => AdjustSpareOk(m.stock, id, d, tk, now, x);
      case OfTenancy(t) => AuditReplay.StepGood(m.tenancy, t, saved);
      case _ =>
    }
  }

  lemma {:induction false} ScheduleBindingStep(m: Mem, c: Call, saved: bool)
    requires Good(m) && (c.PutPMSchedule? || c.PutInspectionTemplate? || c.PutRoleBinding? || c.DeleteRoleBinding?)
    ensures Good(Step(m, c, saved))
  {
    match c {
      case PutRoleBinding(rb, now, id) => BindingCallsOk(m.roleBindings, rb, now, id, "", "");
      case DeleteRoleBinding(s, sc) => BindingCallsOk(m.roleBindings, RoleBinding("", "", "", "", 0, 0), 0, "", s, sc);
      case _ =>
    }
  }

  lemma StepGood(m: Mem, c: Call, saved: bool)
    requires Good(m) && Fresh(m, c)
    ensures Good(Step(m, c, saved))
  {
    if c.PutSpare? || c.AdjustSpare? || c.OfTenancy? || c.AppendSetAudit? {
      StockTenancyStep(m, c, saved);
    } else if c.PutPMSchedule? || c.PutInspectionTemplate? || c.PutRoleBinding? || c.DeleteRoleBinding? {
      ScheduleBindingStep(m, c, saved);
    } else {
      AssetAlarmTicketStep(m, c, saved);
    }
  }

  lemma {:induction false} RunGood(m: Mem, calls: seq<(Call, bool)>)
    requires Good(m) && RunFresh(m, calls)
    ensures Good(Run(m, calls))
    decreases |calls|
  {
    if calls != [] {
      StepGood(m, calls[0].0, calls[0].1);
      RunGood(Step(m, calls[0].0, calls[0].1), calls[1..]);
    }
  }

  /** After any run from the empty store, whatever saves fail, references and
      uniqueness hold, the audit log replays to the tenancy, and a saved copy
      loads back to the same state. */
  lemma {:induction false} EveryRun(calls: seq<(Call, bool)>)
    requires RunFresh(EMPTY, calls)
    ensures var m := Run(EMPTY, calls);
            && WellFormed(m)
            && AuditReplay.Replay(m.tenancy.auds) == AuditReplay.ViewOf(m.tenancy)
            && Disk.Decode(Disk.Encode(m)).(roleBindings := m.roleBindings) == m
            && multiset(Disk.Decode(Disk.Encode(m)).roleBindings) == multiset(m.roleBindings)
  {
    RunGood(EMPTY, calls);
    WellFormedKeyed(Run(EMPTY, calls));
    Disk.LoadAfterSave(Run(EMPTY, calls));
  }

  // ---- Versions -------------------------------------------------------------

  /** While an asset stays, any change to it raises its version. */
  ghost predicate AssetMoves(was: map<string, Asset>, is_: map<string, Asset>, path: string) {
    path in was && path in is_ ==> is_[path] == was[path] || is_[path].version > was[path].version
  }

  lemma AssetStepMoves(m: Mem, c: Call, saved: bool, path: string)
    ensures AssetMoves(m.assets, Step(m, c, saved).assets, path)
  {}

  /** The asset is there all through the run. */
  ghost predicate Lives(m: Mem, calls: seq<(Call, bool)>, path: string)
    decreases |calls|
  {
    path in m.assets && (calls == [] || Lives(Step(m, calls[0].0, calls[0].1), calls[1..], path))
  }

  lemma {:induction false} VersionNeverFalls(m: Mem, calls: seq<(Call, bool)>, path: string)
    requires Lives(m, calls, path)
    ensures path in Run(m, calls).assets && AssetMoves(m.assets, Run(m, calls).assets, path)
    decreases |calls|
  {
    if calls != [] {
      var next := Step(m, calls[0].0, calls[0].1);
      AssetStepMoves(m, calls[0].0, calls[0].1, path);
      VersionNeverFalls(next, calls[1..], path);
    }
  }

  /** No lost update: once a write with an expected version is in, no other with
      that expectation gets in as long as the asset is not deleted. */
  lemma NoLostUpdate(m: Mem, a: Asset, v: int, t: Time, calls: seq<(Call, bool)>, b: Asset, later: Time)
    requires v > 0 && Ops.PutAsset(m.assets, a, v, t).Write? && b.path == a.path
    requires Lives(Step(m, PutAsset(a, v, t), true), calls, a.path)
    ensures var n := Run(Step(m, PutAsset(a, v, t), true), calls);
            Ops.PutAsset(n.assets, b, v, later) == Answer(Err(VersionConflict))
  {
    VersionNeverFalls(Step(m, PutAsset(a, v, t), true), calls, a.path);
  }

  /** `v` writes of an asset, each expecting nothing. */
  function Puts(a: Asset, v: nat, t: Time): seq<(Call, bool)> {
    if v == 0 then [] else [(PutAsset(a, 0, t), true)] + Puts(a, v - 1, t)
  }

  lemma {:induction false} PutsCount(m: Mem, a: Asset, v: nat, t: Time)
    requires v > 0
    ensures var n := Run(m, Puts(a, v, t)).assets;
            && a.path in n
            && n[a.path].version == (if a.path in m.assets then m.assets[a.path].version else 0) + v
    decreases v
  {
    var next := Step(m, PutAsset(a, 0, t), true);
    assert Puts(a, v, t)[1..] == Puts(a, v - 1, t);
    assert Run(m, Puts(a, v, t)) == Run(next, Puts(a, v - 1, t));
    if v > 1 { PutsCount(next, a, v - 1, t); }
  }

  /** A deletion starts the count again: from any state, deleting an asset and
      writing it as often as its old version says makes any old expectation hold. */
  lemma RecreatedAccepts(m: Mem, a: Asset, v: nat, t: Time, b: Asset, later: Time)
    requires v > 0 && b.path == a.path
    ensures var calls := [(DeleteAsset(a.path, true), true)] + Puts(a, v, t);
            Ops.PutAsset(Run(m, calls).assets, b, v, later).Write?
  {
    var calls := [(DeleteAsset(a.path, true), true)] + Puts(a, v, t);
    var gone := Step(m, DeleteAsset(a.path, true), true);
    assert calls[1..] == Puts(a, v, t);
    assert a.path !in gone.assets;
    PutsCount(gone, a, v, t);
  }

  /** The same for tickets, which are never deleted; an assignee may change
      without the version. */
  ghost predicate TicketMoves(was: map<string, Ticket>, is_: map<string, Ticket>, id: string) {
    id in was ==>
      && id in is_
      && (is_[id] == was[id].(assignee := is_[id].assignee) || is_[id].version > was[id].version)
  }

  lemma TicketStepMoves(m: Mem, c: Call, saved: bool, id: string)
    ensures TicketMoves(m.tickets, Step(m, c, saved).tickets, id)
  {}

  lemma {:induction false} TicketsOnlyMove(m: Mem, calls: seq<(Call, bool)>, id: string)
    ensures TicketMoves(m.tickets, Run(m, calls).tickets, id)
    decreases |calls|
  {
    if calls != [] {
      TicketStepMoves(m, calls[0].0, calls[0].1, id);
      TicketsOnlyMove(Step(m, calls[0].0, calls[0].1), calls[1..], id);
    }
  }

  lemma NoLostTicketUpdate(m: Mem, a: Ticket, v: int, calls: seq<(Call, bool)>, b: Ticket)
    requires v > 0 && Ops.PutTicket(m.tickets, a, v).Write? && b.id == a.id
    ensures var n := Run(Step(m, PutTicket(a, v), true), calls);
            Ops.PutTicket(n.tickets, b, v).Answer? && Ops.PutTicket(n.tickets, b, v).result.Err?
  {
    TicketsOnlyMove(Step(m, PutTicket(a, v), true), calls, a.id);
  }

  // ---- The stock ledger ---------------------------------------------------

  /** The deltas logged for a spare. */
  function Moved(txns: seq<SpareTxn>, id: string): int {
    if txns == [] then 0
    else
      var last := txns[|txns| - 1];
      Moved(txns[..|txns| - 1], id) + (if last.spareId == id then last.delta else 0)
  }

  /** A spare is created once, with a quantity that is not negative, under a
      fresh id; after that it is only adjusted. */
  datatype Movement =
    | Create(spare: SparePart)
    | Adjust(id: string, delta: int, ticketId: string, at: Time, txnId: string)

  /** The stock and the quantity each spare was created with. */
  datatype Ledger = Ledger(stock: Stock, initial: map<string, int>)

  predicate Allowed(l: Ledger, mv: Movement) {
    mv.Create? ==> mv.spare.id !in l.stock.spares && mv.spare.qty >= 0
  }

  function Move(l: Ledger, mv: Movement, saved: bool): Ledger {
    match mv
    case Create(sp) =>
      var i := Ops.PutSpare(l.stock, sp);
      if i.Write? && saved then Ledger(i.state, l.initial[sp.id := sp.qty]) else l
    case Adjust(id, d, tk, at, x) =>
      l.(stock := AuditReplay.Commit(l.stock, Ops.AdjustSpare(l.stock, id, d, tk, at, x), saved))
  }

  /** Every quantity is the initial one plus the logged deltas, and was never
      negative at any point of the log. */
  ghost predicate Balanced(l: Ledger) {
    && l.initial.Keys == l.stock.spares.Keys
    && (forall t :: t in l.stock.txns ==> t.spareId in l.stock.spares)
    && (forall id :: id in l.initial ==> l.stock.spares[id].qty == l.initial[id] + Moved(l.stock.txns, id))
    && (forall id, k :: id in l.initial && 0 <= k <= |l.stock.txns| ==>
          l.initial[id] + Moved(l.stock.txns[..k], id) >= 0)
  }

  lemma {:induction false} NeverMoved(txns: seq<SpareTxn>, id: string)
    requires forall t :: t in txns ==> t.spareId != id
    ensures Moved(txns, id) == 0
  {
    if txns != [] {
      NeverMoved(txns[..|txns| - 1], id);
      assert txns[|txns| - 1] in txns;
    }
  }

  lemma MovedSnoc(txns: seq<SpareTxn>, t: SpareTxn, id: string)
    ensures Moved(txns + [t], id) == Moved(txns, id) + (if t.spareId == id then t.delta else 0)
  {
    assert (txns + [t])[..|txns|] == txns;
  }

  lemma CreateBalanced(l: Ledger, sp: SparePart)
    requires Balanced(l) && Allowed(l, Create(sp)) && Ops.PutSpare(l.stock, sp).Write?
    ensures Balanced(Move(l, Create(sp), true))
  {
    var n := Move(l, Create(sp), true);
    forall k | 0 <= k <= |n.stock.txns| ensures Moved(n.stock.txns[..k], sp.id) == 0 {
      NeverMoved(n.stock.txns[..k], sp.id);
    }
    assert n.stock.txns[..|n.stock.txns|] == n.stock.txns;
  }

  lemma AdjustBalanced(l: Ledger, mv: Movement)
    requires Balanced(l) && mv.Adjust?
    ensures Balanced(Move(l, mv, true))
  {
    var n := Move(l, mv, true);
    if n != l {
      var txns, t := l.stock.txns, n.stock.txns[|l.stock.txns|];
      assert n.stock.txns == txns + [t];
      forall id ensures Moved(txns + [t], id) == Moved(txns, id) + (if t.spareId == id then t.delta else 0) {
        MovedSnoc(txns, t, id);
      }
      forall id, k | id in n.initial && 0 <= k <= |n.stock.txns|
        ensures n.initial[id] + Moved(n.stock.txns[..k], id) >= 0
      {
        if k <= |txns| {
          assert n.stock.txns[..k] == txns[..k];
        } else {
          assert n.stock.txns[..k] == n.stock.txns && txns[..|txns|] == txns;
        }
      }
    }
  }

  function Moves(l: Ledger, moves: seq<(Movement, bool)>): Ledger
    decreases |moves|
  {
    if moves == [] then l else Moves(Move(l, moves[0].0, moves[0].1), moves[1..])
  }

  predicate AllAllowed(l: Ledger, moves: seq<(Movement, bool)>)
    decreases |moves|
  {
    moves == [] || (Allowed(l, moves[0].0) && AllAllowed(Move(l, moves[0].0, moves[0].1), moves[1..]))
  }

  /** The ledger balances after every run, refused and unsaved movements
      included. */
  lemma {:induction false} LedgerBalances(l: Ledger, moves: seq<(Movement, bool)>)
    requires Balanced(l) && AllAllowed(l, moves)
    ensures Balanced(Moves(l, moves))
    decreases |moves|
  {
    if moves != [] {
      var (mv, saved) := moves[0];
      if saved && mv.Create? && Ops.PutSpare(l.stock, mv.spare).Write? {
        CreateBalanced(l, mv.spare);
      } else if saved && mv.Adjust? {
        AdjustBalanced(l, mv);
      }
      LedgerBalances(Move(l, mv, saved), moves[1..]);
    }
  }
}
