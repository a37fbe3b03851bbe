/** Service-level escalation (core/sla.go) running beside everything else that
    writes tickets (core/tickets.go, core/inspection_form.go, core/spares.go):
    every reader and writer is interleaved at its store calls. */
module Tickets {
  import opened Text
  import opened Records
  import Ops
  import StoreRuns
  import opened FileStore

  const MINUTE := 60_000_000_000
  const HOUR := 60 * MINUTE

  datatype Windows = NoSla | Sla(response: int, resolve: int)

  function SlaWindows(severity: string): Windows {
    if severity == "critical" then Sla(15 * MINUTE, 4 * HOUR)
    else if severity == "major" then Sla(HOUR, 24 * HOUR)
    else if severity == "minor" then Sla(8 * HOUR, 72 * HOUR)
    else NoSla
  }

  predicate IsSlaBreach(t: Ticket, now: Time) {
    var w := SlaWindows(t.severity);
    && w.Sla?
    && ((t.state == "open" && now - t.openedAt > w.response)
          || (t.state == "acknowledged" && now - t.openedAt > w.resolve))
  }

  predicate Due(t: Ticket, now: Time) { t.escalatedAt.None? && IsSlaBreach(t, now) }

  function DueOf(tickets: seq<Ticket>, now: Time): seq<Ticket> {
    if tickets == [] then []
    else
      var init, last := tickets[..|tickets| - 1], tickets[|tickets| - 1];
      DueOf(init, now) + (if Due(last, now) then [last] else [])
  }

  method ScanSla(now: Time, tickets: seq<Ticket>) returns (out: seq<Ticket>)
    ensures out == DueOf(tickets, now)
  {
    out := [];
    for i := 0 to |tickets|
      invariant out == DueOf(tickets[..i], now)
    {
      assert tickets[..i + 1][..i] == tickets[..i];
      var t := tickets[i];
      if t.escalatedAt.None? && IsSlaBreach(t, now) {
        out := out + [t];
      }
    }
    assert tickets[..|tickets|] == tickets;
  }

  /** The scan returns exactly the breached, unescalated tickets. */
  lemma {:induction false} ScanComplete(tickets: seq<Ticket>, now: Time, t: Ticket)
    ensures t in DueOf(tickets, now) <==> t in tickets && Due(t, now)
  {
    if tickets != [] {
      ScanComplete(tickets[..|tickets| - 1], now, t);
      assert tickets == tickets[..|tickets| - 1] + [tickets[|tickets| - 1]];
    }
  }

  /** The tickets during a tick: those announced were due and now carry the
      mark, the others are as they were. */
  ghost predicate TickedTo(was: map<string, Ticket>, is_: map<string, Ticket>, events: seq<string>, now: Time) {
    && is_.Keys == was.Keys
    && (forall id :: id in was && id in events ==>
          Due(was[id], now) && is_[id] == Mark(was[id], now))
    && (forall id :: id in was && id !in events ==> is_[id] == was[id])
    && (forall i :: 0 <= i < |events| ==> events[i] in was)
    && (forall i, j :: 0 <= i < j < |events| ==> events[i] != events[j])
  }

  lemma Marked(was: map<string, Ticket>, is_: map<string, Ticket>, next: map<string, Ticket>, events: seq<string>,
               now: Time, id: string)
    requires TickedTo(was, is_, events, now) && id in is_ && Due(is_[id], now)
    requires next == is_[id := Mark(is_[id], now)]
    ensures TickedTo(was, next, events + [id], now)
  {
    assert id !in events;
    forall k ensures k in events + [id] <==> k in events || k == id {}
  }

  function Mark(t: Ticket, now: Time): Ticket { t.(escalatedAt := Some(now), version := t.version + 1) }

  lemma MarkFits(tickets: map<string, Ticket>, id: string, now: Time)
    requires StoreRuns.TicketsOk(tickets) && id in tickets
    ensures var t := tickets[id];
            Ops.PutTicket(tickets, t.(escalatedAt := Some(now)), t.version) ==
            Write(tickets[id := Mark(t, now)], Ok(Mark(t, now)))
  {
    var t := tickets[id].(escalatedAt := Some(now));
    forall k | k in tickets && k != id
      ensures !(Ops.Active(t) && Ops.Active(tickets[k]) && tickets[k].alarmId == t.alarmId)
    {
      assert StoreRuns.SameAlarm(tickets[k], tickets[id]) ==> k == id;
    }
  }

  /** Read the ticket again, and mark it if it is still due: it is marked exactly
      if so and the save goes through. */
  method Escalate(st: Store, id: string, now: Time) returns (ok: bool)
    requires st.Valid() && StoreRuns.TicketsOk(st.tickets)
    modifies st`tickets, st`saved, st`refused
    ensures st.Valid() && StoreRuns.TicketsOk(st.tickets) && st.refused >= old(st.refused)
    ensures ok <==> id in old(st.tickets) && Due(old(st.tickets)[id], now) && st.refused == old(st.refused)
    ensures st.tickets == if ok then old(st.tickets)[id := Mark(old(st.tickets)[id], now)] else old(st.tickets)
  {
    ok := false;
    if id in st.tickets && Due(st.tickets[id], now) {
      var cur := st.tickets[id];
      MarkFits(st.tickets, id, now);
      StoreRuns.PutTicketOk(st.tickets, cur.(escalatedAt := Some(now)), cur.version);
      var r := st.PutTicket(cur.(escalatedAt := Some(now)), cur.version);
      ok := r.Ok?;
    }
  }

  /** The listing shows the ticket as due. */
  ghost predicate Shown(listing: seq<Ticket>, now: Time, id: string) {
    exists t :: t in listing && t.id == id && Due(t, now)
  }

  ghost predicate HasId(tickets: seq<Ticket>, n: nat, id: string)
    requires n <= |tickets|
  {
    exists k :: 0 <= k < n && tickets[k].id == id
  }

  /** The tick has to act on `id`: the scan found it and the ticket stored is
      due. */
  ghost predicate Wanted(was: map<string, Ticket>, breached: seq<Ticket>, n: nat, now: Time, id: string)
    requires n <= |breached|
  {
    id in was && Due(was[id], now) && HasId(breached, n, id)
  }

  /** Exactly the wanted tickets were announced. */
  ghost predicate Announced(was: map<string, Ticket>, breached: seq<Ticket>, n: nat, now: Time, events: seq<string>)
    requires n <= |breached|
  {
    forall id :: id in events <==> Wanted(was, breached, n, now, id)
  }

  lemma AnnouncedMore(was: map<string, Ticket>, is_: map<string, Ticket>, breached: seq<Ticket>, n: nat, now: Time,
                      events: seq<string>, ok: bool)
    requires n < |breached| && TickedTo(was, is_, events, now) && Announced(was, breached, n, now, events)
    requires var id := breached[n].id; ok <==> id in is_ && Due(is_[id], now)
    ensures Announced(was, breached, n + 1, now, if ok then events + [breached[n].id] else events)
  {
    var next := if ok then events + [breached[n].id] else events;
    forall id ensures id in next <==> Wanted(was, breached, n + 1, now, id) {
      assert Wanted(was, breached, n + 1, now, id) <==>
             Wanted(was, breached, n, now, id) || (id == breached[n].id && id in was && Due(was[id], now));
    }
  }

  /** One tick of the scanner over a listing that may be out of date: if no save
      fails, exactly the tickets due both in the listing and in the store are
      announced. */
  method ScanSlaTick(st: Store, now: Time, listing: seq<Ticket>) returns (events: seq<string>)
    requires st.Valid() && StoreRuns.TicketsOk(st.tickets)
    modifies st`tickets, st`saved, st`refused
    ensures st.Valid() && TickedTo(old(st.tickets), st.tickets, events, now)
    ensures st.refused == old(st.refused) ==>
              forall id :: id in events <==>
                           id in old(st.tickets) && Due(old(st.tickets)[id], now) && Shown(listing, now, id)
  {
    ghost var was := st.tickets;
    var breached := ScanSla(now, listing);
    events := [];
    for k := 0 to |breached|
      invariant st.Valid() && StoreRuns.TicketsOk(st.tickets) && TickedTo(was, st.tickets, events, now)
      invariant st.refused >= old(st.refused)
      invariant st.refused == old(st.refused) ==> Announced(was, breached, k, now, events)
    {
      ghost var before, seen := st.tickets, events;
      var ok := Escalate(st, breached[k].id, now);
      if ok {
        Marked(was, before, st.tickets, events, now, breached[k].id);
        events := events + [breached[k].id];
      }
      if st.refused == old(st.refused) { AnnouncedMore(was, before, breached, k, now, seen, ok); }
    }
    if st.refused == old(st.refused) { AllWanted(was, listing, now); }
  }

  lemma AllWanted(was: map<string, Ticket>, listing: seq<Ticket>, now: Time)
    ensures var breached := DueOf(listing, now);
            forall id :: Wanted(was, breached, |breached|, now, id) <==>
                         id in was && Due(was[id], now) && Shown(listing, now, id)
  {
    var breached := DueOf(listing, now);
    forall t ensures t in breached <==> t in listing && Due(t, now) { ScanComplete(listing, now, t); }
    forall id ensures HasId(breached, |breached|, id) <==> Shown(listing, now, id) {
      if k :| 0 <= k < |breached| && breached[k].id == id {
        assert breached[k] in breached;
      }
      if t :| t in listing && t.id == id && Due(t, now) {
        assert t in breached;
      }
    }
  }

  predicate AllowedTransition(from: string, to: string) {
    if from == "open" then to == "acknowledged" || to == "closed"
    else if from == "acknowledged" then to == "resolved" || to == "closed"
    else from == "resolved" && to == "closed"
  }

  /** How far a ticket has come. */
  function Rank(state: string): nat {
    if state == "open" then 0 else if state == "acknowledged" then 1 else if state == "resolved" then 2 else 3
  }

  function Stamped(at: Option<Time>, now: Time): Option<Time> { if at.None? then Some(now) else at }

  function Transitioned(t: Ticket, to: string, now: Time): Ticket {
    t.(state := to,
       ackedAt := if to == "acknowledged" then Stamped(t.ackedAt, now) else t.ackedAt,
       resolvedAt := if to == "resolved" then Stamped(t.resolvedAt, now) else t.resolvedAt,
       closedAt := if to == "closed" then Stamped(t.closedAt, now) else t.closedAt)
  }

  const INSPECTION := "inspection:"

  /** The ticket carries an inspection checklist. */
  predicate IsChecklist(t: Ticket) { HasPrefix(t.runbook, INSPECTION) }

  // ---- The machine ------------------------------------------------------------

  /** A request between its read and its write (or its event). */
  datatype Thread =
    | Escalating(read: Ticket, now: Time)
    | Announcing(id: string)
    | Editing(read: Ticket, next: Ticket)
    | Filing(next: Ticket)
    | Restocking(alarmId: string)

  /** `events` lists the tickets whose escalation was announced. */
  datatype State = State(tickets: map<string, Ticket>, threads: map<nat, Thread>, events: seq<string>)

  datatype Step =
    | SlaRead(tid: nat, id: string, now: Time)
    | SlaWrite(tid: nat, saved: bool)
    | SlaEmit(tid: nat)
    | TransitionRead(tid: nat, id: string, to: string, now: Time)
    | AssignRead(tid: nat, id: string, assignee: string)
    | EditWrite(tid: nat, saved: bool)
    | UpdateAssignee(id: string, assignee: string, saved: bool)
    | FormRead(tid: nat, id: string, more: string, now: Time)
    | PhotoRead(tid: nat, id: string, more: string)
    | FileWrite(tid: nat, saved: bool)
    | Open(t: Ticket, saved: bool)
    | StockCheck(tid: nat, spareId: string)
    | StockWrite(tid: nat, t: Ticket, saved: bool)

  function Drop(s: State, tid: nat): State { s.(threads := s.threads - {tid}) }

  function Put(s: State, tid: nat, t: Thread): State { s.(threads := s.threads[tid := t]) }

  /** A store call that may fail to save. */
  function Stored(tickets: map<string, Ticket>, i: Intent<map<string, Ticket>, Ticket>, saved: bool):
    Option<map<string, Ticket>>
  {
    if i.Write? && saved then Some(i.state) else None
  }

  function SlaReadStep(s: State, tid: nat, id: string, now: Time): State {
    if tid in s.threads || id !in s.tickets || !Due(s.tickets[id], now) then s
    else Put(s, tid, Escalating(s.tickets[id], now))
  }

  /** Compare and swap against the version read; the event only after success. */
  function SlaWriteStep(s: State, tid: nat, saved: bool): State {
    if tid !in s.threads || !s.threads[tid].Escalating? then s
    else
      var t := s.threads[tid];
      var out := Stored(s.tickets, Ops.PutTicket(s.tickets, t.read.(escalatedAt := Some(t.now)), t.read.version),
        saved);
      if out.None? then Drop(s, tid) else Put(s.(tickets := out.value), tid, Announcing(t.read.id))
  }

  function SlaEmitStep(s: State, tid: nat): State {
    if tid !in s.threads || !s.threads[tid].Announcing? then s
    else Drop(s.(events := s.events + [s.threads[tid].id]), tid)
  }

  function TransitionReadStep(s: State, tid: nat, id: string, to: string, now: Time): State {
    if tid in s.threads || id !in s.tickets || !AllowedTransition(s.tickets[id].state, to) then s
    else Put(s, tid, Editing(s.tickets[id], Transitioned(s.tickets[id], to, now)))
  }

  function AssignReadStep(s: State, tid: nat, id: string, assignee: string): State {
    if tid in s.threads || id !in s.tickets then s
    else Put(s, tid, Editing(s.tickets[id], s.tickets[id].(assignee := assignee)))
  }

  function EditWriteStep(s: State, tid: nat, saved: bool): State {
    if tid !in s.threads || !s.threads[tid].Editing? then s
    else
      var t := s.threads[tid];
      var out := Stored(s.tickets, Ops.PutTicket(s.tickets, t.next, t.read.version), saved);
      if out.None? then Drop(s, tid) else Drop(s.(tickets := out.value), tid)
  }

  function UpdateAssigneeStep(s: State, id: string, assignee: string, saved: bool): State {
    var out := Stored(s.tickets, Ops.UpdateTicketAssignee(s.tickets, id, assignee), saved);
    if out.None? then s else s.(tickets := out.value)
  }

  predicate IsForm(tickets: map<string, Ticket>, id: string) {
    id in tickets && IsChecklist(tickets[id])
  }

  function FormReadStep(s: State, tid: nat, id: string, more: string, now: Time): State {
    if tid in s.threads || !IsForm(s.tickets, id) || !AllowedTransition(s.tickets[id].state, "resolved") then s
    else
      var t := s.tickets[id];
      Put(s, tid, Filing(t.(runbook := t.runbook + more, state := "resolved",
                              resolvedAt := Stamped(t.resolvedAt, now))))
  }

  function PhotoReadStep(s: State, tid: nat, id: string, more: string): State {
    if tid in s.threads || !IsForm(s.tickets, id) then s
    else Put(s, tid, Filing(s.tickets[id].(runbook := s.tickets[id].runbook + more)))
  }

  /** A forced write: whatever is stored is replaced. */
  function FileWriteStep(s: State, tid: nat, saved: bool): State {
    if tid !in s.threads || !s.threads[tid].Filing? then s
    else
      var out := Stored(s.tickets, Ops.PutTicket(s.tickets, s.threads[tid].next, 0), saved);
      if out.None? then Drop(s, tid) else Drop(s.(tickets := out.value), tid)
  }

  /** What the manual, PM, inspection, alarm and drift openers create: a new open
      ticket; only inspections carry a checklist, and those are info. */
  predicate IsOpening(tickets: map<string, Ticket>, t: Ticket) {
    && t.id !in tickets && t.state == "open" && t.escalatedAt.None?
    && (IsChecklist(t) ==> t.severity == "info" && t.alarmId == "")
  }

  function OpenStep(s: State, t: Ticket, saved: bool): State {
    if !IsOpening(s.tickets, t) then s
    else
      var out := Stored(s.tickets, Ops.PutTicket(s.tickets, t, 0), saved);
      if out.None? then s else s.(tickets := out.value)
  }

  function SpareAlarmId(spareId: string): string { "spare:" + spareId }

  predicate HasOpen(tickets: map<string, Ticket>, alarmId: string) {
    exists id :: id in tickets && tickets[id].alarmId == alarmId && tickets[id].state != "closed"
  }

  function StockCheckStep(s: State, tid: nat, spareId: string): State {
    if tid in s.threads || HasOpen(s.tickets, SpareAlarmId(spareId)) then s
    else Put(s, tid, Restocking(SpareAlarmId(spareId)))
  }

  function StockWriteStep(s: State, tid: nat, t: Ticket, saved: bool): State {
    if tid !in s.threads || !s.threads[tid].Restocking? || !IsOpening(s.tickets, t) || t.runbook != ""
       || t.alarmId != s.threads[tid].alarmId || t.severity != "minor" then s
    else
      var out := Stored(s.tickets, Ops.PutTicket(s.tickets, t, 0), saved);
      if out.None? then Drop(s, tid) else Drop(s.(tickets := out.value), tid)
  }

  /** One atomic step; a step that does not fit the state does nothing. */
  function Next(s: State, step: Step): State {
    match step
    case SlaRead(tid, id, now) => SlaReadStep(s, tid, id, now)
    case SlaWrite(tid, saved) => SlaWriteStep(s, tid, saved)
    case SlaEmit(tid) => SlaEmitStep(s, tid)
    case TransitionRead(tid, id, to, now) => TransitionReadStep(s, tid, id, to, now)
    case AssignRead(tid, id, assignee) => AssignReadStep(s, tid, id, assignee)
    case EditWrite(tid, saved) => EditWriteStep(s, tid, saved)
    case UpdateAssignee(id, assignee, saved) => UpdateAssigneeStep(s, id, assignee, saved)
    case FormRead(tid, id, more, now) => FormReadStep(s, tid, id, more, now)
    case PhotoRead(tid, id, more) => PhotoReadStep(s, tid, id, more)
    case FileWrite(tid, saved) => FileWriteStep(s, tid, saved)
    case Open(t, saved) => OpenStep(s, t, saved)
    case StockCheck(tid, spareId) => StockCheckStep(s, tid, spareId)
    case StockWrite(tid, t, saved) => StockWriteStep(s, tid, t, saved)
  }

  function Run(s: State, steps: seq<Step>): State
    decreases |steps|
  {
    if steps == [] then s else Next(Run(s, steps[..|steps| - 1]), steps[|steps| - 1])
  }

  // ---- What every run keeps -----------------------------------------------------

  /** How a ticket may have changed since it was read: its severity never, a set
      escalation mark never, at the same version only its assignee, whether it
      is a checklist never, and unless it is one its state only forward. */
  predicate Evolves(t: Ticket, u: Ticket) {
    && u.id == t.id && u.severity == t.severity && t.version <= u.version
    && IsChecklist(u) == IsChecklist(t)
    && (!IsChecklist(t) ==> Rank(t.state) <= Rank(u.state))
    && (u.version == t.version ==> u == t.(assignee := u.assignee))
    && (t.escalatedAt.Some? ==> u.escalatedAt == t.escalatedAt)
  }

  ghost predicate Since(t: Ticket, tickets: map<string, Ticket>) { t.id in tickets && Evolves(t, tickets[t.id]) }

  ghost predicate Grows(tickets: map<string, Ticket>, tickets': map<string, Ticket>) {
    forall id :: id in tickets ==> id in tickets' && Evolves(tickets[id], tickets'[id])
  }

  predicate KindOk(t: Ticket) {
    (t.escalatedAt.Some? ==> SlaWindows(t.severity).Sla?) && (IsChecklist(t) ==> t.severity == "info")
  }

  ghost predicate StoreOk(tickets: map<string, Ticket>) {
    StoreRuns.TicketsOk(tickets) && forall id :: id in tickets ==> KindOk(tickets[id])
  }

  ghost predicate Escalated(tickets: map<string, Ticket>, id: string) { id in tickets && tickets[id].escalatedAt.Some? }

  ghost predicate ThreadOk(s: State, t: Thread) {
    match t
    case Escalating(r, _) => Since(r, s.tickets) && r.escalatedAt.None? && SlaWindows(r.severity).Sla?
         && r.version >= 1 && KindOk(r)
    case Announcing(id) => Escalated(s.tickets, id) && id !in s.events
    case Editing(r, n) =>
      && Since(r, s.tickets) && r.version >= 1 && KindOk(r)
      && n.id == r.id && n.severity == r.severity && n.escalatedAt == r.escalatedAt && n.runbook == r.runbook
      && Rank(r.state) <= Rank(n.state)
    case Filing(n) =>
      && n.id in s.tickets && s.tickets[n.id].severity == n.severity == "info" && n.escalatedAt.None?
      && IsChecklist(n) && IsChecklist(s.tickets[n.id])
    case Restocking(_) => true
  }

  predicate Apart(t: Thread, u: Thread) { t.Announcing? && u.Announcing? ==> t.id != u.id }

  ghost predicate EventsOk(s: State) {
    && (forall i :: 0 <= i < |s.events| ==> Escalated(s.tickets, s.events[i]))
    && (forall i, j :: 0 <= i < j < |s.events| ==> s.events[i] != s.events[j])
  }

  ghost predicate Inv(s: State) {
    && StoreOk(s.tickets) && EventsOk(s)
    && (forall i :: i in s.threads ==> ThreadOk(s, s.threads[i]))
    && (forall i, j :: i in s.threads && j in s.threads && i != j ==> Apart(s.threads[i], s.threads[j]))
  }

  /** The invariant still holds, and tickets have only evolved. */
  ghost predicate Kept(s: State, n: State) { Inv(n) && Grows(s.tickets, n.tickets) }

  lemma EvolvesTransitive(t: Ticket, u: Ticket, v: Ticket)
    requires Evolves(t, u) && Evolves(u, v)
    ensures Evolves(t, v)
  {}

  /** When the store has only grown, everything in flight is still good. */
  lemma GrowsKeeps(s: State, tickets: map<string, Ticket>)
    requires Inv(s) && StoreOk(tickets) && Grows(s.tickets, tickets)
    ensures Inv(s.(tickets := tickets))
  {
    var n := s.(tickets := tickets);
    forall i | i in s.threads ensures ThreadOk(n, s.threads[i]) {
      var t := s.threads[i];
      if t.Escalating? || t.Editing? {
        EvolvesTransitive(t.read, s.tickets[t.read.id], tickets[t.read.id]);
      }
    }
  }

  lemma WriteGrows(tickets: map<string, Ticket>, n: Ticket, v: int)
    requires StoreOk(tickets) && KindOk(n)
    requires n.id in tickets && Ops.PutTicket(tickets, n, v).Write? ==>
               n.severity == tickets[n.id].severity
               && (tickets[n.id].escalatedAt.Some? ==> n.escalatedAt == tickets[n.id].escalatedAt)
               && IsChecklist(n) == IsChecklist(tickets[n.id])
               && (!IsChecklist(n) ==> Rank(tickets[n.id].state) <= Rank(n.state))
    ensures var i := Ops.PutTicket(tickets, n, v); i.Write? ==> StoreOk(i.state) && Grows(tickets, i.state)
  {
    StoreRuns.PutTicketOk(tickets, n, v);
  }

  /** A compare-and-swap that succeeds finds what was read, but for the
      assignee. */
  lemma SwapFindsRead(tickets: map<string, Ticket>, r: Ticket, n: Ticket)
    requires Since(r, tickets) && r.version >= 1 && n.id == r.id && Ops.PutTicket(tickets, n, r.version).Write?
    ensures tickets[r.id] == r.(assignee := tickets[r.id].assignee)
  {}

  lemma DropKeeps(s: State, tid: nat)
    requires Inv(s)
    ensures Inv(Drop(s, tid))
  {
    forall i | i in Drop(s, tid).threads ensures ThreadOk(Drop(s, tid), s.threads[i]) {
      assert ThreadOk(s, s.threads[i]);
    }
  }

  lemma PutKeeps(s: State, tid: nat, t: Thread)
    requires Inv(s) && ThreadOk(s, t)
    requires forall i :: i in s.threads && i != tid ==> Apart(s.threads[i], t) && Apart(t, s.threads[i])
    ensures Inv(Put(s, tid, t))
  {
    var n := Put(s, tid, t);
    forall i | i in n.threads ensures ThreadOk(n, n.threads[i]) { assert i != tid ==> ThreadOk(s, s.threads[i]); }
  }

  lemma SlaReadKeeps(s: State, tid: nat, id: string, now: Time)
    requires Inv(s)
    ensures Kept(s, SlaReadStep(s, tid, id, now))
  {
    if tid !in s.threads && id in s.tickets && Due(s.tickets[id], now) {
      PutKeeps(s, tid, Escalating(s.tickets[id], now));
    }
  }

  lemma NotAnnounced(s: State, id: string)
    requires Inv(s) && !Escalated(s.tickets, id)
    ensures id !in s.events && forall i :: i in s.threads && s.threads[i].Announcing? ==> s.threads[i].id != id
  {
    forall i | i in s.threads && s.threads[i].Announcing? ensures s.threads[i].id != id {
      assert ThreadOk(s, s.threads[i]);
    }
  }

  lemma SlaWriteKeeps(s: State, tid: nat, saved: bool)
    requires Inv(s)
    ensures Kept(s, SlaWriteStep(s, tid, saved))
  {
    if tid in s.threads && s.threads[tid].Escalating? {
      var t := s.threads[tid];
      var n := t.read.(escalatedAt := Some(t.now));
      var i := Ops.PutTicket(s.tickets, n, t.read.version);
      if i.Write? && saved {
        SwapFindsRead(s.tickets, t.read, n);
        NotAnnounced(s, t.read.id);
        WriteGrows(s.tickets, n, t.read.version);
        GrowsKeeps(s, i.state);
        PutKeeps(s.(tickets := i.state), tid, Announcing(t.read.id));
      } else {
        DropKeeps(s, tid);
      }
    }
  }

  lemma SlaEmitKeeps(s: State, tid: nat)
    requires Inv(s)
    ensures Kept(s, SlaEmitStep(s, tid))
  {
    if tid in s.threads && s.threads[tid].Announcing? {
      var n := Drop(s.(events := s.events + [s.threads[tid].id]), tid);
      forall i | i in n.threads ensures ThreadOk(n, n.threads[i]) { assert ThreadOk(s, s.threads[i]); }
    }
  }

  lemma EditReadKeeps(s: State, tid: nat, id: string, n: Ticket)
    requires Inv(s) && id in s.tickets
    requires var r := s.tickets[id];
             && n.id == r.id && n.severity == r.severity && n.escalatedAt == r.escalatedAt && n.runbook == r.runbook
             && Rank(r.state) <= Rank(n.state)
    ensures Inv(Put(s, tid, Editing(s.tickets[id], n)))
  {
    PutKeeps(s, tid, Editing(s.tickets[id], n));
  }

  lemma EditWriteKeeps(s: State, tid: nat, saved: bool)
    requires Inv(s)
    ensures Kept(s, EditWriteStep(s, tid, saved))
  {
    if tid in s.threads && s.threads[tid].Editing? {
      var t := s.threads[tid];
      var i := Ops.PutTicket(s.tickets, t.next, t.read.version);
      if i.Write? && saved {
        SwapFindsRead(s.tickets, t.read, t.next);
        WriteGrows(s.tickets, t.next, t.read.version);
        GrowsKeeps(s, i.state);
        DropKeeps(s.(tickets := i.state), tid);
      } else {
        DropKeeps(s, tid);
      }
    }
  }

  lemma UpdateAssigneeKeeps(s: State, id: string, assignee: string, saved: bool)
    requires Inv(s)
    ensures Kept(s, UpdateAssigneeStep(s, id, assignee, saved))
  {
    var i := Ops.UpdateTicketAssignee(s.tickets, id, assignee);
    if i.Write? && saved {
      StoreRuns.AssignOk(s.tickets, id, assignee);
      GrowsKeeps(s, i.state);
    }
  }

  lemma FileReadKeeps(s: State, tid: nat, id: string, n: Ticket)
    requires Inv(s) && IsForm(s.tickets, id) && n.id == id && n.severity == s.tickets[id].severity
    requires n.escalatedAt == s.tickets[id].escalatedAt && IsChecklist(n)
    ensures Inv(Put(s, tid, Filing(n)))
  {
    assert KindOk(s.tickets[id]);
    PutKeeps(s, tid, Filing(n));
  }

  lemma FileWriteKeeps(s: State, tid: nat, saved: bool)
    requires Inv(s)
    ensures Kept(s, FileWriteStep(s, tid, saved))
  {
    if tid in s.threads && s.threads[tid].Filing? {
      var n := s.threads[tid].next;
      var i := Ops.PutTicket(s.tickets, n, 0);
      if i.Write? && saved {
        assert KindOk(s.tickets[n.id]);
        WriteGrows(s.tickets, n, 0);
        GrowsKeeps(s, i.state);
        DropKeeps(s.(tickets := i.state), tid);
      } else {
        DropKeeps(s, tid);
      }
    }
  }

  lemma OpenKeeps(s: State, t: Ticket, saved: bool)
    requires Inv(s)
    ensures Kept(s, OpenStep(s, t, saved))
  {
    var i := Ops.PutTicket(s.tickets, t, 0);
    if IsOpening(s.tickets, t) && i.Write? && saved {
      WriteGrows(s.tickets, t, 0);
      GrowsKeeps(s, i.state);
    }
  }

  lemma StockWriteKeeps(s: State, tid: nat, t: Ticket, saved: bool)
    requires Inv(s)
    ensures Kept(s, StockWriteStep(s, tid, t, saved))
  {
    if StockWriteStep(s, tid, t, saved) != s {
      OpenKeeps(s, t, saved);
      DropKeeps(OpenStep(s, t, saved), tid);
      DropKeeps(s, tid);
    }
  }

  lemma EditReadsKeep(s: State, tid: nat, id: string, to: string, now: Time, assignee: string)
    requires Inv(s)
    ensures Kept(s, TransitionReadStep(s, tid, id, to, now)) && Kept(s, AssignReadStep(s, tid, id, assignee))
  {
    if id in s.tickets {
      if AllowedTransition(s.tickets[id].state, to) { EditReadKeeps(s, tid, id, Transitioned(s.tickets[id], to, now)); }
      EditReadKeeps(s, tid, id, s.tickets[id].(assignee := assignee));
    }
  }

  lemma FileReadsKeep(s: State, tid: nat, id: string, more: string, now: Time)
    requires Inv(s)
    ensures Kept(s, FormReadStep(s, tid, id, more, now)) && Kept(s, PhotoReadStep(s, tid, id, more))
  {
    if IsForm(s.tickets, id) {
      var t := s.tickets[id];
      FileReadKeeps(s, tid, id, t.(runbook := t.runbook + more, state := "resolved",
                                      resolvedAt := Stamped(t.resolvedAt, now)));
      FileReadKeeps(s, tid, id, t.(runbook := t.runbook + more));
    }
  }

  lemma StockCheckKeeps(s: State, tid: nat, spareId: string)
    requires Inv(s)
    ensures Kept(s, StockCheckStep(s, tid, spareId))
  {
    if tid !in s.threads { PutKeeps(s, tid, Restocking(SpareAlarmId(spareId))); }
  }

  lemma StepKeeps(s: State, step: Step)
    requires Inv(s)
    ensures Kept(s, Next(s, step))
  {
    match step
    case SlaRead(tid, id, now) => SlaReadKeeps(s, tid, id, now);
    case SlaWrite(tid, saved) => SlaWriteKeeps(s, tid, saved);
    case SlaEmit(tid) => SlaEmitKeeps(s, tid);
    case TransitionRead(tid, id, to, now) => EditReadsKeep(s, tid, id, to, now, "");
    case AssignRead(tid, id, assignee) => EditReadsKeep(s, tid, id, "", 0, assignee);
    case EditWrite(tid, saved) => EditWriteKeeps(s, tid, saved);
    case UpdateAssignee(id, assignee, saved) => UpdateAssigneeKeeps(s, id, assignee, saved);
    case FormRead(tid, id, more, now) => FileReadsKeep(s, tid, id, more, now);
    case PhotoRead(tid, id, more) => FileReadsKeep(s, tid, id, more, 0);
    case FileWrite(tid, saved) => FileWriteKeeps(s, tid, saved);
    case Open(t, saved) => OpenKeeps(s, t, saved);
    case StockCheck(tid, spareId) => StockCheckKeeps(s, tid, spareId);
    case StockWrite(tid, t, saved) => StockWriteKeeps(s, tid, t, saved);
  }

  lemma GrowsTransitive(a: map<string, Ticket>, b: map<string, Ticket>, c: map<string, Ticket>)
    requires Grows(a, b) && Grows(b, c)
    ensures Grows(a, c)
  {
    forall id | id in a ensures id in c && Evolves(a[id], c[id]) { EvolvesTransitive(a[id], b[id], c[id]); }
  }

  lemma {:induction false} RunKeeps(s: State, steps: seq<Step>)
    requires Inv(s)
    ensures Inv(Run(s, steps)) && Grows(s.tickets, Run(s, steps).tickets)
  {
    if steps != [] {
      var before := Run(s, steps[..|steps| - 1]);
      RunKeeps(s, steps[..|steps| - 1]);
      StepKeeps(before, steps[|steps| - 1]);
      GrowsTransitive(s.tickets, before.tickets, Run(s, steps).tickets);
    }
  }

  // ---- The promises -----------------------------------------------------------

  ghost predicate Quiet(s: State) { StoreOk(s.tickets) && s.threads == map[] && s.events == [] }

  /** However scanners, operators and forms interleave: no ticket is announced
      twice, every announced ticket is marked, and at most one ticket per alarm
      is active. */
  lemma AnnouncedOnce(s: State, steps: seq<Step>)
    requires Quiet(s)
    ensures var n := Run(s, steps);
            && (forall i, j :: 0 <= i < j < |n.events| ==> n.events[i] != n.events[j])
            && (forall i :: 0 <= i < |n.events| ==> Escalated(n.tickets, n.events[i]))
            && StoreRuns.OneActive(n.tickets)
  {
    RunKeeps(s, steps);
  }

  /** An escalation mark, once set, stays as it is, in every later state. */
  lemma MarkStays(s: State, steps: seq<Step>, more: seq<Step>, id: string)
    requires Quiet(s) && Escalated(Run(s, steps).tickets, id)
    ensures var m, n := Run(s, steps), Run(Run(s, steps), more);
            id in n.tickets && n.tickets[id].escalatedAt == m.tickets[id].escalatedAt
  {
    RunKeeps(s, steps);
    RunKeeps(Run(s, steps), more);
  }

  /** No ticket without a checklist ever falls back to an earlier state. */
  lemma StateNeverFalls(s: State, steps: seq<Step>, more: seq<Step>, id: string)
    requires Quiet(s) && id in Run(s, steps).tickets && !IsChecklist(Run(s, steps).tickets[id])
    ensures var m, n := Run(s, steps), Run(Run(s, steps), more);
            id in n.tickets && Rank(m.tickets[id].state) <= Rank(n.tickets[id].state)
  {
    RunKeeps(s, steps);
    RunKeeps(Run(s, steps), more);
  }

  lemma NoClashAlone(tickets: map<string, Ticket>, n: Ticket)
    requires StoreRuns.OneActive(tickets) && n.id in tickets && tickets[n.id].alarmId == n.alarmId
             && tickets[n.id].state != "closed"
    ensures !Ops.Clashes(tickets, n)
  {
    forall k | k in tickets && k != n.id
      ensures !(Ops.Active(n) && Ops.Active(tickets[k]) && tickets[k].alarmId == n.alarmId)
    {
      assert StoreRuns.SameAlarm(tickets[k], tickets[n.id]) ==> k == n.id;
    }
  }

  /** Clashes look at other tickets only. */
  lemma ClashElsewhere(tickets: map<string, Ticket>, t: Ticket, n: Ticket)
    requires n.id == t.id && !Ops.Clashes(tickets, n)
    ensures !Ops.Clashes(tickets[t.id := t], n)
  {}

  /** With a checklist it can: the forced write of a form does not look at what
      is stored. From any quiet store with an acknowledged inspection, a form
      read, a close and then the form's write lead from closed back to resolved. */
  lemma {:induction false} FormReopens(s: State, id: string, more: string, now: Time)
    requires Quiet(s) && IsForm(s.tickets, id) && s.tickets[id].state == "acknowledged"
    ensures var s1 := Next(s, FormRead(0, id, more, now));
            var s2 := Next(s1, TransitionRead(1, id, "closed", now));
            var s3 := Next(s2, EditWrite(1, true));
            var s4 := Next(s3, FileWrite(0, true));
            && id in s3.tickets && s3.tickets[id].state == "closed"
            && id in s4.tickets && s4.tickets[id].state == "resolved"
  {
    var t := s.tickets[id];
    var form := t.(runbook := t.runbook + more, state := "resolved", resolvedAt := Stamped(t.resolvedAt, now));
    var closed := Transitioned(t, "closed", now);
    NoClashAlone(s.tickets, closed);
    NoClashAlone(s.tickets, form);
    var s1 := Put(s, 0, Filing(form));
    assert FormReadStep(s, 0, id, more, now) == s1;
    var s2 := Put(s1, 1, Editing(t, closed));
    assert TransitionReadStep(s1, 1, id, "closed", now) == s2;
    var stored := closed.(version := t.version + 1);
    var s3 := Drop(s2.(tickets := s.tickets[id := stored]), 1);
    assert EditWriteStep(s2, 1, true) == s3;
    ClashElsewhere(s.tickets, stored, form);
  }

  /** The escalation write, when it goes through, changes nothing but the mark
      and the version, and puts back the assignee it read. */
  lemma EscalationOverwritesNothing(s: State, tid: nat)
    requires Inv(s) && tid in s.threads && s.threads[tid].Escalating?
    ensures var r, n := s.threads[tid].read, SlaWriteStep(s, tid, true).tickets;
            n != s.tickets ==>
              && r.id in s.tickets && r.id in n
              && n[r.id] == s.tickets[r.id].(escalatedAt := Some(s.threads[tid].now), version :=
                    s.tickets[r.id].version + 1,
                                             assignee := r.assignee)
  {
    var t := s.threads[tid];
    if Ops.PutTicket(s.tickets, t.read.(escalatedAt := Some(t.now)), t.read.version).Write? {
      SwapFindsRead(s.tickets, t.read, t.read.(escalatedAt := Some(t.now)));
    }
  }

  /** A state transition or an assignment through the handlers between the
      scanner's read and its write makes the write fail. */
  lemma {:induction false} EditBeatsEscalation(s: State, tid: nat, other: nat)
    requires Inv(s) && tid in s.threads && s.threads[tid].Escalating?
    requires other in s.threads && other != tid && s.threads[other].Editing?
             && s.threads[other].read.id == s.threads[tid].read.id
    requires EditWriteStep(s, other, true).tickets != s.tickets
    ensures var m := EditWriteStep(s, other, true); SlaWriteStep(m, tid, true) == Drop(m, tid)
  {}

  /** But the assignee-only update leaves the version alone, so an escalation in
      flight undoes it. */
  lemma EscalationRevertsAssignee(s: State, tid: nat, id: string, now: Time, assignee: string)
    requires Inv(s) && tid !in s.threads && id in s.tickets && Due(s.tickets[id], now)
    ensures var s1 := Next(s, SlaRead(tid, id, now));
            var s2 := Next(s1, UpdateAssignee(id, assignee, true));
            var s3 := Next(s2, SlaWrite(tid, true));
            && id in s2.tickets && s2.tickets[id].assignee == assignee
            && id in s3.tickets && s3.tickets[id].escalatedAt == Some(now)
                  && s3.tickets[id].assignee == s.tickets[id].assignee
  {
    var r := s.tickets[id];
    var tickets := s.tickets[id := r.(assignee := assignee)];
    assert !Ops.Clashes(tickets, r.(escalatedAt := Some(now))) by {
      forall k | k in tickets && k != id
        ensures !(Ops.Active(r) && Ops.Active(tickets[k]) && tickets[k].alarmId == r.alarmId)
      {
        assert StoreRuns.SameAlarm(s.tickets[k], s.tickets[id]) ==> k == id;
      }
    }
    assert SlaReadStep(s, tid, id, now) == Put(s, tid, Escalating(r, now));
    assert Ops.PutTicket(tickets, r.(escalatedAt := Some(now)), r.version).Write?;
  }
}
