/** What the writers of tickets achieve (core/sla.go, core/tickets.go,
    core/inspection_form.go, core/spares.go): which of their writes go through,
    and when a ticket falls due. */
module TicketRuns {
  import opened Text
  import opened Records
  import opened Tickets
  import Ops
  import StoreRuns

  // ---- When a ticket is due ----------------------------------------------------

  /** A ticket left alone stays due. */
  lemma DueStays(t: Ticket, now: Time, later: Time)
    requires Due(t, now) && now <= later
    ensures Due(t, later)
  {}

  /** Any open or acknowledged ticket of a watched severity falls due in the end,
      and an acknowledged one never sooner than if it were open. */
  lemma FallsDue(t: Ticket)
    requires t.escalatedAt.None? && t.severity in {"critical", "major", "minor"} && t.state in {"open", "acknowledged"}
    ensures Due(t, t.openedAt + 72 * HOUR + 1) && !Due(t, t.openedAt + 15 * MINUTE)
    ensures forall now :: Due(t.(state := "acknowledged"), now) ==> Due(t.(state := "open"), now)
  {}

  /** Graver tickets fall due no later. */
  lemma GraverSooner(t: Ticket, now: Time)
    ensures Due(t.(severity := "minor"), now) ==> Due(t.(severity := "major"), now)
    ensures Due(t.(severity := "major"), now) ==> Due(t.(severity := "critical"), now)
  {}

  /** Unmarked, and open or acknowledged for longer than so many seconds since it
      was opened. */
  predicate Over(t: Ticket, now: Time, open_: int, acked: int) {
    && t.escalatedAt.None?
    && ((t.state == "open" && now - t.openedAt > open_ * 1_000_000_000)
          || (t.state == "acknowledged" && now - t.openedAt > acked * 1_000_000_000))
  }

  /** The limits for each severity; no other is watched. */
  lemma DueExactly(t: Ticket, now: Time)
    ensures Due(t, now) <==>
            || (t.severity == "critical" && Over(t, now, 900, 14_400))
            || (t.severity == "major" && Over(t, now, 3_600, 86_400))
            || (t.severity == "minor" && Over(t, now, 28_800, 259_200))
  {}

  /** The scan keeps the order of the listing. */
  lemma {:induction false} ScanInOrder(a: seq<Ticket>, b: seq<Ticket>, now: Time)
    ensures DueOf(a + b, now) == DueOf(a, now) + DueOf(b, now)
  {
    if b == [] {
      assert a + b == a;
    } else {
      ScanInOrder(a, b[..|b| - 1], now);
      assert (a + b)[..|a + b| - 1] == a + b[..|b| - 1];
    }
  }

  // ---- Which swaps go through ----------------------------------------------------

  lemma NoClash(tickets: map<string, Ticket>, n: Ticket)
    requires StoreRuns.OneActive(tickets) && n.id in tickets && tickets[n.id].alarmId == n.alarmId
    requires tickets[n.id].state != "closed" || n.state == "closed"
    ensures !Ops.Clashes(tickets, n)
  {
    forall k | k in tickets && k != n.id
      ensures !(Ops.Active(n) && Ops.Active(tickets[k]) && tickets[k].alarmId == n.alarmId)
    {
      assert StoreRuns.SameAlarm(tickets[k], tickets[n.id]) ==> k == n.id;
    }
  }

  /** What was read is what is stored, but for the assignee. */
  ghost predicate Unchanged(s: State, read: Ticket) {
    read.id in s.tickets && s.tickets[read.id].version == read.version
  }

  lemma UnchangedIs(s: State, tid: nat)
    requires Inv(s) && tid in s.threads && (s.threads[tid].Escalating? || s.threads[tid].Editing?)
    requires Unchanged(s, s.threads[tid].read)
    ensures var r := s.threads[tid].read; r.version >= 1 && s.tickets[r.id] == r.(assignee := s.tickets[r.id].assignee)
  {
    assert ThreadOk(s, s.threads[tid]);
  }

  /** An escalation under way is stored and announced exactly if no other version
      of the ticket came between. */
  lemma EscalationLands(s: State, tid: nat)
    requires Inv(s) && tid in s.threads && s.threads[tid].Escalating?
    ensures var r, now := s.threads[tid].read, s.threads[tid].now;
            var n := Next(Next(s, SlaWrite(tid, true)), SlaEmit(tid));
            if Unchanged(s, r) then
              && n.events == s.events + [r.id] && r.id in n.tickets
              && n.tickets[r.id] == r.(escalatedAt := Some(now), version := r.version + 1)
            else n.events == s.events && n.tickets == s.tickets
  {
    var t := s.threads[tid];
    var r := t.read;
    assert ThreadOk(s, t);
    var next := r.(escalatedAt := Some(t.now));
    if Unchanged(s, r) {
      UnchangedIs(s, tid);
      assert s.tickets[r.id].alarmId == r.alarmId && s.tickets[r.id].state == r.state;
      NoClash(s.tickets, next);
      var s1 := SlaWriteStep(s, tid, true);
      assert s1.threads[tid] == Announcing(r.id);
    } else {
      var s1 := SlaWriteStep(s, tid, true);
      assert tid !in s1.threads;
    }
  }

  /** From any state: a due ticket is marked and announced. */
  lemma EscalationCompletes(s: State, tid: nat, id: string, now: Time)
    requires Inv(s) && tid !in s.threads && id in s.tickets
    ensures var n := Next(Next(Next(s, SlaRead(tid, id, now)), SlaWrite(tid, true)), SlaEmit(tid));
            if Due(s.tickets[id], now) then n.events == s.events + [id] && n.tickets[id].escalatedAt == Some(now)
            else n == s
  {
    if Due(s.tickets[id], now) {
      var s1 := Put(s, tid, Escalating(s.tickets[id], now));
      StepKeeps(s, SlaRead(tid, id, now));
      assert s1.threads[tid].read == s.tickets[id] && s.tickets[id].id == id;
      EscalationLands(s1, tid);
    }
  }

  /** The moves an operator can make. */
  const MOVES := {("open", "acknowledged"), ("open", "closed"), ("acknowledged", "resolved"),
                  ("acknowledged", "closed"), ("resolved", "closed")}

  lemma TransitionReads(s: State, tid: nat, id: string, to_: string, now: Time)
    requires tid !in s.threads && id in s.tickets
    ensures var n := Next(s, TransitionRead(tid, id, to_, now));
            if (s.tickets[id].state, to_) in MOVES
            then n == Put(s, tid, Editing(s.tickets[id], Transitioned(s.tickets[id], to_, now)))
            else n == s
  {}

  /** A transition is carried out exactly if it is one of the moves; a closed
      ticket moves no more. */
  lemma TransitionCompletes(s: State, tid: nat, id: string, to_: string, now: Time)
    requires Inv(s) && tid !in s.threads && id in s.tickets
    ensures var n := Next(Next(s, TransitionRead(tid, id, to_, now)), EditWrite(tid, true));
            var t := s.tickets[id];
            if (t.state, to_) in MOVES then
              && id in n.tickets && n.tickets == s.tickets[id := n.tickets[id]]
              && n.tickets[id].state == to_ && n.tickets[id].version == t.version + 1
              && n.tickets[id].ackedAt == (if to_ == "acknowledged" && t.ackedAt.None? then Some(now) else t.ackedAt)
              && n.tickets[id].resolvedAt == (if to_ == "resolved" && t.resolvedAt.None? then Some(now)
                    else t.resolvedAt)
              && n.tickets[id].closedAt == (if to_ == "closed" && t.closedAt.None? then Some(now) else t.closedAt)
            else n == s
  {
    var t := s.tickets[id];
    TransitionReads(s, tid, id, to_, now);
    if (t.state, to_) in MOVES {
      var next := Transitioned(t, to_, now);
      assert t.id == id && t.version >= 1;
      NoClash(s.tickets, next);
      var s1 := Put(s, tid, Editing(t, next));
      assert s1.threads[tid] == Editing(t, next);
    }
  }

  /** An assignment is carried out and is a new version. */
  lemma AssignCompletes(s: State, tid: nat, id: string, assignee: string)
    requires Inv(s) && tid !in s.threads && id in s.tickets
    ensures var n := Next(Next(s, AssignRead(tid, id, assignee)), EditWrite(tid, true));
            n.tickets == s.tickets[id := s.tickets[id].(assignee := assignee, version := s.tickets[id].version + 1)]
  {
    var t := s.tickets[id];
    assert t.id == id && t.version >= 1;
    NoClash(s.tickets, t.(assignee := assignee));
    var s1 := Put(s, tid, Editing(t, t.(assignee := assignee)));
    assert s1.threads[tid] == Editing(t, t.(assignee := assignee));
  }

  /** A forced write replaces the ticket it was made from. */
  lemma FileLands(s: State, tid: nat, n: Ticket)
    requires Inv(s) && n.id in s.tickets && n.alarmId == s.tickets[n.id].alarmId
    requires s.tickets[n.id].state != "closed" || n.state == "closed"
    ensures Next(Put(s, tid, Filing(n)), FileWrite(tid, true)).tickets ==
            s.tickets[n.id := n.(version := s.tickets[n.id].version + 1)]
  {
    NoClash(s.tickets, n);
    assert Put(s, tid, Filing(n)).threads[tid] == Filing(n);
  }

  lemma NothingFiled(s: State, tid: nat)
    requires tid !in s.threads
    ensures Next(s, FileWrite(tid, true)) == s
  {}

  /** A form is filed exactly for an acknowledged inspection, which it resolves. */
  lemma FormCompletes(s: State, tid: nat, id: string, more: string, now: Time)
    requires Inv(s) && tid !in s.threads && id in s.tickets
    ensures var n := Next(Next(s, FormRead(tid, id, more, now)), FileWrite(tid, true));
            var t := s.tickets[id];
            if HasPrefix(t.runbook, "inspection:") && t.state == "acknowledged" then
              n.tickets == s.tickets[id := t.(runbook := t.runbook + more, state := "resolved",
                                              version := t.version + 1,
                                              resolvedAt := if t.resolvedAt.None? then Some(now) else t.resolvedAt)]
            else n == s
  {
    var t := s.tickets[id];
    assert t.id == id;
    if IsChecklist(t) && t.state == "acknowledged" {
      FileLands(s, tid, t.(runbook := t.runbook + more, state := "resolved", resolvedAt := Stamped(t.resolvedAt, now)));
    } else {
      NothingFiled(s, tid);
    }
  }

  /** Photos are added to any inspection and change nothing else. */
  lemma PhotoCompletes(s: State, tid: nat, id: string, more: string)
    requires Inv(s) && tid !in s.threads && id in s.tickets
    ensures var n := Next(Next(s, PhotoRead(tid, id, more)), FileWrite(tid, true));
            var t := s.tickets[id];
            if HasPrefix(t.runbook, "inspection:")
            then n.tickets == s.tickets[id := t.(runbook := t.runbook + more, version := t.version + 1)]
            else n == s
  {
    var t := s.tickets[id];
    assert t.id == id;
    if IsChecklist(t) {
      FileLands(s, tid, t.(runbook := t.runbook + more));
    } else {
      NothingFiled(s, tid);
    }
  }

  // ---- One ticket for a low stock ----------------------------------------------

  /** Two checks that both find no ticket, then both write: one ticket results,
      the first; and none if one was there. */
  lemma StockRaceOpensOne(s: State, a: nat, b: nat, spareId: string, t: Ticket, u: Ticket)
    requires Inv(s) && a !in s.threads && b !in s.threads && a != b && t.id != u.id
    requires IsOpening(s.tickets, t) && IsOpening(s.tickets, u) && t.runbook == u.runbook == ""
    requires t.alarmId == u.alarmId == "spare:" + spareId && t.severity == u.severity == "minor"
    ensures var s2 := Next(Next(s, StockCheck(a, spareId)), StockCheck(b, spareId));
            var n := Next(Next(s2, StockWrite(a, t, true)), StockWrite(b, u, true));
            n.tickets == if HasOpen(s.tickets, "spare:" + spareId) then s.tickets
              else s.tickets[t.id := t.(version := 1)]
    ensures HasOpen(s.tickets, "spare:" + spareId) ==> Next(s, StockCheck(a, spareId)).threads == s.threads
  {
    var alarm := "spare:" + spareId;
    assert SpareAlarmId(spareId) == alarm;
    if !HasOpen(s.tickets, alarm) {
      var s1 := Put(s, a, Restocking(alarm));
      var s2 := Put(s1, b, Restocking(alarm));
      assert Next(Next(s, StockCheck(a, spareId)), StockCheck(b, spareId)) == s2;
      assert !Ops.Clashes(s.tickets, t);
      var s3 := Drop(s2.(tickets := s.tickets[t.id := t.(version := 1)]), a);
      assert StockWriteStep(s2, a, t, true) == s3;
      assert alarm[0] == 's';
      assert Ops.Active(s3.tickets[t.id]) && Ops.Clashes(s3.tickets, u);
    }
  }
}
