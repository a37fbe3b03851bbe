/** Scheduled ticket openers (core/inspection.go, core/pm.go): a ticket when due,
    then the due time moves on; either store call may fail. */
module Schedule {
  import opened Text
  import opened Records
  import opened FileStore
  import Ops
  import Runbook

  // ---- One firing ---------------------------------------------------------------

  function InspectionTicket(it: InspectionTemplate, now: Time, id: string): Ticket {
    Ticket(id, "", it.assetPath, it.title, "info", "open", "", now, None, None, None, None, 0, Runbook.Encode(it.items))
  }

  function PMTicket(p: PMSchedule, now: Time, id: string): Ticket {
    Ticket(id, "", p.assetPath, p.title, p.severity, "open", "", now, None, None, None, None, 0, "")
  }

  const DAY := 24 * 3600 * 1_000_000_000

  function AdvanceInspection(it: InspectionTemplate, now: Time): InspectionTemplate {
    it.(nextDue := now + it.interval)
  }

  function AdvancePM(p: PMSchedule, now: Time): PMSchedule {
    p.(lastRun := Some(now), nextDue := now + p.intervalDays * DAY)
  }

  /** What the tickets say: an inspection is an info ticket whose form shows the
      template's checklist, a PM ticket has the schedule's severity. */
  lemma TicketsSay(it: InspectionTemplate, p: PMSchedule, now: Time, id: string)
    ensures var t := InspectionTicket(it, now, id);
            && t.id == id && t.assetPath == it.assetPath && t.title == it.title && t.severity == "info"
            && t.state == "open" && t.openedAt == now && t.alarmId == "" && t.escalatedAt.None?
            && (it.items != [] && (forall x :: x in it.items ==> Runbook.Writable(x)) ==>
                  Runbook.Decode(t.runbook) == it.items)
    ensures var t := PMTicket(p, now, id);
            && t.id == id && t.assetPath == p.assetPath && t.title == p.title && t.severity == p.severity
            && t.state == "open" && t.openedAt == now && t.alarmId == "" && t.escalatedAt.None? && t.runbook == ""
  {
    if it.items != [] && forall x :: x in it.items ==> Runbook.Writable(x) {
      Runbook.WritableDecodes(it.items);
    }
  }

  /** Open the ticket; only if that went through move the due time. Each failed
      save shows. */
  method FireInspection(st: Store, it: InspectionTemplate, now: Time, id: string) returns (made: bool, advanced: bool)
    requires st.Valid() && id !in st.tickets
    modifies st`tickets, st`inspections, st`saved, st`refused
    ensures st.Valid() && (advanced ==> made)
    ensures st.tickets == if made then old(st.tickets)[id := InspectionTicket(it, now, id).(version := 1)]
            else old(st.tickets)
    ensures st.inspections ==
            if advanced then old(st.inspections)[it.id := AdvanceInspection(it, now)] else old(st.inspections)
    ensures st.refused == old(st.refused) + if advanced then 0 else 1
  {
    advanced := false;
    var r := st.PutTicket(InspectionTicket(it, now, id), 0);
    made := r.Ok?;
    if made {
      var saved := st.PutInspectionTemplate(AdvanceInspection(it, now));
      advanced := saved.Ok?;
    }
  }

  method FirePM(st: Store, p: PMSchedule, now: Time, id: string) returns (made: bool, advanced: bool)
    requires st.Valid() && id !in st.tickets
    modifies st`tickets, st`pmSchedules, st`saved, st`refused
    ensures st.Valid() && (advanced ==> made)
    ensures st.tickets == if made then old(st.tickets)[id := PMTicket(p, now, id).(version := 1)] else old(st.tickets)
    ensures st.pmSchedules ==
            if advanced then old(st.pmSchedules)[p.id := AdvancePM(p, now)] else old(st.pmSchedules)
    ensures st.refused == old(st.refused) + if advanced then 0 else 1
  {
    advanced := false;
    var r := st.PutTicket(PMTicket(p, now, id), 0);
    made := r.Ok?;
    if made {
      var saved := st.PutPMSchedule(AdvancePM(p, now));
      advanced := saved.Ok?;
    }
  }

  // ---- One tick over every schedule ------------------------------------------------

  /** What the scanners look at. */
  datatype Row = Row(enabled: bool, due: Time, interval: int)

  function InspectionRow(it: InspectionTemplate): Row { Row(it.enabled, it.nextDue, it.interval) }

  function PMRow(p: PMSchedule): Row { Row(p.enabled, p.nextDue, p.intervalDays * DAY) }

  predicate IsDue(r: Row, now: Time) { r.enabled && now >= r.due }

  /** The schedules after part of a tick: only due ones opened a ticket, and only
      of those some have moved. */
  ghost predicate Moved<T>(all: map<string, T>, is_: map<string, T>, made: set<string>, moved: set<string>, now: Time,
                           row: T -> Row, advance: (T, Time) -> T)
  {
    && is_.Keys == all.Keys && moved <= made <= all.Keys
    && (forall k :: k in all ==> is_[k] == if k in moved then advance(all[k], now) else all[k])
    && (forall k :: k in made ==> IsDue(row(all[k]), now))
  }

  ghost predicate Opens(made: set<string>, ids: map<string, string>, id: string) {
    exists k :: k in made && k in ids && ids[k] == id
  }

  /** The tickets after part of a tick: the old ones, and one of this moment for
      each schedule that opened one. */
  ghost predicate Grown(was: map<string, Ticket>, tickets: map<string, Ticket>, made: set<string>,
                        ids: map<string, string>, now: Time)
  {
    && (forall id :: id in was ==> id in tickets && tickets[id] == was[id])
    && (forall id :: id in tickets ==> id in was || Opens(made, ids, id))
    && (forall k :: k in made ==> k in ids && ids[k] in tickets && ids[k] !in was && tickets[ids[k]].openedAt == now)
  }

  ghost predicate NewIds(keys: set<string>, ids: map<string, string>, tickets: map<string, Ticket>) {
    && keys <= ids.Keys && (forall k :: k in keys ==> ids[k] !in tickets)
    && (forall k, l :: k in keys && l in keys && k != l ==> ids[k] != ids[l])
  }

  lemma FireMoves<T>(all: map<string, T>, was: map<string, T>, is_: map<string, T>, made: set<string>,
                     moved: set<string>, now: Time, row: T -> Row, advance: (T, Time) -> T, k: string, advanced: bool)
    requires Moved(all, was, made, moved, now, row, advance) && k in all && IsDue(row(all[k]), now)
    requires is_ == if advanced then was[k := advance(all[k], now)] else was
    ensures k !in moved ==> Moved(all, is_, made + {k}, if advanced then moved + {k} else moved, now, row, advance)
  {}

  lemma FireGrows(first: map<string, Ticket>, was: map<string, Ticket>, made: set<string>, ids: map<string, string>,
                  now: Time, k: string, t: Ticket)
    requires Grown(first, was, made, ids, now) && k in ids && ids[k] !in was && t.openedAt == now
    ensures Grown(first, was[ids[k] := t], made + {k}, ids, now)
  {
    var tickets := was[ids[k] := t];
    forall id | id in tickets ensures id in first || Opens(made + {k}, ids, id) {
      if id in was && Opens(made, ids, id) {
        var l :| l in made && l in ids && ids[l] == id;
        assert l in made + {k};
      }
    }
  }

  /** Each new ticket is the one its schedule calls for. */
  ghost predicate Shaped<T>(tickets: map<string, Ticket>, all: map<string, T>, made: set<string>,
                            ids: map<string, string>, now: Time, shape: (T, Time, string) -> Ticket)
  {
    forall k :: k in made ==>
                  k in all && k in ids && ids[k] in tickets
                    && tickets[ids[k]] == shape(all[k], now, ids[k]).(version := 1)
  }

  /** The schedules that were due and have not moved. */
  ghost function Missed<T>(all: map<string, T>, moved: set<string>, now: Time, row: T -> Row): set<string> {
    set k | k in all && IsDue(row(all[k]), now) && k !in moved
  }

  /** A schedule still to come has its id unused. */
  lemma StillNew(keys: set<string>, ids: map<string, string>, first: map<string, Ticket>, tickets: map<string, Ticket>,
                 made: set<string>, now: Time, k: string)
    requires NewIds(keys, ids, first) && Grown(first, tickets, made, ids, now) && made <= keys && k in keys
             && k !in made
    ensures ids[k] !in tickets
  {}

  /** Among the schedules done, those missed. */
  ghost predicate MissedSoFar<T>(all: map<string, T>, todo: set<string>, missed: set<string>, moved: set<string>,
                                 now: Time, row: T -> Row)
  {
    forall k :: k in missed <==> k in all && k !in todo && IsDue(row(all[k]), now) && k !in moved
  }

  lemma MissedMore<T>(all: map<string, T>, todo: set<string>, missed: set<string>, moved: set<string>, now: Time,
                      row: T -> Row, k: string, advanced: bool)
    requires MissedSoFar(all, todo, missed, moved, now, row) && k in todo && k in all && k !in moved
    ensures k !in missed
    ensures !IsDue(row(all[k]), now) ==> MissedSoFar(all, todo - {k}, missed, moved, now, row)
    ensures IsDue(row(all[k]), now) ==>
              MissedSoFar(all, todo - {k}, if advanced then missed else missed + {k},
                          if advanced then moved + {k} else moved, now, row)
  {}

  lemma MissedAll<T>(all: map<string, T>, todo: set<string>, missed: set<string>, moved: set<string>, now: Time,
                     row: T -> Row)
    requires MissedSoFar(all, todo, missed, moved, now, row) && todo == {}
    ensures missed == Missed(all, moved, now, row)
  {}

  lemma FireShapes<T>(all: map<string, T>, tickets: map<string, Ticket>, made: set<string>, ids: map<string, string>,
                      now: Time, shape: (T, Time, string) -> Ticket, k: string)
    requires Shaped(tickets, all, made, ids, now, shape) && k in all && k in ids && ids[k] !in tickets
    ensures Shaped(tickets[ids[k] := shape(all[k], now, ids[k]).(version := 1)], all, made + {k}, ids, now, shape)
  {}

  /** If no save failed no schedule is due any more. */
  lemma CleanTick<T(!new)>(all: map<string, T>, is_: map<string, T>, made: set<string>, moved: set<string>, now: Time,
                           row: T -> Row, advance: (T, Time) -> T)
    requires Moved(all, is_, made, moved, now, row, advance) && Missed(all, moved, now, row) == {}
    requires Advances(row, advance)
    ensures forall k :: k in all ==>
                          && (k in made <==> IsDue(row(all[k]), now))
                          && (k in moved <==> IsDue(row(all[k]), now))
    ensures forall k :: k in all && row(all[k]).interval > 0 ==> !IsDue(row(is_[k]), now)
  {
    forall k | k in all && IsDue(row(all[k]), now) ensures k in moved {
      assert k !in Missed(all, moved, now, row);
    }
  }

  ghost predicate InspectionsKeyed(all: map<string, InspectionTemplate>) { forall k :: k in all ==> all[k].id == k }

  ghost predicate PMsKeyed(all: map<string, PMSchedule>) { forall k :: k in all ==> all[k].id == k }

  /** One tick over every template; `ids` are the new ticket ids, one a template. */
  method ScanInspectionTick(st: Store, now: Time, ids: map<string, string>)
    returns (made: set<string>, moved: set<string>)
    requires st.Valid() && InspectionsKeyed(st.inspections) && NewIds(st.inspections.Keys, ids, st.tickets)
    modifies st`tickets, st`inspections, st`saved, st`refused
    ensures st.Valid() && Grown(old(st.tickets), st.tickets, made, ids, now)
    ensures Moved(old(st.inspections), st.inspections, made, moved, now, InspectionRow, AdvanceInspection)
    ensures Shaped(st.tickets, old(st.inspections), made, ids, now, InspectionTicket)
    ensures st.refused == old(st.refused) + |Missed(old(st.inspections), moved, now, InspectionRow)|
  {
    var all := st.inspections;
    ghost var first := st.tickets;
    var todo := all.Keys;
    made, moved := {}, {};
    ghost var missed: set<string> := {};
    while todo != {}
      invariant st.Valid() && (forall k :: k in todo ==> k in all && k !in made)
      invariant Moved(all, st.inspections, made, moved, now, InspectionRow, AdvanceInspection)
      invariant Grown(first, st.tickets, made, ids, now) && Shaped(st.tickets, all, made, ids, now, InspectionTicket)
      invariant st.refused == old(st.refused) + |missed| && MissedSoFar(all, todo, missed, moved, now, InspectionRow)
      decreases todo
    {
      var k :| k in todo;
      var it := all[k];
      if it.enabled && now >= it.nextDue {
        ghost var was, tickets := st.inspections, st.tickets;
        StillNew(all.Keys, ids, first, tickets, made, now, k);
        var o, a := FireInspection(st, it, now, ids[k]);
        MissedMore(all, todo, missed, moved, now, InspectionRow, k, a);
        if o {
          FireMoves(all, was, st.inspections, made, moved, now, InspectionRow, AdvanceInspection, k, a);
          FireShapes(all, tickets, made, ids, now, InspectionTicket, k);
          FireGrows(first, tickets, made, ids, now, k, InspectionTicket(it, now, ids[k]).(version := 1));
          made := made + {k};
          if a {
            moved := moved + {k};
          }
        }
        if !a {
          missed := missed + {k};
        }
      } else {
        MissedMore(all, todo, missed, moved, now, InspectionRow, k, false);
      }
      todo := todo - {k};
    }
    MissedAll(all, todo, missed, moved, now, InspectionRow);
  }

  /** One tick over every PM schedule. */
  method ScanPMTick(st: Store, now: Time, ids: map<string, string>) returns (made: set<string>, moved: set<string>)
    requires st.Valid() && PMsKeyed(st.pmSchedules) && NewIds(st.pmSchedules.Keys, ids, st.tickets)
    modifies st`tickets, st`pmSchedules, st`saved, st`refused
    ensures st.Valid() && Grown(old(st.tickets), st.tickets, made, ids, now)
    ensures Moved(old(st.pmSchedules), st.pmSchedules, made, moved, now, PMRow, AdvancePM)
    ensures Shaped(st.tickets, old(st.pmSchedules), made, ids, now, PMTicket)
    ensures st.refused == old(st.refused) + |Missed(old(st.pmSchedules), moved, now, PMRow)|
  {
    var all := st.pmSchedules;
    ghost var first := st.tickets;
    var todo := all.Keys;
    made, moved := {}, {};
    ghost var missed: set<string> := {};
    while todo != {}
      invariant st.Valid() && (forall k :: k in todo ==> k in all && k !in made)
      invariant Moved(all, st.pmSchedules, made, moved, now, PMRow, AdvancePM)
      invariant Grown(first, st.tickets, made, ids, now) && Shaped(st.tickets, all, made, ids, now, PMTicket)
      invariant st.refused == old(st.refused) + |missed| && MissedSoFar(all, todo, missed, moved, now, PMRow)
      decreases todo
    {
      var k :| k in todo;
      var p := all[k];
      if p.enabled && now >= p.nextDue {
        ghost var was, tickets := st.pmSchedules, st.tickets;
        StillNew(all.Keys, ids, first, tickets, made, now, k);
        var o, a := FirePM(st, p, now, ids[k]);
        MissedMore(all, todo, missed, moved, now, PMRow, k, a);
        if o {
          FireMoves(all, was, st.pmSchedules, made, moved, now, PMRow, AdvancePM, k, a);
          FireShapes(all, tickets, made, ids, now, PMTicket, k);
          FireGrows(first, tickets, made, ids, now, k, PMTicket(p, now, ids[k]).(version := 1));
          made := made + {k};
          if a {
            moved := moved + {k};
          }
        }
        if !a {
          missed := missed + {k};
        }
      } else {
        MissedMore(all, todo, missed, moved, now, PMRow, k, false);
      }
      todo := todo - {k};
    }
    MissedAll(all, todo, missed, moved, now, PMRow);
  }

  // ---- How many tickets one schedule opens ----------------------------------------

  /** A ticket opened at a time, and whether the due time then moved. */
  datatype Fire = Fire(at: Time, advanced: bool)

  /** One schedule: when it is due, and the tickets it has opened. */
  datatype Plan = Plan(due: Time, fires: seq<Fire>)

  datatype Tick = Tick(now: Time, ticketSaved: bool, advanceSaved: bool)

  function Step(p: Plan, interval: int, t: Tick): Plan {
    if t.now < p.due || !t.ticketSaved then p
    else Plan(if t.advanceSaved then t.now + interval else p.due, p.fires + [Fire(t.now, t.advanceSaved)])
  }

  function Ticks(p: Plan, interval: int, ticks: seq<Tick>): Plan
    decreases |ticks|
  {
    if ticks == [] then p else Step(Ticks(p, interval, ticks[..|ticks| - 1]), interval, ticks[|ticks| - 1])
  }

  ghost predicate Ordered(ticks: seq<Tick>) { forall i, j :: 0 <= i < j < |ticks| ==> ticks[i].now <= ticks[j].now }

  function Failed(fires: seq<Fire>): nat {
    if fires == [] then 0 else Failed(fires[..|fires| - 1]) + (if fires[|fires| - 1].advanced then 0 else 1)
  }

  /** A fire that moved the due time keeps the next one an interval away. */
  ghost predicate Apart(fires: seq<Fire>, interval: int) {
    forall i :: 0 <= i < |fires| - 1 ==> fires[i].at + (if fires[i].advanced then interval else 0) <= fires[i + 1].at
  }

  ghost predicate PlanOk(p: Plan, interval: int, now: Time) {
    && Apart(p.fires, interval)
    && (p.fires != [] ==>
          var last := p.fires[|p.fires| - 1];
          last.at <= now && (last.advanced ==> p.due == last.at + interval))
  }

  lemma StepOk(p: Plan, interval: int, now: Time, t: Tick)
    requires PlanOk(p, interval, now) && now <= t.now
    ensures PlanOk(Step(p, interval, t), interval, t.now)
  {}

  lemma {:induction false} TicksOk(p: Plan, interval: int, ticks: seq<Tick>)
    requires p.fires == [] && Ordered(ticks)
    ensures Apart(Ticks(p, interval, ticks).fires, interval)
    ensures ticks != [] ==> PlanOk(Ticks(p, interval, ticks), interval, ticks[|ticks| - 1].now)
    decreases |ticks|
  {
    if ticks != [] {
      var init, t := ticks[..|ticks| - 1], ticks[|ticks| - 1];
      TicksOk(p, interval, init);
      if init == [] {
        StepOk(p, interval, t.now, t);
      } else {
        StepOk(Ticks(p, interval, init), interval, init[|init| - 1].now, t);
      }
    }
  }

  /** Every fire but the last either failed to move the due time or used up an
      interval. */
  lemma {:induction false} IntervalsUsed(fires: seq<Fire>, interval: int)
    requires fires != [] && Apart(fires, interval) && interval > 0
    ensures (|fires| - 1 - Failed(fires[..|fires| - 1])) * interval <= fires[|fires| - 1].at - fires[0].at
  {
    var n := |fires|;
    if n > 1 {
      var init := fires[..n - 1];
      IntervalsUsed(init, interval);
      var used := n - 2 - Failed(init[..n - 2]);
      assert fires[n - 2] == init[n - 2];
      assert (used + 1) * interval == used * interval + interval;
    }
  }

  lemma Grows(x: int, q: int, interval: int)
    requires x >= q + 1 && interval > 0
    ensures x * interval >= q * interval + interval
  {
    assert x * interval == (x - q - 1) * interval + q * interval + interval;
  }

  lemma AtMost(x: int, interval: int, span: int)
    requires interval > 0 && x * interval <= span
    ensures x <= span / interval
  {
    var q := span / interval;
    if x > q { Grows(x, q, interval); }
  }

  /** At most one ticket, and one for each whole interval between the first and
      the last, and one for each time the due date could not be moved. */
  lemma TicketBound(p: Plan, interval: int, ticks: seq<Tick>)
    requires p.fires == [] && Ordered(ticks) && interval > 0
    ensures var fires := Ticks(p, interval, ticks).fires;
            fires != [] ==> |fires| <= 1 + (fires[|fires| - 1].at - fires[0].at) / interval + Failed(fires)
  {
    var fires := Ticks(p, interval, ticks).fires;
    TicksOk(p, interval, ticks);
    if fires != [] {
      IntervalsUsed(fires, interval);
      AtMost(|fires| - 1 - Failed(fires[..|fires| - 1]), interval, fires[|fires| - 1].at - fires[0].at);
    }
  }

  // ---- Runs of ticks on the store ------------------------------------------------------

  /** What a run of ticks did: when each was, which schedules opened a ticket and
      which of those then moved. */
  datatype Log = Log(times: seq<Time>, made: seq<set<string>>, moved: seq<set<string>>) {
    ghost predicate Ok() {
      && |made| == |times| == |moved| && (forall i :: 0 <= i < |made| ==> moved[i] <= made[i])
      && forall i, j :: 0 <= i < j < |times| ==> times[i] <= times[j]
    }

    /** The ticks as schedule `k` saw them. */
    ghost function Of(k: string): seq<Tick> requires Ok() {
      seq(|times|, i requires 0 <= i < |times| => Tick(times[i], k in made[i], k in moved[i]))
    }

    ghost function Opened(k: string): set<int> { set i | 0 <= i < |made| && k in made[i] }

    ghost function Stuck(k: string): set<int> requires Ok() {
      set i | 0 <= i < |made| && k in made[i] && k !in moved[i]
    }

    ghost function Then(now: Time, m: set<string>, v: set<string>): Log { Log(times + [now], made + [m], moved + [v]) }
  }

  /** The log is a run of the schedule: the plan it leads to is due when the
      stored row is, and has a fire for each opened ticket. */
  ghost predicate Follows(log: Log, k: string, was: Row, is_: Row)
    requires log.Ok()
  {
    var p := Ticks(Plan(was.due, []), was.interval, log.Of(k));
    && is_ == was.(due := p.due)
    && |p.fires| == |log.Opened(k)| && Failed(p.fires) == |log.Stuck(k)|
  }

  lemma LogThen(log: Log, now: Time, m: set<string>, v: set<string>, k: string)
    requires log.Ok() && v <= m && (log.times != [] ==> log.times[|log.times| - 1] <= now)
    ensures var next := log.Then(now, m, v); var n := |log.times|;
            && next.Ok() && next.Of(k) == log.Of(k) + [Tick(now, k in m, k in v)]
            && next.Opened(k) == log.Opened(k) + (if k in m then {n} else {})
            && next.Stuck(k) == log.Stuck(k) + (if k in m && k !in v then {n} else {})
  {}

  lemma {:induction false} TickFollows(log: Log, k: string, was: Row, is_: Row, now: Time, m: set<string>,
                                       v: set<string>)
    requires log.Ok() && v <= m && (log.times != [] ==> log.times[|log.times| - 1] <= now)
    requires Follows(log, k, was, is_) && (k in m ==> IsDue(is_, now))
    ensures log.Then(now, m, v).Ok()
    ensures Follows(log.Then(now, m, v), k, was, if k in v then is_.(due := now + is_.interval) else is_)
  {
    var next, t := log.Then(now, m, v), Tick(now, k in m, k in v);
    LogThen(log, now, m, v, k);
    var ticks := next.Of(k);
    assert ticks[..|ticks| - 1] == log.Of(k);
    var p := Ticks(Plan(was.due, []), was.interval, log.Of(k));
    var q := Step(p, was.interval, t);
    assert Ticks(Plan(was.due, []), was.interval, ticks) == q;
    if k in m {
      assert q.fires[..|q.fires| - 1] == p.fires;
    }
  }

  lemma SpanGrows(a: int, b: int, interval: int)
    requires interval > 0 && a <= b
    ensures a / interval <= b / interval
  {
    AtMost(a / interval, interval, b);
  }

  /** Fires lie within the times of the ticks. */
  lemma {:induction false} FiresWithin(p: Plan, interval: int, ticks: seq<Tick>, lo: Time, hi: Time)
    requires p.fires == [] && forall i :: 0 <= i < |ticks| ==> lo <= ticks[i].now <= hi
    ensures forall f :: f in Ticks(p, interval, ticks).fires ==> lo <= f.at <= hi
    decreases |ticks|
  {
    if ticks != [] {
      FiresWithin(p, interval, ticks[..|ticks| - 1], lo, hi);
    }
  }

  /** No schedule opens more tickets than one, one more for each whole interval
      the run spans, and one for each time its due date could not be moved. */
  ghost predicate Bounded(log: Log, k: string, interval: int)
    requires log.Ok() && interval > 0
  {
    var n := |log.times|;
    n > 0 ==> |log.Opened(k)| <= 1 + (log.times[n - 1] - log.times[0]) / interval + |log.Stuck(k)|
  }

  lemma RunBounded(log: Log, k: string, was: Row, is_: Row)
    requires log.Ok() && Follows(log, k, was, is_) && was.interval > 0
    ensures Bounded(log, k, was.interval)
  {
    var n := |log.times|;
    var ticks := log.Of(k);
    var fires := Ticks(Plan(was.due, []), was.interval, ticks).fires;
    TicketBound(Plan(was.due, []), was.interval, ticks);
    if n > 0 {
      FiresWithin(Plan(was.due, []), was.interval, ticks, log.times[0], log.times[n - 1]);
      if fires == [] {
        SpanGrows(0, log.times[n - 1] - log.times[0], was.interval);
      } else {
        assert fires[0] in fires && fires[|fires| - 1] in fires;
        SpanGrows(fires[|fires| - 1].at - fires[0].at, log.times[n - 1] - log.times[0], was.interval);
      }
    }
  }

  /** New ids for every tick of a run, no two the same. */
  ghost predicate RunIds(keys: set<string>, ids: seq<map<string, string>>, tickets: map<string, Ticket>) {
    && (forall i :: 0 <= i < |ids| ==> NewIds(keys, ids[i], tickets))
    && (forall i, j, k, l :: 0 <= i < j < |ids| && k in keys && l in keys ==> ids[i][k] != ids[j][l])
  }

  ghost predicate HasOpened(tickets: map<string, Ticket>, keys: set<string>, log: Log, ids: seq<map<string, string>>,
                            i: nat)
    requires log.Ok() && i < |log.made| <= |ids|
  {
    forall k :: k in log.made[i] ==>
                  k in keys && k in ids[i] && ids[i][k] in tickets && tickets[ids[i][k]].openedAt == log.times[i]
  }

  ghost predicate SomeOpens(log: Log, ids: seq<map<string, string>>, id: string)
    requires |log.made| <= |ids|
  {
    exists i :: 0 <= i < |log.made| && Opens(log.made[i], ids[i], id)
  }

  /** The tickets after a run: the old ones, and for each tick one of its time for
      each schedule that opened one. */
  ghost predicate Filed(was: map<string, Ticket>, tickets: map<string, Ticket>, keys: set<string>, log: Log,
                        ids: seq<map<string, string>>)
    requires log.Ok() && |log.made| <= |ids|
  {
    && (forall id :: id in was ==> id in tickets && tickets[id] == was[id])
    && (forall i :: 0 <= i < |log.made| ==> HasOpened(tickets, keys, log, ids, i))
    && (forall id :: id in tickets ==> id in was || SomeOpens(log, ids, id))
  }

  lemma OpensStill(log: Log, ids: seq<map<string, string>>, now: Time, m: set<string>, v: set<string>, id: string)
    requires |log.made| < |ids| && (SomeOpens(log, ids, id) || Opens(m, ids[|log.made|], id))
    ensures SomeOpens(log.Then(now, m, v), ids, id)
  {
    var next, n := log.Then(now, m, v), |log.made|;
    if SomeOpens(log, ids, id) {
      var i :| 0 <= i < n && Opens(log.made[i], ids[i], id);
      assert next.made[i] == log.made[i];
    } else {
      assert next.made[n] == m;
    }
  }

  lemma HasOpenedStill(before: map<string, Ticket>, tickets: map<string, Ticket>, keys: set<string>, log: Log,
                       ids: seq<map<string, string>>, now: Time, m: set<string>, v: set<string>, i: nat)
    requires log.Ok() && |log.made| < |ids| && i <= |log.made| && log.Then(now, m, v).Ok() && m <= keys
    requires i < |log.made| ==> HasOpened(before, keys, log, ids, i)
    requires Grown(before, tickets, m, ids[|log.made|], now)
    ensures HasOpened(tickets, keys, log.Then(now, m, v), ids, i)
  {
    var next, n := log.Then(now, m, v), |log.made|;
    assert i < n ==> next.made[i] == log.made[i] && next.times[i] == log.times[i];
    assert i == n ==> next.made[i] == m && next.times[i] == now;
  }

  lemma TickFiles(was: map<string, Ticket>, before: map<string, Ticket>, tickets: map<string, Ticket>,
                  keys: set<string>, log: Log, ids: seq<map<string, string>>, now: Time, m: set<string>, v: set<string>)
    requires log.Ok() && |log.made| < |ids| && Filed(was, before, keys, log, ids) && m <= keys
    requires Grown(before, tickets, m, ids[|log.made|], now) && log.Then(now, m, v).Ok()
    ensures Filed(was, tickets, keys, log.Then(now, m, v), ids)
  {
    var next := log.Then(now, m, v);
    forall id | id in tickets && id !in was ensures SomeOpens(next, ids, id) { OpensStill(log, ids, now, m, v, id); }
    forall i | 0 <= i < |next.made| ensures HasOpened(tickets, keys, next, ids, i) {
      HasOpenedStill(before, tickets, keys, log, ids, now, m, v, i);
    }
  }

  lemma NextIds(keys: set<string>, ids: seq<map<string, string>>, was: map<string, Ticket>,
                tickets: map<string, Ticket>, log: Log)
    requires log.Ok() && |log.made| < |ids| && RunIds(keys, ids, was) && Filed(was, tickets, keys, log, ids)
    ensures NewIds(keys, ids[|log.made|], tickets)
  {
    var n := |log.made|;
    assert NewIds(keys, ids[n], was);
    forall k | k in keys ensures ids[n][k] !in tickets {
      forall i | 0 <= i < n ensures !Opens(log.made[i], ids[i], ids[n][k]) {
        forall l | l in log.made[i] && l in ids[i] ensures ids[i][l] != ids[n][k] {
          assert HasOpened(tickets, keys, log, ids, i);
        }
      }
    }
  }

  ghost predicate AllFollow<T>(log: Log, was: map<string, T>, is_: map<string, T>, row: T -> Row)
    requires log.Ok()
  {
    was.Keys == is_.Keys && forall k :: k in was ==> Follows(log, k, row(was[k]), row(is_[k]))
  }

  ghost predicate Advances<T(!new)>(row: T -> Row, advance: (T, Time) -> T) {
    forall x, now :: row(advance(x, now)) == row(x).(due := now + row(x).interval)
  }

  lemma TickAllFollow<T(!new)>(log: Log, was: map<string, T>, before: map<string, T>, is_: map<string, T>, now: Time,
                               m: set<string>, v: set<string>, row: T -> Row, advance: (T, Time) -> T)
    requires log.Ok() && AllFollow(log, was, before, row) && Advances(row, advance)
    requires Moved(before, is_, m, v, now, row, advance)
    requires log.times != [] ==> log.times[|log.times| - 1] <= now
    ensures log.Then(now, m, v).Ok() && AllFollow(log.Then(now, m, v), was, is_, row)
  {
    LogThen(log, now, m, v, "");
    forall k | k in was ensures Follows(log.Then(now, m, v), k, row(was[k]), row(is_[k])) {
      TickFollows(log, k, row(was[k]), row(before[k]), now, m, v);
    }
  }

  lemma EmptyLog<T>(all: map<string, T>, row: T -> Row)
    ensures Log([], [], []).Ok() && AllFollow(Log([], [], []), all, all, row)
  {
    var log := Log([], [], []);
    forall k | k in all ensures Follows(log, k, row(all[k]), row(all[k])) {
      assert log.Of(k) == [] && log.Opened(k) == {} && log.Stuck(k) == {};
    }
  }

  /** When the schedule is due as tick `i` comes. */
  ghost function DueAt(log: Log, k: string, was: Row, i: nat): Time
    requires log.Ok() && i <= |log.times|
  {
    Ticks(Plan(was.due, []), was.interval, log.Of(k)[..i]).due
  }

  ghost predicate PromptAt(log: Log, k: string, was: Row, i: nat)
    requires log.Ok() && i < |log.times|
  {
    was.enabled && DueAt(log, k, was, i) <= log.times[i] ==> k in log.moved[i]
  }

  /** Whenever a tick found the schedule due, it opened its ticket and moved. */
  ghost predicate Prompt(log: Log, k: string, was: Row)
    requires log.Ok()
  {
    forall i :: 0 <= i < |log.times| ==> PromptAt(log, k, was, i)
  }

  ghost predicate AllPrompt<T>(log: Log, was: map<string, T>, row: T -> Row)
    requires log.Ok()
  {
    forall k :: k in was ==> Prompt(log, k, row(was[k]))
  }

  lemma DueStays(log: Log, k: string, was: Row, now: Time, m: set<string>, v: set<string>, i: nat)
    requires log.Ok() && log.Then(now, m, v).Ok() && i <= |log.times|
    ensures DueAt(log.Then(now, m, v), k, was, i) == DueAt(log, k, was, i)
  {
    assert log.Then(now, m, v).Of(k)[..i] == log.Of(k)[..i];
  }

  lemma DueNow(log: Log, k: string, was: Row, is_: Row)
    requires log.Ok() && Follows(log, k, was, is_)
    ensures DueAt(log, k, was, |log.times|) == is_.due && was.enabled == is_.enabled
  {
    assert log.Of(k)[..|log.times|] == log.Of(k);
  }

  lemma {:induction false} PromptThen(log: Log, k: string, was: Row, is_: Row, now: Time, m: set<string>,
                                      v: set<string>)
    requires log.Ok() && v <= m && (log.times != [] ==> log.times[|log.times| - 1] <= now)
    requires Follows(log, k, was, is_) && Prompt(log, k, was) && (IsDue(is_, now) ==> k in v)
    ensures log.Then(now, m, v).Ok() && Prompt(log.Then(now, m, v), k, was)
  {
    var next, n := log.Then(now, m, v), |log.times|;
    LogThen(log, now, m, v, k);
    forall i | 0 <= i < |next.times| ensures PromptAt(next, k, was, i) {
      DueStays(log, k, was, now, m, v, i);
      if i == n {
        DueNow(log, k, was, is_);
      } else {
        assert PromptAt(log, k, was, i) && next.times[i] == log.times[i] && next.moved[i] == log.moved[i];
      }
    }
  }

  lemma TickAllPrompt<T(!new)>(log: Log, was: map<string, T>, before: map<string, T>, is_: map<string, T>, now: Time,
                               m: set<string>, v: set<string>, row: T -> Row, advance: (T, Time) -> T)
    requires log.Ok() && AllFollow(log, was, before, row) && AllPrompt(log, was, row) && Advances(row, advance)
    requires Moved(before, is_, m, v, now, row, advance) && Missed(before, v, now, row) == {}
    requires log.times != [] ==> log.times[|log.times| - 1] <= now
    ensures log.Then(now, m, v).Ok() && AllPrompt(log.Then(now, m, v), was, row)
  {
    LogThen(log, now, m, v, "");
    CleanTick(before, is_, m, v, now, row, advance);
    forall k | k in was ensures Prompt(log.Then(now, m, v), k, row(was[k])) {
      PromptThen(log, k, row(was[k]), row(before[k]), now, m, v);
    }
  }

  /** A run under way, or over. */
  ghost predicate Running<T>(log: Log, was: map<string, T>, is_: map<string, T>, first: map<string, Ticket>,
                             tickets: map<string, Ticket>, ids: seq<map<string, string>>, row: T -> Row)
  {
    && log.Ok() && |log.made| <= |ids|
    && AllFollow(log, was, is_, row) && Filed(first, tickets, was.Keys, log, ids)
  }

  lemma TickRuns<T(!new)>(log: Log, was: map<string, T>, before: map<string, T>, is_: map<string, T>,
                          first: map<string, Ticket>, old_: map<string, Ticket>, tickets: map<string, Ticket>,
                          ids: seq<map<string, string>>, now: Time, m: set<string>, v: set<string>, row: T -> Row,
                          advance: (T, Time) -> T)
    requires Running(log, was, before, first, old_, ids, row) && |log.made| < |ids| && Advances(row, advance)
    requires Moved(before, is_, m, v, now, row, advance) && Grown(old_, tickets, m, ids[|log.made|], now)
    requires log.times != [] ==> log.times[|log.times| - 1] <= now
    ensures Running(log.Then(now, m, v), was, is_, first, tickets, ids, row)
  {
    TickAllFollow(log, was, before, is_, now, m, v, row, advance);
    TickFiles(first, old_, tickets, was.Keys, log, ids, now, m, v);
  }

  /** The ticks whose ticket for schedule `k` is in the store. */
  ghost function Issued(ids: seq<map<string, string>>, k: string, tickets: map<string, Ticket>): set<int> {
    set i | 0 <= i < |ids| && k in ids[i] && ids[i][k] in tickets
  }

  lemma SameId(keys: set<string>, ids: seq<map<string, string>>, was: map<string, Ticket>, i: nat, k: string, j: nat,
               l: string)
    requires RunIds(keys, ids, was) && i < |ids| && j < |ids| && k in keys && l in keys
    ensures k in ids[i] && l in ids[j] && (ids[i][k] == ids[j][l] ==> i == j && k == l)
  {
    assert NewIds(keys, ids[i], was) && NewIds(keys, ids[j], was);
  }

  lemma IssuedOpened(was: map<string, Ticket>, tickets: map<string, Ticket>, keys: set<string>, log: Log,
                     ids: seq<map<string, string>>, k: string, i: int)
    requires log.Ok() && |log.made| == |ids| && RunIds(keys, ids, was) && Filed(was, tickets, keys, log, ids)
             && k in keys
    requires i in Issued(ids, k, tickets)
    ensures i in log.Opened(k)
  {
    var id := ids[i][k];
    assert NewIds(keys, ids[i], was);
    assert SomeOpens(log, ids, id);
    var j :| 0 <= j < |log.made| && Opens(log.made[j], ids[j], id);
    assert HasOpened(tickets, keys, log, ids, j);
    var l :| l in log.made[j] && l in ids[j] && ids[j][l] == id;
    SameId(keys, ids, was, i, k, j, l);
  }

  lemma IssuedIs(was: map<string, Ticket>, tickets: map<string, Ticket>, keys: set<string>, log: Log,
                 ids: seq<map<string, string>>, k: string)
    requires log.Ok() && |log.made| == |ids| && RunIds(keys, ids, was) && Filed(was, tickets, keys, log, ids)
             && k in keys
    ensures Issued(ids, k, tickets) == log.Opened(k)
  {
    forall i | i in Issued(ids, k, tickets) ensures i in log.Opened(k) {
      IssuedOpened(was, tickets, keys, log, ids, k, i);
    }
    forall i | i in log.Opened(k) ensures i in Issued(ids, k, tickets) {
      assert HasOpened(tickets, keys, log, ids, i);
    }
  }

  /** The tickets in the store that a schedule opened are as many as its log says
      and so bounded. */
  ghost predicate AllBounded<T>(log: Log, was: map<string, T>, tickets: map<string, Ticket>,
                                ids: seq<map<string, string>>, row: T -> Row)
    requires log.Ok()
  {
    forall k :: k in was ==>
                  && Issued(ids, k, tickets) == log.Opened(k)
                  && (row(was[k]).interval > 0 ==> Bounded(log, k, row(was[k]).interval))
  }

  lemma RunAllBounded<T>(log: Log, was: map<string, T>, is_: map<string, T>, first: map<string, Ticket>,
                         tickets: map<string, Ticket>, ids: seq<map<string, string>>, row: T -> Row)
    requires Running(log, was, is_, first, tickets, ids, row) && |log.made| == |ids| && RunIds(was.Keys, ids, first)
    ensures AllBounded(log, was, tickets, ids, row)
  {
    forall k | k in was
      ensures Issued(ids, k, tickets) == log.Opened(k)
      ensures row(was[k]).interval > 0 ==> Bounded(log, k, row(was[k]).interval)
    {
      IssuedIs(first, tickets, was.Keys, log, ids, k);
      if row(was[k]).interval > 0 {
        RunBounded(log, k, row(was[k]), row(is_[k]));
      }
    }
  }

  ghost predicate InOrder(times: seq<Time>) { forall i, j :: 0 <= i < j < |times| ==> times[i] <= times[j] }

  lemma TakeNext(times: seq<Time>, n: nat)
    requires n < |times|
    ensures times[..n + 1] == times[..n] + [times[n]]
  {}

  lemma InspectionsStayKeyed(all: map<string, InspectionTemplate>, is_: map<string, InspectionTemplate>, m: set<string>,
                             v: set<string>, now: Time)
    requires InspectionsKeyed(all) && Moved(all, is_, m, v, now, InspectionRow, AdvanceInspection)
    ensures InspectionsKeyed(is_)
  {}

  lemma PMsStayKeyed(all: map<string, PMSchedule>, is_: map<string, PMSchedule>, m: set<string>, v: set<string>,
                     now: Time)
    requires PMsKeyed(all) && Moved(all, is_, m, v, now, PMRow, AdvancePM)
    ensures PMsKeyed(is_)
  {}

  /** The inspection scanner at these times: what every template did is a run of
      ticks, so the tickets it opened are bounded. */
  method RunInspectionScanner(st: Store, times: seq<Time>, ids: seq<map<string, string>>) returns (ghost log: Log)
    requires st.Valid() && InspectionsKeyed(st.inspections) && InOrder(times)
    requires |ids| == |times| && RunIds(st.inspections.Keys, ids, st.tickets)
    modifies st`tickets, st`inspections, st`saved, st`refused
    ensures st.Valid() && log.times == times
    ensures Running(log, old(st.inspections), st.inspections, old(st.tickets), st.tickets, ids, InspectionRow)
    ensures AllBounded(log, old(st.inspections), st.tickets, ids, InspectionRow)
    ensures st.refused == old(st.refused) ==> AllPrompt(log, old(st.inspections), InspectionRow)
  {
    ghost var was, first := st.inspections, st.tickets;
    log := Log([], [], []);
    EmptyLog(was, InspectionRow);
    for n := 0 to |times|
      invariant st.Valid() && log.times == times[..n] && InspectionsKeyed(st.inspections)
      invariant Running(log, was, st.inspections, first, st.tickets, ids, InspectionRow)
      invariant st.refused >= old(st.refused) && (st.refused == old(st.refused) ==> AllPrompt(log, was, InspectionRow))
    {
      ghost var before, tickets := st.inspections, st.tickets;
      NextIds(was.Keys, ids, first, tickets, log);
      var m, v := ScanInspectionTick(st, times[n], ids[n]);
      if st.refused == old(st.refused) {
        TickAllPrompt(log, was, before, st.inspections, times[n], m, v, InspectionRow, AdvanceInspection);
      }
      TickRuns(log, was, before, st.inspections, first, tickets, st.tickets, ids, times[n], m, v,
               InspectionRow, AdvanceInspection);
      InspectionsStayKeyed(before, st.inspections, m, v, times[n]);
      log := log.Then(times[n], m, v);
      TakeNext(times, n);
    }
    assert times[..|times|] == times;
    RunAllBounded(log, was, st.inspections, first, st.tickets, ids, InspectionRow);
  }

  /** The PM scanner, with intervals of whole days. */
  method RunPMScanner(st: Store, times: seq<Time>, ids: seq<map<string, string>>) returns (ghost log: Log)
    requires st.Valid() && PMsKeyed(st.pmSchedules) && InOrder(times)
    requires |ids| == |times| && RunIds(st.pmSchedules.Keys, ids, st.tickets)
    modifies st`tickets, st`pmSchedules, st`saved, st`refused
    ensures st.Valid() && log.times == times
    ensures Running(log, old(st.pmSchedules), st.pmSchedules, old(st.tickets), st.tickets, ids, PMRow)
    ensures AllBounded(log, old(st.pmSchedules), st.tickets, ids, PMRow)
    ensures st.refused == old(st.refused) ==> AllPrompt(log, old(st.pmSchedules), PMRow)
  {
    ghost var was, first := st.pmSchedules, st.tickets;
    log := Log([], [], []);
    EmptyLog(was, PMRow);
    for n := 0 to |times|
      invariant st.Valid() && log.times == times[..n] && PMsKeyed(st.pmSchedules)
      invariant Running(log, was, st.pmSchedules, first, st.tickets, ids, PMRow)
      invariant st.refused >= old(st.refused) && (st.refused == old(st.refused) ==> AllPrompt(log, was, PMRow))
    {
      ghost var before, tickets := st.pmSchedules, st.tickets;
      NextIds(was.Keys, ids, first, tickets, log);
      var m, v := ScanPMTick(st, times[n], ids[n]);
      if st.refused == old(st.refused) {
        TickAllPrompt(log, was, before, st.pmSchedules, times[n], m, v, PMRow, AdvancePM);
      }
      TickRuns(log, was, before, st.pmSchedules, first, tickets, st.tickets, ids, times[n], m, v, PMRow, AdvancePM);
      PMsStayKeyed(before, st.pmSchedules, m, v, times[n]);
      log := log.Then(times[n], m, v);
      TakeNext(times, n);
    }
    assert times[..|times|] == times;
    RunAllBounded(log, was, st.pmSchedules, first, st.tickets, ids, PMRow);
  }
}
