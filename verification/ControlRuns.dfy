/** The two-man rule told by the steps themselves (core/setctl.go): which requests
    lie behind a dispatch, which requests lead to one, and that a parked write
    waits for its approval until its time is up. */
module ControlRuns {
  import opened Text
  import opened Records
  import opened RiskPolicy
  import opened Control
  import Rbac
  import Ops

  // ---- Where a dispatch comes from ------------------------------------------------

  /** What the clock shows when step `n` is taken. */
  ghost function ClockAt(clock: Time, steps: seq<Step>, n: nat): Time
    requires n <= |steps|
  {
    Run(clock, steps[..n]).w.clock
  }

  /** Step `n` submitted this entry. */
  ghost predicate SubmittedBy(clock: Time, steps: seq<Step>, n: nat, p: Pending) {
    && n < |steps| && steps[n].Submit?
    && p == Pending(steps[n].id, steps[n].path, steps[n].req, p.requester, ClockAt(clock, steps, n),
                    ClockAt(clock, steps, n) + Ttl(steps[n].req))
    && steps[n].principal == Some(p.requester)
  }

  /** Step `m` is this approval. */
  ghost predicate ApprovedBy(clock: Time, steps: seq<Step>, m: nat, id: string, approver: Rbac.Principal, at: Time) {
    m < |steps| && steps[m].Approve? && steps[m].id == id && steps[m].approver == approver
    && at == ClockAt(clock, steps, m)
  }

  ghost predicate Submitted(clock: Time, steps: seq<Step>, p: Pending) {
    exists n: nat :: SubmittedBy(clock, steps, n, p)
  }

  ghost predicate Approved(clock: Time, steps: seq<Step>, id: string, approver: Rbac.Principal, at: Time) {
    exists m: nat :: ApprovedBy(clock, steps, m, id, approver, at)
  }

  /** Entries in the world come from submissions, approvals in it from approvals. */
  ghost predicate ThreadFrom(t: Thread, sub: Pending -> bool, app: (string, Rbac.Principal, Time) -> bool) {
    match t
    case Preparing(p, _) => sub(p)
    case Noted(p) => sub(p)
    case Reading(id, a, at) => app(id, a, at)
    case Cleared(p, a, at, _) => app(p.id, a, at)
    case Spending(p, a, at, _) => app(p.id, a, at)
    case Sending(_, _) => true
  }

  ghost predicate WorldFrom(w: World, sub: Pending -> bool, app: (string, Rbac.Principal, Time) -> bool) {
    && (forall k :: k in w.parked ==> sub(w.parked[k]))
    && (forall i :: 0 <= i < |w.execs| ==> app(w.execs[i].pend.id, w.execs[i].approver, w.execs[i].at))
  }

  ghost predicate From(s: State, sub: Pending -> bool, app: (string, Rbac.Principal, Time) -> bool) {
    WorldFrom(s.w, sub, app) && forall i :: i in s.threads ==> ThreadFrom(s.threads[i], sub, app)
  }

  lemma LookUpFrom(s: State, tid: nat, closed: bool, sub: Pending -> bool, app: (string, Rbac.Principal, Time) -> bool)
    requires Inv(s) && From(s, sub, app)
    ensures From(LookUpStep(s, tid, closed), sub, app)
  {
    if tid in s.threads && s.threads[tid].Reading? {
      assert ThreadFrom(s.threads[tid], sub, app);
      var id := s.threads[tid].id;
      assert id in s.w.pending ==> s.w.pending[id].id == id;
    }
  }

  lemma OtherFrom(s: State, step: Step, sub: Pending -> bool, app: (string, Rbac.Principal, Time) -> bool)
    requires From(s, sub, app) && !step.Submit? && !step.Approve? && !step.LookUp?
    ensures From(Next(s, step), sub, app)
  {
    if (step.Note? || step.Park? || step.Consume? || step.Audit?) && step.tid in s.threads {
      assert ThreadFrom(s.threads[step.tid], sub, app);
    }
  }

  lemma {:induction false} StepFrom(s: State, step: Step, sub: Pending -> bool,
                                    app: (string, Rbac.Principal, Time) -> bool)
    requires Inv(s) && From(s, sub, app)
    requires step.Submit? && step.principal.Some? ==>
               sub(NewPending(s.w.clock, step.principal.value, step.path, step.req, step.id))
    requires step.Approve? ==> app(step.id, step.approver, s.w.clock)
    ensures From(Next(s, step), sub, app)
  {
    if step.LookUp? {
      LookUpFrom(s, step.tid, step.closed, sub, app);
    } else if !step.Submit? && !step.Approve? {
      OtherFrom(s, step, sub, app);
    }
  }

  lemma RunNext(clock: Time, steps: seq<Step>, n: nat)
    requires 0 < n <= |steps|
    ensures Run(clock, steps[..n]) == Next(Run(clock, steps[..n - 1]), steps[n - 1])
  {
    assert steps[..n][..n - 1] == steps[..n - 1];
  }

  /** `sub` and `app` hold of what the run submitted and approved. */
  ghost predicate Covers(clock: Time, steps: seq<Step>, sub: Pending -> bool,
                         app: (string, Rbac.Principal, Time) -> bool)
  {
    && (forall p :: Submitted(clock, steps, p) ==> sub(p))
    && (forall id, a, at :: Approved(clock, steps, id, a, at) ==> app(id, a, at))
  }

  lemma CoversStep(clock: Time, steps: seq<Step>, n: nat, sub: Pending -> bool,
                   app: (string, Rbac.Principal, Time) -> bool)
    requires n < |steps| && Covers(clock, steps, sub, app)
    ensures steps[n].Submit? && steps[n].principal.Some? ==>
              sub(NewPending(ClockAt(clock, steps, n), steps[n].principal.value, steps[n].path, steps[n].req,
                steps[n].id))
    ensures steps[n].Approve? ==> app(steps[n].id, steps[n].approver, ClockAt(clock, steps, n))
  {
    var step, at := steps[n], ClockAt(clock, steps, n);
    if step.Submit? && step.principal.Some? {
      assert SubmittedBy(clock, steps, n, NewPending(at, step.principal.value, step.path, step.req, step.id));
    } else if step.Approve? {
      assert ApprovedBy(clock, steps, n, step.id, step.approver, at);
    }
  }

  lemma EmptyFrom(clock: Time, sub: Pending -> bool, app: (string, Rbac.Principal, Time) -> bool)
    ensures From(Run(clock, []), sub, app)
  {}

  lemma {:induction false} RunFrom(clock: Time, steps: seq<Step>, n: nat, sub: Pending -> bool,
                                   app: (string, Rbac.Principal, Time) -> bool)
    requires n <= |steps| && Covers(clock, steps, sub, app)
    ensures From(Run(clock, steps[..n]), sub, app)
  {
    if n == 0 {
      EmptyFrom(clock, sub, app);
    } else {
      RunFrom(clock, steps, n - 1, sub, app);
      RunKeeps(clock, steps[..n - 1]);
      RunNext(clock, steps, n);
      CoversStep(clock, steps, n - 1, sub, app);
      StepFrom(Run(clock, steps[..n - 1]), steps[n - 1], sub, app);
    }
  }

  /** Step `n` asked for what `d` does and step `m` approved it in time: another
      principal, who may write the point. */
  ghost predicate Behind(clock: Time, steps: seq<Step>, n: nat, m: nat, d: Dispatch) {
    && n < |steps| && m < |steps| && steps[n].Submit? && steps[m].Approve?
    && var ask, yes := steps[n], steps[m];
       && yes.id == ask.id && ask.principal == Some(d.actor)
       && d.path == ask.path && d.value == ask.req.value && d.ttl == Ttl(ask.req) && d.readback
       && Lower(yes.approver.subject) != Lower(d.actor)
       && (exists closed :: Rbac.Authorize(yes.approver, Rbac.ControlWrite, ask.path, "", closed))
       && ClockAt(clock, steps, m) <= ClockAt(clock, steps, n) + Ttl(ask.req)
  }

  lemma TracedBack(clock: Time, steps: seq<Step>, w: World, d: Dispatch, row: nat, e: Exec) returns (n: nat, m: nat)
    requires CarriesOut(w, d, row, e) && Submitted(clock, steps, e.pend)
    requires Approved(clock, steps, e.pend.id, e.approver, e.at)
    ensures Behind(clock, steps, n, m, d)
  {
    n :| SubmittedBy(clock, steps, n, e.pend);
    m :| ApprovedBy(clock, steps, m, e.pend.id, e.approver, e.at);
  }

  lemma AllFrom(clock: Time, steps: seq<Step>)
    ensures var w := Run(clock, steps).w;
            && (forall k :: k in w.parked ==> Submitted(clock, steps, w.parked[k]))
            && (forall i :: 0 <= i < |w.execs| ==>
                  Approved(clock, steps, w.execs[i].pend.id, w.execs[i].approver, w.execs[i].at))
  {
    var sub := p => Submitted(clock, steps, p);
    var app := (id, a, at) => Approved(clock, steps, id, a, at);
    RunFrom(clock, steps, |steps|, sub, app);
    assert steps[..|steps|] == steps;
  }

  /** Behind every dispatch to a class-A point there are a request and an
      approval in the run. */
  lemma {:induction false} TwoManTrace(clock: Time, steps: seq<Step>, i: nat) returns (n: nat, m: nat)
    requires var w := Run(clock, steps).w; i < |w.sent| && Classify(w.sent[i].d.path) == Some(ClassA)
    ensures Behind(clock, steps, n, m, Run(clock, steps).w.sent[i].d)
  {
    var w := Run(clock, steps).w;
    AllFrom(clock, steps);
    TwoManRule(clock, steps, i);
    var k :| 0 <= k < |w.execs| && CarriesOut(w, w.sent[i].d, w.sent[i].row, w.execs[k]);
    n, m := TracedBack(clock, steps, w, w.sent[i].d, w.sent[i].row, w.execs[k]);
  }

  // ---- What leads to a dispatch -----------------------------------------------------

  /** A request is submitted, announced and parked. */
  ghost function Ask(s: State, tid: nat, principal: Option<string>, header: string, path: string, req: Request,
                     id: string, rid: string): State {
    Next(Next(Next(s, Submit(tid, principal, header, path, req, id, rid)), Note(tid, true)), Park(tid))
  }

  /** It is approved and carried out. */
  ghost function Answer(s: State, tid: nat, id: string, approver: Rbac.Principal, closed: bool, auditId: string,
                        rid: string): State {
    var cleared := Next(Next(s, Approve(tid, id, approver)), LookUp(tid, closed));
    Next(Next(Next(cleared, Consume(tid)), Audit(tid, auditId, rid, true)), Send(tid))
  }

  /** Who asks: the principal, or for want of a name the header. */
  function Actor(principal: Option<string>, header: string): string {
    if principal.Some? && principal.value != "" then principal.value else Ops.TrimSpace(header)
  }

  /** A request of class A that is taken in. */
  ghost predicate Askable(principal: Option<string>, header: string, path: string, req: Request) {
    Classify(path) == Some(ClassA) && principal.Some? && Actor(principal, header) != "" && req.ttlSeconds > 0
  }

  /** What the policy takes in, by class. */
  lemma Gate(class_: Option<RiskClass>, actor: string, req: Request)
    ensures EvaluateSetPolicy(class_, actor, req) ==
            if actor != "" && req.ttlSeconds > 0 && class_.Some? && (class_ == Some(ClassB) ==> req.readback)
            then Accepted(class_.value) else Refused
  {}

  lemma AskOpens(s: State, tid: nat, principal: Option<string>, header: string, path: string, req: Request, id: string,
                 rid: string)
    requires tid !in s.threads && id !in s.w.used
    ensures var n := Next(s, Submit(tid, principal, header, path, req, id, rid));
            if Askable(principal, header, path, req)
            then n == Opened(s, tid, Pending(id, path, req, principal.value, s.w.clock, s.w.clock + Ttl(req)), rid)
            else n == s
  {
    Gate(Classify(path), Actor(principal, header), req);
    assert EvaluateSetPolicy(Classify(path), Actor(principal, header), req) == Accepted(ClassA) && principal.Some? <==>
           Askable(principal, header, path, req);
  }

  lemma OpenedParks(s: State, tid: nat, p: Pending, rid: string)
    requires tid !in s.threads
    ensures var n := Next(Next(Opened(s, tid, p, rid), Note(tid, true)), Park(tid));
            && n.threads == s.threads && n.w.clock == s.w.clock && n.w.used == s.w.used + {p.id} && n.w.sent == s.w.sent
            && |n.w.audits| == |s.w.audits| + 1 && p.id in n.w.pending && n.w.pending[p.id] == p
  {
    var s1 := Opened(s, tid, p, rid);
    var s2 := NoteStep(s1, tid, true);
    assert s1.threads[tid] == Preparing(p, rid) && s2.threads[tid] == Noted(p);
    assert s2.threads - {tid} == s.threads;
  }

  lemma AskRefused(s: State, tid: nat)
    requires tid !in s.threads
    ensures Next(Next(s, Note(tid, true)), Park(tid)) == s
  {}

  /** After asking, the request waits under its id with the full time to live, or
      nothing has changed. */
  lemma AskParks(s: State, tid: nat, principal: Option<string>, header: string, path: string, req: Request, id: string,
                 rid: string)
    requires tid !in s.threads && id !in s.w.used
    ensures var n := Ask(s, tid, principal, header, path, req, id, rid);
            if Askable(principal, header, path, req) then
              && n.threads == s.threads && n.w.clock == s.w.clock && n.w.used == s.w.used + {id} && n.w.sent == s.w.sent
              && |n.w.audits| == |s.w.audits| + 1 && id in n.w.pending
              && n.w.pending[id] == Pending(id, path, req, principal.value, s.w.clock, s.w.clock + Ttl(req))
            else n == s
  {
    AskOpens(s, tid, principal, header, path, req, id, rid);
    if Askable(principal, header, path, req) {
      OpenedParks(s, tid, Pending(id, path, req, principal.value, s.w.clock, s.w.clock + Ttl(req)), rid);
    } else {
      AskRefused(s, tid);
    }
  }

  /** The approver may: in time, another principal, and entitled to write. */
  ghost predicate Answerable(s: State, id: string, approver: Rbac.Principal, closed: bool) {
    && id in s.w.pending
    && var p := s.w.pending[id];
       && s.w.clock <= p.expiresAt && Lower(approver.subject) != Lower(p.requester)
       && Rbac.Authorize(approver, Rbac.ControlWrite, p.path, "", closed)
  }

  lemma AnswerClears(s: State, tid: nat, id: string, approver: Rbac.Principal, closed: bool)
    requires tid !in s.threads
    ensures var n := Next(Next(s, Approve(tid, id, approver)), LookUp(tid, closed));
            && n.w.sent == s.w.sent && n.w.audits == s.w.audits && n.w.used == s.w.used
            && if Answerable(s, id, approver, closed)
               then n.w == s.w && tid in n.threads
                 && n.threads[tid] == Cleared(s.w.pending[id], approver, s.w.clock, closed)
               else tid !in n.threads
  {
    var s1 := Put(s, s.w, tid, Reading(id, approver, s.w.clock));
    assert Next(s, Approve(tid, id, approver)) == s1;
    assert s1.threads[tid] == Reading(id, approver, s.w.clock);
  }

  lemma ClearedSends(s: State, tid: nat, auditId: string, rid: string)
    requires tid in s.threads && s.threads[tid].Cleared? && s.threads[tid].pend.id in s.w.pending
             && auditId !in s.w.used
    ensures var n := Next(Next(Next(s, Consume(tid)), Audit(tid, auditId, rid, true)), Send(tid));
            var p := s.threads[tid].pend;
            n.w.sent == s.w.sent + [Sent(Dispatch(p.path, auditId, p.requester, ClassA, p.req.value, Ttl(p.req), true),
                                         |s.w.audits|)]
  {
    var s1 := ConsumeStep(s, tid);
    var t := s.threads[tid];
    assert s1.threads[tid] == Spending(t.pend, t.approver, t.at, t.closed);
    var s2 := AuditStep(s1, tid, auditId, rid, true);
    assert s2.threads[tid].Sending?;
  }

  lemma NothingSends(s: State, tid: nat, auditId: string, rid: string)
    requires tid !in s.threads
    ensures Next(Next(Next(s, Consume(tid)), Audit(tid, auditId, rid, true)), Send(tid)) == s
  {}

  /** An answer sends what was asked for, exactly if the approver may give it. */
  lemma AnswerSends(s: State, tid: nat, id: string, approver: Rbac.Principal, closed: bool, auditId: string,
                    rid: string)
    requires tid !in s.threads && auditId !in s.w.used && (id in s.w.pending ==> s.w.pending[id].id == id)
    ensures Answer(s, tid, id, approver, closed, auditId, rid).w.sent ==
            if Answerable(s, id, approver, closed) then
              var p := s.w.pending[id];
              s.w.sent + [Sent(Dispatch(p.path, auditId, p.requester, ClassA, p.req.value, Ttl(p.req), true),
                |s.w.audits|)]
            else s.w.sent
  {
    AnswerClears(s, tid, id, approver, closed);
    var n := Next(Next(s, Approve(tid, id, approver)), LookUp(tid, closed));
    if Answerable(s, id, approver, closed) {
      ClearedSends(n, tid, auditId, rid);
    } else {
      NothingSends(n, tid, auditId, rid);
    }
  }

  /** A class-A write that is asked for, and answered after `wait`, goes out
      exactly if it may be asked for, the wait is within its time to live, and
      the approver is someone else who may write the point. */
  lemma DualWrite(s: State, a: nat, b: nat, principal: Option<string>, header: string, path: string, req: Request,
                  id: string, wait: nat, approver: Rbac.Principal, closed: bool, auditId: string, rid: string)
    requires a !in s.threads && b !in s.threads && id !in s.w.used && auditId !in s.w.used && auditId != id
    requires id !in s.w.pending
    ensures var asked := Ask(s, a, principal, header, path, req, id, rid);
            var waited := Next(asked, Advance(s.w.clock + wait));
            Answer(waited, b, id, approver, closed, auditId, rid).w.sent ==
            if && Askable(principal, header, path, req) && wait <= Ttl(req)
               && Lower(approver.subject) != Lower(principal.value)
               && Rbac.Authorize(approver, Rbac.ControlWrite, path, "", closed)
            then s.w.sent + [Sent(Dispatch(path, auditId, principal.value, ClassA, req.value, Ttl(req), true),
                                  |s.w.audits| + 1)]
            else s.w.sent
  {
    AskParks(s, a, principal, header, path, req, id, rid);
    var asked := Ask(s, a, principal, header, path, req, id, rid);
    var waited := Next(asked, Advance(s.w.clock + wait));
    assert waited == asked.(w := asked.w.(clock := s.w.clock + wait));
    AnswerSends(waited, b, id, approver, closed, auditId, rid);
  }

  /** A write of class B or C goes out at once, exactly if it has an actor and a
      time to live and, in class B, asks for a readback. */
  lemma DirectWrite(s: State, tid: nat, actor: string, second: string, path: string, req: Request, auditId: string,
                    rid: string)
    requires tid !in s.threads && auditId !in s.w.used
    ensures var n := Next(Next(s, Direct(tid, actor, second, path, req, auditId, rid, true)), Send(tid));
            var class_ := Classify(path);
            n.w.sent ==
            if && actor != "" && req.ttlSeconds > 0
               && (class_ == Some(ClassC) || (class_ == Some(ClassB) && req.readback))
            then s.w.sent + [Sent(Dispatch(path, auditId, actor, class_.value, req.value, Ttl(req), req.readback),
                                  |s.w.audits|)]
            else s.w.sent
  {
    var s1 := DirectStep(s, tid, actor, second, path, req, auditId, rid, true);
    assert tid in s1.threads ==> s1.threads[tid].Sending?;
  }

  // ---- A parked write waits -----------------------------------------------------------

  /** Times read are not ahead of the clock. */
  ghost predicate Timely(s: State) {
    forall i :: i in s.threads ==>
                  && (s.threads[i].Reading? ==> s.threads[i].at <= s.w.clock)
                  && (s.threads[i].Preparing? || s.threads[i].Noted? ==> s.threads[i].pend.createdAt <= s.w.clock)
  }

  lemma {:induction false} StepTimely(s: State, step: Step)
    requires Timely(s)
    ensures Timely(Next(s, step)) && s.w.clock <= Next(s, step).w.clock
  {}

  lemma {:induction false} TimelyAt(clock: Time, steps: seq<Step>, n: nat)
    requires n <= |steps|
    ensures Timely(Run(clock, steps[..n]))
    decreases n
  {
    if n > 0 {
      TimelyAt(clock, steps, n - 1);
      RunNext(clock, steps, n);
      StepTimely(Run(clock, steps[..n - 1]), steps[n - 1]);
    }
  }

  /** An approval takes the entry. */
  ghost predicate Takes(s: State, step: Step, id: string) {
    step.Consume? && step.tid in s.threads && s.threads[step.tid].Cleared? && s.threads[step.tid].pend.id == id
  }

  ghost predicate Waits(s: State, p: Pending) { p.id in s.w.pending && s.w.pending[p.id] == p }

  lemma {:induction false} StepWaits(s: State, step: Step, p: Pending)
    requires Inv(s) && Timely(s) && Waits(s, p)
    requires !step.Restart? && !Takes(s, step, p.id) && s.w.clock <= p.expiresAt
    ensures Waits(Next(s, step), p)
  {
    if step.Park? && step.tid in s.threads && s.threads[step.tid].Noted? {
      assert ThreadOk(s.w, s.threads[step.tid]);
    }
  }

  /** From step `lo` to step `hi` nothing takes the entry and the server keeps
      running. */
  ghost predicate LeftAlone(clock: Time, steps: seq<Step>, lo: nat, hi: nat, id: string)
    requires hi <= |steps|
  {
    forall k :: lo <= k < hi ==> !steps[k].Restart? && !Takes(Run(clock, steps[..k]), steps[k], id)
  }

  /** Until its time is up a parked write waits for its approval, whatever else
      happens. */
  lemma {:induction false} EntryWaits(clock: Time, steps: seq<Step>, lo: nat, hi: nat, p: Pending)
    requires lo <= hi <= |steps| && Waits(Run(clock, steps[..lo]), p)
    requires LeftAlone(clock, steps, lo, hi, p.id) && ClockAt(clock, steps, hi) <= p.expiresAt
    ensures Waits(Run(clock, steps[..hi]), p)
    decreases hi
  {
    if lo < hi {
      RunNext(clock, steps, hi);
      TimelyAt(clock, steps, hi - 1);
      StepTimely(Run(clock, steps[..hi - 1]), steps[hi - 1]);
      EntryWaits(clock, steps, lo, hi - 1, p);
      RunKeeps(clock, steps[..hi - 1]);
      StepWaits(Run(clock, steps[..hi - 1]), steps[hi - 1], p);
    }
  }

  /** What is no longer pending never is again: not after its approval, even one
      whose own record fails, not after expiry, and not after a restart. */
  lemma {:induction false} StepGone(s: State, step: Step, id: string)
    requires Inv(s) && id in s.w.parked && id !in s.w.pending
    ensures id in Next(s, step).w.parked && id !in Next(s, step).w.pending
  {
    if step.Park? && step.tid in s.threads && s.threads[step.tid].Noted? {
      assert ThreadOk(s.w, s.threads[step.tid]);
    }
  }

  lemma {:induction false} GoneStays(clock: Time, steps: seq<Step>, n: nat, id: string)
    requires n <= |steps| && id in Run(clock, steps[..n]).w.parked && id !in Run(clock, steps[..n]).w.pending
    ensures id !in Run(clock, steps).w.pending && id in Run(clock, steps).w.parked
    decreases |steps|
  {
    if n == |steps| {
      assert steps[..n] == steps;
    } else {
      var init := steps[..|steps| - 1];
      assert init[..n] == steps[..n];
      GoneStays(clock, init, n, id);
      RunKeeps(clock, init);
      StepGone(Run(clock, init), steps[|steps| - 1], id);
    }
  }

  /** A restart forgets all that is pending and in flight. */
  lemma RestartForgets(s: State)
    ensures var n := Next(s, Restart); n.w.pending == map[] && n.threads == map[] && n.w.audits == s.w.audits
  {}

  /** Parking sweeps by the requester's clock: it takes the entries that had run
      out when the request came, however late it gets to the lock. */
  lemma ParkSweeps(s: State, tid: nat, id: string)
    requires tid in s.threads && s.threads[tid].Noted? && id != s.threads[tid].pend.id
    ensures var n := Next(s, Park(tid));
            && (id in n.w.pending <==>
                id in s.w.pending && s.threads[tid].pend.createdAt <= s.w.pending[id].expiresAt)
            && (id in n.w.pending ==> n.w.pending[id] == s.w.pending[id])
  {
    assert Next(s, Park(tid)).w == ParkedWorld(s.w, s.threads[tid].pend);
  }

  /** The time limit is read with the approver's clock, before the lock: an
      approval that starts in time is cleared however late it gets there. */
  lemma LateLookUp(s: State, tid: nat, id: string, approver: Rbac.Principal, later: Time, closed: bool)
    requires tid !in s.threads && Answerable(s, id, approver, closed) && later >= s.w.clock
    ensures var n := Next(Next(Next(s, Approve(tid, id, approver)), Advance(later)), LookUp(tid, closed));
            tid in n.threads && n.threads[tid] == Cleared(s.w.pending[id], approver, s.w.clock, closed)
  {
    var s1 := Put(s, s.w, tid, Reading(id, approver, s.w.clock));
    var s2 := Next(s1, Advance(later));
    assert s2 == State(s.w.(clock := later), s1.threads) && s2.threads[tid] == Reading(id, approver, s.w.clock);
  }
}
