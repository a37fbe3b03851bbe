/** The two-man rule for class-A control writes (core/setctl.go): a request is
    parked under a time limit and runs only when a second principal approves
    it. Requests of several principals interleave at every lock, clock reading
    and store write. */
module Control {
  import opened Text
  import opened Records
  import opened RiskPolicy
  import Rbac
  import Ops

  datatype Request = Request(value: real, ttlSeconds: int, readback: bool, note: string)

  datatype Pending = Pending(id: string, path: string, req: Request, requester: string, createdAt: Time,
                             expiresAt: Time)

  const SECOND := 1_000_000_000

  /** Arithmetic of a signed 64-bit duration. */
  function Wrap64(x: int): int { (x + 0x8000_0000_0000_0000) % 0x1_0000_0000_0000_0000 - 0x8000_0000_0000_0000 }

  function Ttl(req: Request): int { Wrap64(req.ttlSeconds * SECOND) }

  /** The time to live is that many seconds exactly if they fit in 64 bits. */
  lemma TtlExact(req: Request)
    ensures Ttl(req) == req.ttlSeconds * SECOND <==>
            -0x8000_0000_0000_0000 <= req.ttlSeconds * SECOND < 0x8000_0000_0000_0000
  {}

  // ---- The policy gate ------------------------------------------------------

  datatype Verdict = Refused | Accepted(class_: RiskClass)

  /** Times, ids and identities aside: what the policy says of a request. */
  function EvaluateSetPolicy(class_: Option<RiskClass>, actor: string, req: Request): Verdict {
    if actor == "" || req.ttlSeconds <= 0 || class_.None? then Refused
    else if class_.value == ClassB && !req.readback then Refused
    else Accepted(class_.value)
  }

  // ---- The table of pending writes --------------------------------------------

  type Table = map<string, Pending>

  function Swept(pending: Table, now: Time): Table {
    map id | id in pending && now <= pending[id].expiresAt :: pending[id]
  }

  datatype Lookup = Missing | Expired | Found(pend: Pending)

  function Check(pending: Table, id: string, now: Time): Lookup {
    if id !in pending then Missing else if now > pending[id].expiresAt then Expired else Found(pending[id])
  }

  /** The server's map of pending writes; each method is one critical section. */
  class PendingSets {
    var pending: Table

    method Park(p: Pending, now: Time)
      modifies this
      ensures pending == Swept(old(pending), now)[p.id := p]
    {
      var todo := pending.Keys;
      ghost var before := pending;
      while todo != {}
        invariant todo <= before.Keys
        invariant forall id :: id in pending ==> id in before && pending[id] == before[id]
        invariant forall id :: id in before && id in todo ==> id in pending
        invariant forall id :: id in before && id !in todo ==> (id in pending <==> now <= before[id].expiresAt)
        decreases todo
      {
        var id :| id in todo;
        if now > pending[id].expiresAt {
          pending := pending - {id};
        }
        todo := todo - {id};
      }
      assert pending == Swept(before, now);
      pending := pending[p.id := p];
    }

    method LookUp(id: string, now: Time) returns (r: Lookup)
      modifies this
      ensures r == Check(old(pending), id, now)
      ensures pending == if r.Expired? then old(pending) - {id} else old(pending)
    {
      if id !in pending {
        return Missing;
      }
      var pend := pending[id];
      if now > pend.expiresAt {
        pending := pending - {id};
        return Expired;
      }
      r := Found(pend);
    }

    method Consume(id: string) returns (still: bool)
      modifies this
      ensures still <==> id in old(pending)
      ensures pending == old(pending) - {id}
    {
      still := id in pending;
      if still {
        pending := pending - {id};
      }
    }
  }

  // ---- The protocol as a state machine ----------------------------------------

  /** What is sent southbound. */
  datatype Dispatch = Dispatch(path: string, auditId: string, actor: string, class_: RiskClass, value: real, ttl: int,
                               readback: bool)

  /** How far a request in flight has got. */
  datatype Thread =
    | Preparing(pend: Pending, rid: string)
    | Noted(pend: Pending)
    | Reading(id: string, approver: Rbac.Principal, at: Time)
    | Cleared(pend: Pending, approver: Rbac.Principal, at: Time, closed: bool)
    | Spending(pend: Pending, approver: Rbac.Principal, at: Time, closed: bool)
    | Sending(d: Dispatch, row: nat)

  /** History: a class-A write that was carried out, and its audit row. */
  datatype Exec = Exec(pend: Pending, approver: Rbac.Principal, at: Time, closed: bool, row: nat)

  /** History: a dispatch made for an audit row. */
  datatype Sent = Sent(d: Dispatch, row: nat)

  /** The clock, the table, the audit log, and history: ids handed out, every
      entry ever parked, executions and dispatches. */
  datatype World = World(
    clock: Time,
    pending: Table,
    audits: seq<SetAudit>,
    used: set<string>,
    parked: Table,
    execs: seq<Exec>,
    sent: seq<Sent>)

  datatype State = State(w: World, threads: map<nat, Thread>)

  datatype Step =
    | Advance(to: Time)
    | Submit(tid: nat, principal: Option<string>, header: string, path: string, req: Request, id: string, rid: string)
    | Note(tid: nat, saved: bool)
    | Park(tid: nat)
    | Approve(tid: nat, id: string, approver: Rbac.Principal)
    | LookUp(tid: nat, closed: bool)
    | Consume(tid: nat)
    | Audit(tid: nat, auditId: string, rid: string, saved: bool)
    | Direct(tid: nat, actor: string, second: string, path: string, req: Request, auditId: string, rid: string,
      saved: bool)
    | Send(tid: nat)
    | Restart

  const PENDING_NOTE := "pending dual approval"

  function PendingRow(p: Pending, rid: string): SetAudit {
    SetAudit(p.id, p.path, ClassA, p.req.value, p.requester, "", p.createdAt, true, PENDING_NOTE, rid)
  }

  function ExecRow(id: string, path: string, class_: RiskClass, req: Request, actor: string, second: string, now: Time,
                   rid: string): SetAudit {
    SetAudit(id, path, class_, req.value, actor, second, now, req.readback || class_ != ClassC, req.note, rid)
  }

  function DispatchOf(row: SetAudit, ttl: int): Dispatch {
    Dispatch(row.path, row.id, row.actor, row.class_, row.value, ttl, row.readback)
  }

  /** The approver differs from the requester whatever the case of the letters,
      and may write the point. */
  predicate Entitled(approver: Rbac.Principal, p: Pending, closed: bool) {
    Lower(approver.subject) != Lower(p.requester) && Rbac.Authorize(approver, Rbac.ControlWrite, p.path, "", closed)
  }

  function Put(s: State, w: World, tid: nat, t: Thread): State { State(w, s.threads[tid := t]) }

  function Drop(s: State, w: World, tid: nat): State { State(w, s.threads - {tid}) }

  function NewPending(now: Time, subject: string, path: string, req: Request, id: string): Pending {
    Pending(id, path, req, subject, now, now + Ttl(req))
  }

  function Opened(s: State, tid: nat, p: Pending, rid: string): State {
    Put(s, s.w.(used := s.w.used + {p.id}), tid, Preparing(p, rid))
  }

  /** The header may name an actor for the policy, but without a principal no
      class-A request is opened. */
  ghost function SubmitStep(s: State, tid: nat, principal: Option<string>, header: string, path: string, req: Request,
                            id: string, rid: string): State {
    var w := s.w;
    var subject := if principal.Some? then principal.value else "";
    var actor := if subject != "" then subject else Ops.TrimSpace(header);
    if tid in s.threads || id in w.used || EvaluateSetPolicy(Classify(path), actor, req) != Accepted(ClassA) then s
    else if principal.None? then s
    else Opened(s, tid, NewPending(w.clock, subject, path, req, id), rid)
  }

  /** The audit row comes first; without it the request is dropped. */
  function NoteStep(s: State, tid: nat, saved: bool): State {
    if tid !in s.threads || !s.threads[tid].Preparing? then s
    else if !saved then Drop(s, s.w, tid)
    else
      var t := s.threads[tid];
      Put(s, s.w.(audits := s.w.audits + [PendingRow(t.pend, t.rid)]), tid, Noted(t.pend))
  }

  function ParkStep(s: State, tid: nat): State {
    if tid !in s.threads || !s.threads[tid].Noted? then s else Drop(s, ParkedWorld(s.w, s.threads[tid].pend), tid)
  }

  /** The first lock of an approval, and the checks after it. */
  function LookUpStep(s: State, tid: nat, closed: bool): State {
    if tid !in s.threads || !s.threads[tid].Reading? then s
    else
      var t := s.threads[tid];
      var found := Check(s.w.pending, t.id, t.at);
      if found.Expired? then Drop(s, s.w.(pending := s.w.pending - {t.id}), tid)
      else if found.Found? && Entitled(t.approver, found.pend, closed)
      then Put(s, s.w, tid, Cleared(found.pend, t.approver, t.at, closed))
      else Drop(s, s.w, tid)
  }

  /** The second lock: the entry is a token that can be taken once. */
  function ConsumeStep(s: State, tid: nat): State {
    if tid !in s.threads || !s.threads[tid].Cleared? then s
    else
      var t := s.threads[tid];
      if t.pend.id !in s.w.pending then Drop(s, s.w, tid)
      else Put(s, s.w.(pending := s.w.pending - {t.pend.id}), tid, Spending(t.pend, t.approver, t.at, t.closed))
  }

  function AuditStep(s: State, tid: nat, auditId: string, rid: string, saved: bool): State {
    if tid !in s.threads || !s.threads[tid].Spending? || auditId in s.w.used then s
    else if !saved then Drop(s, s.w, tid)
    else
      var t := s.threads[tid];
      var row := ExecRow(auditId, t.pend.path, ClassA, t.pend.req, t.pend.requester, t.approver.subject, s.w.clock,
        rid);
      Put(s, Executed(s.w, row, Exec(t.pend, t.approver, t.at, t.closed, |s.w.audits|)), tid,
          Sending(DispatchOf(row, Ttl(t.pend.req)), |s.w.audits|))
  }

  /** A class-B or class-C write needs no second principal. */
  ghost function DirectStep(s: State, tid: nat, actor: string, second: string, path: string, req: Request,
                            auditId: string, rid: string, saved: bool): State {
    var v := EvaluateSetPolicy(Classify(path), actor, req);
    if tid in s.threads || auditId in s.w.used || !saved || v.Refused? || v.class_ == ClassA then s
    else
      var row := ExecRow(auditId, path, v.class_, req, actor, second, s.w.clock, rid);
      Put(s, s.w.(audits := s.w.audits + [row], used := s.w.used + {row.id}), tid,
        Sending(DispatchOf(row, Ttl(req)), |s.w.audits|))
  }

  function SendStep(s: State, tid: nat): State {
    if tid !in s.threads || !s.threads[tid].Sending? then s
    else Drop(s, s.w.(sent := s.w.sent + [Sent(s.threads[tid].d, s.threads[tid].row)]), tid)
  }

  /** One atomic step. A step whose thread is not at that point, or whose
      random id is not new, does nothing. */
  ghost function Next(s: State, step: Step): State {
    match step
    case Advance(to) => if to >= s.w.clock then s.(w := s.w.(clock := to)) else s
    case Submit(tid, principal, header, path, req, id, rid) =>
      SubmitStep(s, tid, principal, header, path, req, id, rid)
    case Note(tid, saved) => NoteStep(s, tid, saved)
    case Park(tid) => ParkStep(s, tid)
    case Approve(tid, id, approver) =>
      if tid in s.threads then s else Put(s, s.w, tid, Reading(id, approver, s.w.clock))
    case LookUp(tid, closed) => LookUpStep(s, tid, closed)
    case Consume(tid) => ConsumeStep(s, tid)
    case Audit(tid, auditId, rid, saved) => AuditStep(s, tid, auditId, rid, saved)
    case Direct(tid, actor, second, path, req, auditId, rid, saved) =>
      DirectStep(s, tid, actor, second, path, req, auditId, rid, saved)
    case Send(tid) => SendStep(s, tid)
    case Restart => State(s.w.(pending := map[]), map[])
  }

  function ParkedWorld(w: World, p: Pending): World {
    w.(pending := Swept(w.pending, p.createdAt)[p.id := p], parked := w.parked[p.id := p])
  }

  function Executed(w: World, row: SetAudit, e: Exec): World {
    w.(audits := w.audits + [row], used := w.used + {row.id}, execs := w.execs + [e])
  }

  /** The state after a run that starts with an empty server. */
  ghost function Run(clock: Time, steps: seq<Step>): State
    decreases |steps|
  {
    if steps == [] then State(World(clock, map[], [], {}, map[], [], []), map[])
    else Next(Run(clock, steps[..|steps| - 1]), steps[|steps| - 1])
  }

  // ---- What every reachable state satisfies ---------------------------------

  /** The audit row announcing `p` is among the first `n`. */
  ghost predicate Announced(audits: seq<SetAudit>, n: nat, p: Pending) {
    exists j, rid :: 0 <= j < n && j < |audits| && audits[j] == PendingRow(p, rid)
  }

  ghost predicate ExecAt(execs: seq<Exec>, row: nat) { exists i :: 0 <= i < |execs| && execs[i].row == row }

  /** An execution with that row and time to live. */
  ghost predicate ExecFor(execs: seq<Exec>, row: nat, ttl: int) {
    exists i :: 0 <= i < |execs| && execs[i].row == row && Ttl(execs[i].pend.req) == ttl
  }

  ghost predicate TablesOk(w: World) {
    && (forall k :: k in w.parked ==>
          w.parked[k].id == k && k in w.used && Announced(w.audits, |w.audits|, w.parked[k]))
    && (forall k :: k in w.pending ==> k in w.parked && w.parked[k] == w.pending[k])
  }

  /** The entry is the one that was parked under its id. */
  ghost predicate Genuine(w: World, p: Pending) { p.id in w.parked && w.parked[p.id] == p }

  /** An approval that has passed the checks. */
  ghost predicate Approval(p: Pending, approver: Rbac.Principal, at: Time, closed: bool) {
    at <= p.expiresAt && Entitled(approver, p, closed)
  }

  ghost predicate Unspent(execs: seq<Exec>, id: string) { forall i :: 0 <= i < |execs| ==> execs[i].pend.id != id }

  ghost predicate Unsent(sent: seq<Sent>, row: nat) { forall i :: 0 <= i < |sent| ==> sent[i].row != row }

  ghost predicate Backed(w: World, d: Dispatch, row: nat) {
    row < |w.audits| && d == DispatchOf(w.audits[row], d.ttl) && (d.class_ == ClassA ==> ExecFor(w.execs, row, d.ttl))
  }

  ghost predicate ThreadOk(w: World, t: Thread) {
    match t
    case Preparing(p, _) => p.id in w.used && p.id !in w.parked
    case Noted(p) => p.id in w.used && p.id !in w.parked && Announced(w.audits, |w.audits|, p)
    case Reading(_, _, _) => true
    case Cleared(p, _, _, _) => Genuine(w, p)
    case Spending(p, _, _, _) => Genuine(w, p) && p.id !in w.pending && Unspent(w.execs, p.id)
    case Sending(d, row) => Backed(w, d, row) && Unsent(w.sent, row)
  }

  /** The entry passed the policy gate: a class-A point and a positive time to
      live, at the end of which it runs out. */
  ghost predicate PendSound(p: Pending) {
    Classify(p.path) == Some(ClassA) && p.req.ttlSeconds > 0 && p.expiresAt == p.createdAt + Ttl(p.req)
  }

  /** The row records the class its point has, and a readback for A and B. */
  ghost predicate RowSound(row: SetAudit) {
    Classify(row.path) == Some(row.class_) && (row.class_ != ClassC ==> row.readback)
  }

  ghost predicate ThreadSound(t: Thread) {
    && (t.Cleared? || t.Spending? ==> Approval(t.pend, t.approver, t.at, t.closed))
    && (!t.Reading? && !t.Sending? ==> PendSound(t.pend))
  }

  predicate Opening(t: Thread) { t.Preparing? || t.Noted? }

  /** Two requests in flight never hold the same id, token or audit row. */
  predicate Apart(t: Thread, u: Thread) {
    && (Opening(t) && Opening(u) ==> t.pend.id != u.pend.id)
    && (t.Spending? && u.Spending? ==> t.pend.id != u.pend.id)
    && (t.Sending? && u.Sending? ==> t.row != u.row)
  }

  ghost predicate ExecOk(w: World, e: Exec) {
    && Genuine(w, e.pend) && e.pend.id !in w.pending
    && e.row < |w.audits| && Announced(w.audits, e.row, e.pend) && IsExecRow(w.audits[e.row], e)
  }

  ghost predicate ExecSound(e: Exec) { Approval(e.pend, e.approver, e.at, e.closed) }

  predicate IsExecRow(row: SetAudit, e: Exec) {
    row == ExecRow(row.id, e.pend.path, ClassA, e.pend.req, e.pend.requester, e.approver.subject, row.at, row.requestId)
  }

  ghost predicate ExecsOk(w: World) {
    && (forall i :: 0 <= i < |w.execs| ==> ExecOk(w, w.execs[i]))
    && (forall i, j :: 0 <= i < j < |w.execs| ==>
          w.execs[i].pend.id != w.execs[j].pend.id && w.execs[i].row != w.execs[j].row)
  }

  predicate IsPendingRow(row: SetAudit) { row.note == PENDING_NOTE && row.second == "" }

  ghost predicate RowsOk(w: World) {
    forall i :: 0 <= i < |w.audits| && w.audits[i].class_ == ClassA ==> IsPendingRow(w.audits[i]) || ExecAt(w.execs, i)
  }

  ghost predicate SentOk(w: World) {
    && (forall i :: 0 <= i < |w.sent| ==> Backed(w, w.sent[i].d, w.sent[i].row))
    && (forall i, j :: 0 <= i < j < |w.sent| ==> w.sent[i].row != w.sent[j].row)
  }

  ghost predicate WorldOk(w: World) { TablesOk(w) && ExecsOk(w) && RowsOk(w) && SentOk(w) }

  /** What does not depend on the state of the world. */
  ghost predicate WorldSound(w: World) {
    && (forall i :: 0 <= i < |w.execs| ==> ExecSound(w.execs[i]))
    && (forall i :: 0 <= i < |w.audits| ==> RowSound(w.audits[i]))
    && (forall k :: k in w.parked ==> PendSound(w.parked[k]))
  }

  ghost predicate Inv(s: State) {
    && WorldOk(s.w)
    && (forall i :: i in s.threads ==> ThreadOk(s.w, s.threads[i]))
    && (forall i, j :: i in s.threads && j in s.threads && i != j ==> Apart(s.threads[i], s.threads[j]))
  }

  /** Everything in flight and on record passed the checks it had to. */
  ghost predicate Sound(s: State) {
    WorldSound(s.w) && forall i :: i in s.threads ==> ThreadSound(s.threads[i])
  }

  // ---- Moves of the world ---------------------------------------------------------

  lemma AnnouncedGrows(audits: seq<SetAudit>, more: seq<SetAudit>, n: nat, p: Pending)
    requires Announced(audits, n, p)
    ensures Announced(audits + more, n, p) && (n <= |audits| ==> Announced(audits + more, |audits + more|, p))
  {
    var j, rid :| 0 <= j < n && j < |audits| && audits[j] == PendingRow(p, rid);
    assert (audits + more)[j] == PendingRow(p, rid);
  }

  /** More ids used and more audit rows, none of class A but pending rows. */
  lemma MoreRows(w: World, rows: seq<SetAudit>, ids: set<string>)
    requires WorldOk(w) && forall i :: 0 <= i < |rows| ==> rows[i].class_ != ClassA || IsPendingRow(rows[i])
    ensures var n := w.(audits := w.audits + rows, used := w.used + ids);
            WorldOk(n) && forall t :: ThreadOk(w, t) ==> ThreadOk(n, t)
  {
    var n := w.(audits := w.audits + rows, used := w.used + ids);
    forall p, k: nat | k <= |w.audits| && Announced(w.audits, k, p)
      ensures Announced(n.audits, k, p) && Announced(n.audits, |n.audits|, p)
    {
      AnnouncedGrows(w.audits, rows, k, p);
    }
    forall i | 0 <= i < |w.execs| ensures ExecOk(n, w.execs[i]) { assert ExecOk(w, w.execs[i]); }
    forall i | 0 <= i < |n.audits| && n.audits[i].class_ == ClassA
      ensures IsPendingRow(n.audits[i]) || ExecAt(n.execs, i)
    {
      if i < |w.audits| { assert w.audits[i] == n.audits[i]; } else { assert n.audits[i] == rows[i - |w.audits|]; }
    }
  }

  lemma Removed(w: World, pending: Table)
    requires WorldOk(w) && forall k :: k in pending ==> k in w.pending && pending[k] == w.pending[k]
    ensures var n := w.(pending := pending); WorldOk(n) && forall t :: ThreadOk(w, t) ==> ThreadOk(n, t)
  {
    var n := w.(pending := pending);
    forall i | 0 <= i < |w.execs| ensures ExecOk(n, w.execs[i]) { assert ExecOk(w, w.execs[i]); }
  }

  lemma ParkThread(w: World, p: Pending, t: Thread)
    requires ThreadOk(w, Noted(p)) && ThreadOk(w, t) && Apart(t, Noted(p))
    ensures ThreadOk(ParkedWorld(w, p), t)
  {}

  lemma ParkTables(w: World, p: Pending)
    requires TablesOk(w) && ThreadOk(w, Noted(p))
    ensures TablesOk(ParkedWorld(w, p))
  {}

  lemma ParkExec(w: World, p: Pending, e: Exec)
    requires ThreadOk(w, Noted(p)) && ExecOk(w, e)
    ensures ExecOk(ParkedWorld(w, p), e)
  {}

  lemma ParkRest(w: World, p: Pending)
    requires ExecsOk(w) && RowsOk(w) && SentOk(w) && ThreadOk(w, Noted(p))
    ensures ExecsOk(ParkedWorld(w, p)) && RowsOk(ParkedWorld(w, p)) && SentOk(ParkedWorld(w, p))
  {
    var n := ParkedWorld(w, p);
    forall i | 0 <= i < |w.execs| ensures ExecOk(n, w.execs[i]) { ParkExec(w, p, w.execs[i]); }
    forall i | 0 <= i < |w.sent| ensures Backed(n, w.sent[i].d, w.sent[i].row) {
      assert Backed(w, w.sent[i].d, w.sent[i].row);
    }
  }

  lemma ParkMove(w: World, p: Pending)
    requires WorldOk(w) && ThreadOk(w, Noted(p))
    ensures WorldOk(ParkedWorld(w, p))
    ensures forall t :: ThreadOk(w, t) && Apart(t, Noted(p)) ==> ThreadOk(ParkedWorld(w, p), t)
  {
    ParkTables(w, p);
    ParkRest(w, p);
    forall t | ThreadOk(w, t) && Apart(t, Noted(p)) ensures ThreadOk(ParkedWorld(w, p), t) { ParkThread(w, p, t); }
  }

  lemma ExecAtGrows(execs: seq<Exec>, e: Exec)
    ensures forall row: nat :: ExecAt(execs, row) || row == e.row ==> ExecAt(execs + [e], row)
  {
    forall row: nat | ExecAt(execs, row) || row == e.row ensures ExecAt(execs + [e], row) {
      if ExecAt(execs, row) {
        var i :| 0 <= i < |execs| && execs[i].row == row;
        assert (execs + [e])[i].row == row;
      } else {
        assert (execs + [e])[|execs|].row == row;
      }
    }
  }

  lemma ExecTables(w: World, row: SetAudit, e: Exec)
    requires TablesOk(w)
    ensures TablesOk(Executed(w, row, e))
  {
    forall k | k in w.parked ensures Announced(w.audits + [row], |w.audits| + 1, w.parked[k]) {
      AnnouncedGrows(w.audits, [row], |w.audits|, w.parked[k]);
    }
  }

  lemma ExecForGrows(execs: seq<Exec>, e: Exec, row: nat, ttl: int)
    requires ExecFor(execs, row, ttl)
    ensures ExecFor(execs + [e], row, ttl)
  {
    var i :| 0 <= i < |execs| && execs[i].row == row && Ttl(execs[i].pend.req) == ttl;
    assert (execs + [e])[i] == execs[i];
  }

  lemma ExecBacked(w: World, row: SetAudit, e: Exec, d: Dispatch, at: nat)
    requires Backed(w, d, at)
    ensures Backed(Executed(w, row, e), d, at)
  {
    if d.class_ == ClassA { ExecForGrows(w.execs, e, at, d.ttl); }
  }

  lemma ExecThread(w: World, row: SetAudit, e: Exec, t: Thread)
    requires ThreadOk(w, t) && Apart(t, Spending(e.pend, e.approver, e.at, e.closed))
    ensures ThreadOk(Executed(w, row, e), t)
  {
    if t.Noted? { AnnouncedGrows(w.audits, [row], |w.audits|, t.pend); }
    if t.Sending? { ExecBacked(w, row, e, t.d, t.row); }
  }

  lemma ExecExecs(w: World, row: SetAudit, e: Exec)
    requires ExecsOk(w) && TablesOk(w) && ThreadOk(w, Spending(e.pend, e.approver, e.at, e.closed))
    requires e.row == |w.audits| && IsExecRow(row, e)
    ensures ExecsOk(Executed(w, row, e))
  {
    var n := Executed(w, row, e);
    forall i | 0 <= i < |n.execs| ensures ExecOk(n, n.execs[i]) {
      if i < |w.execs| {
        assert ExecOk(w, w.execs[i]);
        AnnouncedGrows(w.audits, [row], w.execs[i].row, w.execs[i].pend);
      } else {
        AnnouncedGrows(w.audits, [row], |w.audits|, e.pend);
      }
    }
  }

  lemma ExecRows(w: World, row: SetAudit, e: Exec)
    requires RowsOk(w) && e.row == |w.audits|
    ensures RowsOk(Executed(w, row, e))
  {
    var n := Executed(w, row, e);
    ExecAtGrows(w.execs, e);
    forall i | 0 <= i < |n.audits| && n.audits[i].class_ == ClassA
      ensures IsPendingRow(n.audits[i]) || ExecAt(n.execs, i)
    {
      if i < |w.audits| { assert w.audits[i] == n.audits[i]; }
    }
  }

  lemma ExecMove(w: World, row: SetAudit, e: Exec)
    requires WorldOk(w) && ThreadOk(w, Spending(e.pend, e.approver, e.at, e.closed))
    requires e.row == |w.audits| && IsExecRow(row, e)
    ensures var n := Executed(w, row, e);
            && WorldOk(n)
            && forall t :: ThreadOk(w, t) && Apart(t, Spending(e.pend, e.approver, e.at, e.closed)) ==> ThreadOk(n, t)
  {
    var n := Executed(w, row, e);
    ExecTables(w, row, e);
    ExecExecs(w, row, e);
    ExecRows(w, row, e);
    forall i | 0 <= i < |w.sent| ensures Backed(n, w.sent[i].d, w.sent[i].row) {
      ExecBacked(w, row, e, w.sent[i].d, w.sent[i].row);
    }
    forall t | ThreadOk(w, t) && Apart(t, Spending(e.pend, e.approver, e.at, e.closed)) ensures ThreadOk(n, t) {
      ExecThread(w, row, e, t);
    }
  }

  lemma SendMove(w: World, d: Dispatch, row: nat)
    requires WorldOk(w) && ThreadOk(w, Sending(d, row))
    ensures var n := w.(sent := w.sent + [Sent(d, row)]);
            WorldOk(n) && forall t :: ThreadOk(w, t) && Apart(t, Sending(d, row)) ==> ThreadOk(n, t)
  {
    var n := w.(sent := w.sent + [Sent(d, row)]);
    forall i | 0 <= i < |w.execs| ensures ExecOk(n, w.execs[i]) { assert ExecOk(w, w.execs[i]); }
  }

  // ---- Every step keeps the invariant ---------------------------------------------

  ghost predicate Settled(s: State, w: World, tid: nat) {
    && WorldOk(w)
    && (forall i :: i in s.threads && i != tid ==> ThreadOk(w, s.threads[i]))
  }

  lemma DropKeeps(s: State, w: World, tid: nat)
    requires Inv(s) && Settled(s, w, tid)
    ensures Inv(Drop(s, w, tid))
  {}

  lemma PutKeeps(s: State, w: World, tid: nat, t: Thread)
    requires Inv(s) && Settled(s, w, tid) && ThreadOk(w, t)
    requires forall i :: i in s.threads && i != tid ==> Apart(s.threads[i], t) && Apart(t, s.threads[i])
    ensures Inv(Put(s, w, tid, t))
  {}

  lemma OpenKeeps(s: State, tid: nat, p: Pending, rid: string)
    requires Inv(s) && p.id !in s.w.used
    ensures Inv(Opened(s, tid, p, rid))
  {
    var n := s.w.(used := s.w.used + {p.id});
    MoreRows(s.w, [], {p.id});
    assert n == s.w.(audits := s.w.audits + [], used := s.w.used + {p.id});
    PutKeeps(s, n, tid, Preparing(p, rid));
  }

  lemma SubmitKeeps(s: State, tid: nat, principal: Option<string>, header: string, path: string, req: Request,
                    id: string, rid: string)
    requires Inv(s)
    ensures Inv(SubmitStep(s, tid, principal, header, path, req, id, rid))
  {
    if id !in s.w.used && principal.Some? {
      OpenKeeps(s, tid, NewPending(s.w.clock, principal.value, path, req, id), rid);
    }
  }

  lemma NoteKeeps(s: State, tid: nat, saved: bool)
    requires Inv(s)
    ensures Inv(NoteStep(s, tid, saved))
  {
    if tid in s.threads && s.threads[tid].Preparing? {
      if saved {
        var t := s.threads[tid];
        var row := PendingRow(t.pend, t.rid);
        var n := s.w.(audits := s.w.audits + [row]);
        MoreRows(s.w, [row], {});
        assert n == s.w.(audits := s.w.audits + [row], used := s.w.used + {});
        assert n.audits[|s.w.audits|] == row;
        assert Announced(n.audits, |n.audits|, t.pend);
        PutKeeps(s, n, tid, Noted(t.pend));
      } else {
        DropKeeps(s, s.w, tid);
      }
    }
  }

  lemma ParkKeeps(s: State, tid: nat)
    requires Inv(s)
    ensures Inv(ParkStep(s, tid))
  {
    if tid in s.threads && s.threads[tid].Noted? {
      ParkMove(s.w, s.threads[tid].pend);
      DropKeeps(s, ParkedWorld(s.w, s.threads[tid].pend), tid);
    }
  }

  lemma RemoveSettles(s: State, id: string, tid: nat)
    requires Inv(s)
    ensures Settled(s, s.w.(pending := s.w.pending - {id}), tid)
  {
    Removed(s.w, s.w.pending - {id});
  }

  lemma {:induction false} LookUpKeeps(s: State, tid: nat, closed: bool)
    requires Inv(s)
    ensures Inv(LookUpStep(s, tid, closed))
  {
    if tid in s.threads && s.threads[tid].Reading? {
      var t := s.threads[tid];
      var found := Check(s.w.pending, t.id, t.at);
      if found.Expired? {
        RemoveSettles(s, t.id, tid);
        DropKeeps(s, s.w.(pending := s.w.pending - {t.id}), tid);
      } else if found.Found? && Entitled(t.approver, found.pend, closed) {
        PutKeeps(s, s.w, tid, Cleared(found.pend, t.approver, t.at, closed));
      } else {
        DropKeeps(s, s.w, tid);
      }
    }
  }

  lemma TokenUnspent(s: State, id: string)
    requires Inv(s) && id in s.w.pending
    ensures Unspent(s.w.execs, id)
  {
    forall i | 0 <= i < |s.w.execs| ensures s.w.execs[i].pend.id != id { assert ExecOk(s.w, s.w.execs[i]); }
  }

  lemma {:induction false} ConsumeKeeps(s: State, tid: nat)
    requires Inv(s)
    ensures Inv(ConsumeStep(s, tid))
  {
    if tid in s.threads && s.threads[tid].Cleared? {
      var t := s.threads[tid];
      if t.pend.id in s.w.pending {
        RemoveSettles(s, t.pend.id, tid);
        TokenUnspent(s, t.pend.id);
        PutKeeps(s, s.w.(pending := s.w.pending - {t.pend.id}), tid, Spending(t.pend, t.approver, t.at, t.closed));
      } else {
        DropKeeps(s, s.w, tid);
      }
    }
  }

  lemma NewExecBacked(w: World, row: SetAudit, e: Exec)
    requires e.row == |w.audits| && SentOk(w)
    ensures ThreadOk(Executed(w, row, e), Sending(DispatchOf(row, Ttl(e.pend.req)), |w.audits|))
  {
    var n := Executed(w, row, e);
    assert n.audits[|w.audits|] == row;
    assert n.execs[|w.execs|] == e;
    assert ExecFor(n.execs, |w.audits|, Ttl(e.pend.req));
  }

  lemma {:induction false} ExecSettles(s: State, tid: nat, row: SetAudit, e: Exec)
    requires Inv(s) && tid in s.threads && s.threads[tid] == Spending(e.pend, e.approver, e.at, e.closed)
    requires e.row == |s.w.audits| && IsExecRow(row, e)
    ensures Settled(s, Executed(s.w, row, e), tid)
  {
    ExecMove(s.w, row, e);
  }

  lemma AuditKeeps(s: State, tid: nat, auditId: string, rid: string, saved: bool)
    requires Inv(s)
    ensures Inv(AuditStep(s, tid, auditId, rid, saved))
  {
    if tid in s.threads && s.threads[tid].Spending? && auditId !in s.w.used {
      if saved {
        var t := s.threads[tid];
        var e := Exec(t.pend, t.approver, t.at, t.closed, |s.w.audits|);
        var row := ExecRow(auditId, t.pend.path, ClassA, t.pend.req, t.pend.requester, t.approver.subject, s.w.clock,
          rid);
        ExecSettles(s, tid, row, e);
        NewExecBacked(s.w, row, e);
        SendingApart(s, DispatchOf(row, Ttl(t.pend.req)));
        PutKeeps(s, Executed(s.w, row, e), tid, Sending(DispatchOf(row, Ttl(t.pend.req)), |s.w.audits|));
      } else {
        DropKeeps(s, s.w, tid);
      }
    }
  }

  /** No request in flight is sending for a row that does not exist yet. */
  lemma SendingApart(s: State, d: Dispatch)
    requires Inv(s)
    ensures forall i :: i in s.threads ==>
              Apart(s.threads[i], Sending(d, |s.w.audits|)) && Apart(Sending(d, |s.w.audits|), s.threads[i])
  {
    forall i | i in s.threads
      ensures Apart(s.threads[i], Sending(d, |s.w.audits|)) && Apart(Sending(d, |s.w.audits|), s.threads[i])
    {
      assert ThreadOk(s.w, s.threads[i]);
    }
  }

  lemma ExecuteKeeps(s: State, tid: nat, row: SetAudit, ttl: int)
    requires Inv(s) && row.class_ != ClassA
    ensures Inv(Put(s, s.w.(audits := s.w.audits + [row], used := s.w.used + {row.id}), tid,
                    Sending(DispatchOf(row, ttl), |s.w.audits|)))
  {
    var n := s.w.(audits := s.w.audits + [row], used := s.w.used + {row.id});
    MoreRows(s.w, [row], {row.id});
    assert n.audits[|s.w.audits|] == row;
    SendingApart(s, DispatchOf(row, ttl));
    PutKeeps(s, n, tid, Sending(DispatchOf(row, ttl), |s.w.audits|));
  }

  lemma DirectKeeps(s: State, tid: nat, actor: string, second: string, path: string, req: Request, auditId: string,
                    rid: string, saved: bool)
    requires Inv(s)
    ensures Inv(DirectStep(s, tid, actor, second, path, req, auditId, rid, saved))
  {
    if DirectStep(s, tid, actor, second, path, req, auditId, rid, saved) != s {
      var class_ := EvaluateSetPolicy(Classify(path), actor, req).class_;
      ExecuteKeeps(s, tid, ExecRow(auditId, path, class_, req, actor, second, s.w.clock, rid), Ttl(req));
    }
  }

  lemma SendKeeps(s: State, tid: nat)
    requires Inv(s)
    ensures Inv(SendStep(s, tid))
  {
    if tid in s.threads && s.threads[tid].Sending? {
      var t := s.threads[tid];
      SendMove(s.w, t.d, t.row);
      DropKeeps(s, s.w.(sent := s.w.sent + [Sent(t.d, t.row)]), tid);
    }
  }

  lemma RestartKeeps(s: State)
    requires Inv(s)
    ensures Inv(State(s.w.(pending := map[]), map[]))
  {
    Removed(s.w, map[]);
  }

  lemma AdvanceKeeps(s: State, to: Time)
    requires Inv(s)
    ensures Inv(s.(w := s.w.(clock := to)))
  {
    var n := s.w.(clock := to);
    forall i | 0 <= i < |s.w.execs| ensures ExecOk(n, s.w.execs[i]) { assert ExecOk(s.w, s.w.execs[i]); }
    forall i | i in s.threads ensures ThreadOk(n, s.threads[i]) { assert ThreadOk(s.w, s.threads[i]); }
  }

  lemma {:induction false} StepKeeps(s: State, step: Step)
    requires Inv(s)
    ensures Inv(Next(s, step))
  {
    match step
    case Advance(to) => AdvanceKeeps(s, to);
    case Submit(tid, principal, header, path, req, id, rid) =>
      SubmitKeeps(s, tid, principal, header, path, req, id, rid);
    case Note(tid, saved) => NoteKeeps(s, tid, saved);
    case Park(tid) => ParkKeeps(s, tid);
    case Approve(tid, id, approver) =>
      if tid !in s.threads { PutKeeps(s, s.w, tid, Reading(id, approver, s.w.clock)); }
    case LookUp(tid, closed) => LookUpKeeps(s, tid, closed);
    case Consume(tid) => ConsumeKeeps(s, tid);
    case Audit(tid, auditId, rid, saved) => AuditKeeps(s, tid, auditId, rid, saved);
    case Direct(tid, actor, second, path, req, auditId, rid, saved) =>
      DirectKeeps(s, tid, actor, second, path, req, auditId, rid, saved);
    case Send(tid) => SendKeeps(s, tid);
    case Restart => RestartKeeps(s);
  }

  // ---- Every step keeps what was checked -----------------------------------------

  lemma DropSound(s: State, w: World, tid: nat)
    requires Sound(s) && WorldSound(w)
    ensures Sound(Drop(s, w, tid))
  {}

  lemma PutSound(s: State, w: World, tid: nat, t: Thread)
    requires Sound(s) && WorldSound(w) && ThreadSound(t)
    ensures Sound(Put(s, w, tid, t))
  {}

  lemma RowAdded(w: World, row: SetAudit, ids: set<string>)
    requires WorldSound(w) && RowSound(row)
    ensures WorldSound(w.(audits := w.audits + [row], used := w.used + ids))
  {}

  lemma SubmitSound(s: State, tid: nat, principal: Option<string>, header: string, path: string, req: Request,
                    id: string, rid: string)
    requires Sound(s)
    ensures Sound(SubmitStep(s, tid, principal, header, path, req, id, rid))
  {
    if principal.Some? {
      var p := NewPending(s.w.clock, principal.value, path, req, id);
      if PendSound(p) {
        PutSound(s, s.w.(used := s.w.used + {id}), tid, Preparing(p, rid));
      }
    }
  }

  lemma NoteSound(s: State, tid: nat, saved: bool)
    requires Sound(s)
    ensures Sound(NoteStep(s, tid, saved))
  {
    if tid in s.threads && s.threads[tid].Preparing? {
      var t := s.threads[tid];
      var row := PendingRow(t.pend, t.rid);
      DropSound(s, s.w, tid);
      RowAdded(s.w, row, {});
      assert s.w.(audits := s.w.audits + [row]) == s.w.(audits := s.w.audits + [row], used := s.w.used + {});
      PutSound(s, s.w.(audits := s.w.audits + [row]), tid, Noted(t.pend));
    }
  }

  lemma ParkSound(s: State, tid: nat)
    requires Sound(s)
    ensures Sound(ParkStep(s, tid))
  {
    if tid in s.threads && s.threads[tid].Noted? {
      DropSound(s, ParkedWorld(s.w, s.threads[tid].pend), tid);
    }
  }

  lemma LookUpSound(s: State, tid: nat, closed: bool)
    requires Inv(s) && Sound(s)
    ensures Sound(LookUpStep(s, tid, closed))
  {
    if tid in s.threads && s.threads[tid].Reading? {
      var t := s.threads[tid];
      var found := Check(s.w.pending, t.id, t.at);
      DropSound(s, s.w, tid);
      DropSound(s, s.w.(pending := s.w.pending - {t.id}), tid);
      if found.Found? && Entitled(t.approver, found.pend, closed) {
        PutSound(s, s.w, tid, Cleared(found.pend, t.approver, t.at, closed));
      }
    }
  }

  lemma ConsumeSound(s: State, tid: nat)
    requires Sound(s)
    ensures Sound(ConsumeStep(s, tid))
  {
    if tid in s.threads && s.threads[tid].Cleared? {
      var t := s.threads[tid];
      DropSound(s, s.w, tid);
      PutSound(s, s.w.(pending := s.w.pending - {t.pend.id}), tid, Spending(t.pend, t.approver, t.at, t.closed));
    }
  }

  lemma AuditSound(s: State, tid: nat, auditId: string, rid: string, saved: bool)
    requires Sound(s)
    ensures Sound(AuditStep(s, tid, auditId, rid, saved))
  {
    if tid in s.threads && s.threads[tid].Spending? {
      var t := s.threads[tid];
      var e := Exec(t.pend, t.approver, t.at, t.closed, |s.w.audits|);
      var row := ExecRow(auditId, t.pend.path, ClassA, t.pend.req, t.pend.requester, t.approver.subject, s.w.clock,
        rid);
      DropSound(s, s.w, tid);
      PutSound(s, Executed(s.w, row, e), tid, Sending(DispatchOf(row, Ttl(t.pend.req)), |s.w.audits|));
    }
  }

  lemma DirectSound(s: State, tid: nat, actor: string, second: string, path: string, req: Request, auditId: string,
                    rid: string, saved: bool)
    requires Sound(s)
    ensures Sound(DirectStep(s, tid, actor, second, path, req, auditId, rid, saved))
  {
    var v := EvaluateSetPolicy(Classify(path), actor, req);
    if v.Accepted? {
      var row := ExecRow(auditId, path, v.class_, req, actor, second, s.w.clock, rid);
      RowAdded(s.w, row, {row.id});
      PutSound(s, s.w.(audits := s.w.audits + [row], used := s.w.used + {row.id}), tid,
               Sending(DispatchOf(row, Ttl(req)), |s.w.audits|));
    }
  }

  lemma {:induction false} StepSound(s: State, step: Step)
    requires Inv(s) && Sound(s)
    ensures Sound(Next(s, step))
  {
    match step
    case Advance(to) =>
    case Submit(tid, principal, header, path, req, id, rid) =>
      SubmitSound(s, tid, principal, header, path, req, id, rid);
    case Note(tid, saved) => NoteSound(s, tid, saved);
    case Park(tid) => ParkSound(s, tid);
    case Approve(tid, id, approver) => PutSound(s, s.w, tid, Reading(id, approver, s.w.clock));
    case LookUp(tid, closed) => LookUpSound(s, tid, closed);
    case Consume(tid) => ConsumeSound(s, tid);
    case Audit(tid, auditId, rid, saved) => AuditSound(s, tid, auditId, rid, saved);
    case Direct(tid, actor, second, path, req, auditId, rid, saved) =>
      DirectSound(s, tid, actor, second, path, req, auditId, rid, saved);
    case Send(tid) =>
    case Restart =>
  }

  lemma {:induction false} RunKeeps(clock: Time, steps: seq<Step>)
    ensures Inv(Run(clock, steps)) && Sound(Run(clock, steps))
  {
    if steps != [] {
      var before := Run(clock, steps[..|steps| - 1]);
      RunKeeps(clock, steps[..|steps| - 1]);
      StepKeeps(before, steps[|steps| - 1]);
      StepSound(before, steps[|steps| - 1]);
    }
  }

  // ---- The two-man rule -------------------------------------------------------------

  /** No other execution has that row. */
  ghost predicate OnlyAt(execs: seq<Exec>, row: nat, k: nat) {
    forall l :: 0 <= l < |execs| && execs[l].row == row ==> l == k
  }

  lemma OnlyExec(w: World, k: nat)
    requires ExecsOk(w) && k < |w.execs|
    ensures OnlyAt(w.execs, w.execs[k].row, k)
  {
    forall l | 0 <= l < |w.execs| && l != k ensures w.execs[l].row != w.execs[k].row {
      var a, b := if l < k then l else k, if l < k then k else l;
      assert w.execs[a].row != w.execs[b].row;
    }
  }

  /** Dispatch `d`, made for audit row `row`, carries out execution `e`: the
      same path, value, time to live and requester as the entry parked under
      that id, whose own audit row came before; approved, before the entry ran
      out, by someone else who may write the point. */
  ghost predicate CarriesOut(w: World, d: Dispatch, row: nat, e: Exec) {
    && e.row == row < |w.audits| && d == DispatchOf(w.audits[row], Ttl(e.pend.req))
    && d.path == e.pend.path && d.value == e.pend.req.value && d.actor == e.pend.requester && d.readback
    && w.audits[row].second == e.approver.subject
    && e.pend.id in w.parked && w.parked[e.pend.id] == e.pend && Announced(w.audits, row, e.pend)
    && e.at <= e.pend.expiresAt == e.pend.createdAt + Ttl(e.pend.req)
    && Lower(e.approver.subject) != Lower(e.pend.requester)
    && Rbac.Authorize(e.approver, Rbac.ControlWrite, e.pend.path, "", e.closed)
  }

  lemma {:induction false} TwoManRule(clock: Time, steps: seq<Step>, i: nat)
    requires var w := Run(clock, steps).w; i < |w.sent| && Classify(w.sent[i].d.path) == Some(ClassA)
    ensures var w := Run(clock, steps).w;
            exists k :: && 0 <= k < |w.execs| && CarriesOut(w, w.sent[i].d, w.sent[i].row, w.execs[k])
                        && OnlyAt(w.execs, w.sent[i].row, k)
  {
    RunKeeps(clock, steps);
    OnlyListed(clock, steps, i);
    var w := Run(clock, steps).w;
    assert Backed(w, w.sent[i].d, w.sent[i].row);
    var k :| 0 <= k < |w.execs| && w.execs[k].row == w.sent[i].row && Ttl(w.execs[k].pend.req) == w.sent[i].d.ttl;
    assert ExecOk(w, w.execs[k]) && ExecSound(w.execs[k]);
    OnlyExec(w, k);
    assert PendSound(w.parked[w.execs[k].pend.id]);
    assert CarriesOut(w, w.sent[i].d, w.sent[i].row, w.execs[k]);
  }

  lemma OnceIn(w: World, i: nat, j: nat, k: nat, l: nat)
    requires WorldOk(w) && i < j < |w.sent| && k < |w.execs| && l < |w.execs|
    requires w.execs[k].row == w.sent[i].row && w.execs[l].row == w.sent[j].row
    ensures w.execs[k].pend.id != w.execs[l].pend.id
  {
    assert w.sent[i].row != w.sent[j].row;
    assert k < l || l < k;
  }

  /** An approval is good for one dispatch. */
  lemma {:induction false} OncePerEntry(clock: Time, steps: seq<Step>, i: nat, j: nat, k: nat, l: nat)
    requires var w := Run(clock, steps).w;
             && i < j < |w.sent| && k < |w.execs| && l < |w.execs|
             && w.execs[k].row == w.sent[i].row && w.execs[l].row == w.sent[j].row
    ensures var w := Run(clock, steps).w; w.execs[k].pend.id != w.execs[l].pend.id
  {
    RunKeeps(clock, steps);
    OnceIn(Run(clock, steps).w, i, j, k, l);
  }

  /** Nothing is dispatched, in any class, without a stored audit row of its
      own that says the same. */
  lemma {:induction false} NeverUnaudited(clock: Time, steps: seq<Step>)
    ensures var w := Run(clock, steps).w;
            && (forall i :: 0 <= i < |w.sent| ==>
                  w.sent[i].row < |w.audits| && w.sent[i].d == DispatchOf(w.audits[w.sent[i].row], w.sent[i].d.ttl))
            && (forall i, j :: 0 <= i < j < |w.sent| ==> w.sent[i].row != w.sent[j].row)
  {
    RunKeeps(clock, steps);
    var w := Run(clock, steps).w;
    forall i | 0 <= i < |w.sent|
      ensures w.sent[i].row < |w.audits| && w.sent[i].d == DispatchOf(w.audits[w.sent[i].row], w.sent[i].d.ttl)
    {
      assert Backed(w, w.sent[i].d, w.sent[i].row);
    }
  }

  /** Only listed points are dispatched, under the class they have, and with a
      readback for classes A and B. */
  lemma {:induction false} OnlyListed(clock: Time, steps: seq<Step>, i: nat)
    requires i < |Run(clock, steps).w.sent|
    ensures var d := Run(clock, steps).w.sent[i].d;
            Classify(d.path) == Some(d.class_) && (d.class_ != ClassC ==> d.readback)
  {
    RunKeeps(clock, steps);
    var w := Run(clock, steps).w;
    assert Backed(w, w.sent[i].d, w.sent[i].row);
    assert RowSound(w.audits[w.sent[i].row]);
  }

  /** Every class-A audit row is an announcement or the row of an execution. */
  lemma {:induction false} RowsAccounted(clock: Time, steps: seq<Step>, i: nat)
    requires var w := Run(clock, steps).w; i < |w.audits| && w.audits[i].class_ == ClassA && !IsPendingRow(w.audits[i])
    ensures ExecAt(Run(clock, steps).w.execs, i)
  {
    RunKeeps(clock, steps);
  }

  /** The time limit binds at the approver's clock reading only: once past the
      first lock an approval goes through however late it comes to the second. */
  lemma ExpiryReadOnce(s: State, tid: nat, later: Time, auditId: string, rid: string)
    requires tid in s.threads && s.threads[tid].Cleared? && s.threads[tid].pend.id in s.w.pending
    requires later >= s.w.clock && later > s.threads[tid].pend.expiresAt && auditId !in s.w.used
    ensures var s' := Next(Next(Next(s, Advance(later)), Consume(tid)), Audit(tid, auditId, rid, true));
            && |s'.w.execs| == |s.w.execs| + 1
            && s'.w.execs[|s.w.execs|].pend == s.threads[tid].pend && s'.w.clock > s.threads[tid].pend.expiresAt
  {
    var s1 := Next(s, Advance(later));
    var s2 := ConsumeStep(s1, tid);
    assert s2.threads[tid].Spending?;
  }
}
