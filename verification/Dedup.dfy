/** The request cache (core/server.go) and the asset write that uses it
    (core/assets.go): a repeated request id replays the first answer. */
module Dedup {
  import opened Text
  import opened Records
  import opened FileStore
  import Ops

  datatype Response = Response(status: int, asset: Asset)

  datatype Entry = Entry(response: Response, expires: Time)

  /** One answer remembered, when. */
  datatype Memory = Memory(key: string, response: Response, at: Time)

  // ---- The reference: a history that forgets nothing ------------------------------

  function Latest(history: seq<Memory>, key: string): Option<Memory> {
    if history == [] then None
    else
      var last := history[|history| - 1];
      if last.key == key then Some(last) else Latest(history[..|history| - 1], key)
  }

  /** The latest answer for the key, unless it is older than the time to live. */
  function Recall(history: seq<Memory>, key: string, ttl: int, now: Time): Option<Response> {
    var m := Latest(history, key);
    if m.Some? && now <= m.value.at + ttl then Some(m.value.response) else None
  }

  lemma LatestSnoc(history: seq<Memory>, m: Memory, key: string)
    ensures Latest(history + [m], key) == if m.key == key then Some(m) else Latest(history, key)
  {
    assert (history + [m])[..|history|] == history;
  }

  // ---- The table ----------------------------------------------------------------------

  class DedupTable {
    const ttl: int
    var data: map<string, Entry>
    // What has been remembered, and the last clock reading.
    ghost var history: seq<Memory>
    ghost var clock: Time

    constructor (ttl: int, now: Time)
      ensures Valid() && history == [] && clock == now && this.ttl == ttl
    {
      this.ttl, data, history, clock := ttl, map[], [], now;
    }

    /** The table holds what the history holds, except what has expired. */
    ghost predicate Valid()
      reads this
    {
      && (forall k :: k in data ==>
            var m := Latest(history, k); m.Some? && data[k] == Entry(m.value.response, m.value.at + ttl))
      && (forall k :: k !in data && Latest(history, k).Some? ==> Latest(history, k).value.at + ttl < clock)
    }

    method Collect(now: Time)
      requires Valid() && clock <= now
      modifies `data, `clock
      ensures Valid() && clock == now
      ensures forall k :: k in data <==> k in old(data) && old(data)[k].expires >= now
    {
      var todo := data.Keys;
      clock := now;
      while todo != {}
        invariant Valid() && clock == now && todo <= data.Keys
        invariant forall k :: k in data ==> k in old(data) && data[k] == old(data)[k]
        invariant forall k :: k in old(data) && k !in todo ==> (k in data <==> old(data)[k].expires >= now)
        decreases todo
      {
        var k :| k in todo;
        if data[k].expires < now {
          data := data - {k};
        }
        todo := todo - {k};
      }
    }

    /** Two clock readings: one for the sweep, one for the entry. */
    method Lookup(key: string, now: Time, later: Time) returns (r: Option<Response>)
      requires Valid() && clock <= now <= later
      modifies `data, `clock
      ensures Valid() && clock == later && r == Recall(history, key, ttl, later)
    {
      Collect(now);
      clock := later;
      if key !in data {
        return None;
      }
      var e := data[key];
      if e.expires < later {
        data := data - {key};
        return None;
      }
      r := Some(e.response);
    }

    method Remember(key: string, response: Response, now: Time)
      requires Valid() && clock <= now
      modifies `data, `clock, `history
      ensures Valid() && clock == now && history == old(history) + [Memory(key, response, now)]
    {
      forall k ensures Latest(history + [Memory(key, response, now)], k) ==
                       if k == key then Some(Memory(key, response, now)) else Latest(history, k)
      {
        LatestSnoc(history, Memory(key, response, now), k);
      }
      data, clock := data[key := Entry(response, now + ttl)], now;
      history := history + [Memory(key, response, now)];
    }
  }

  // ---- Keys ---------------------------------------------------------------------------

  function Key(path: string, requestId: string): string { "PUT " + path + " " + requestId }

  lemma KeyTail(p: string, r: string, q: string, s: string)
    ensures Key(p, r) == Key(q, s) <==> p + " " + r == q + " " + s
  {
    var a, b := p + " " + r, q + " " + s;
    assert Key(p, r) == "PUT " + a && Key(q, s) == "PUT " + b;
    assert ("PUT " + a)[4..] == a && ("PUT " + b)[4..] == b;
  }

  lemma SplitAt(p: string, r: string, q: string, s: string)
    requires |p| < |q| && p + " " + r == q + " " + s
    ensures q == p + " " + q[|p| + 1..] && r == q[|p| + 1..] + " " + s
  {
    var a := p + " " + r;
    assert p == a[..|p|] && q == a[..|q|] && a[|p|] == ' ' && q[|p|] == a[|p|];
    assert r == a[|p| + 1..] && q[|p| + 1..] + " " + s == (q + " " + s)[|p| + 1..];
  }

  /** `q` is `p`, a space and the words that the request id `r` has before `s`. */
  ghost predicate Shifted(p: string, r: string, q: string, s: string) {
    exists x :: q == p + " " + x && r == x + " " + s
  }

  /** Two requests share a key exactly if they are the same, or a space moves
      the boundary between path and request id. */
  lemma KeyExact(p: string, r: string, q: string, s: string)
    requires |p| <= |q|
    ensures Key(p, r) == Key(q, s) <==> (p == q && r == s) || Shifted(p, r, q, s)
  {
    KeyTail(p, r, q, s);
    if p + " " + r == q + " " + s {
      if |p| < |q| {
        SplitAt(p, r, q, s);
      } else {
        assert p == (p + " " + r)[..|p|] && r == (p + " " + r)[|p| + 1..];
        assert q == (q + " " + s)[..|q|] && s == (q + " " + s)[|q| + 1..];
      }
    }
    if x :| q == p + " " + x && r == x + " " + s {
      assert p + " " + (x + " " + s) == (p + " " + x) + " " + s;
    }
  }

  lemma NotShifted(p: string, r: string, q: string, s: string)
    requires ' ' !in q
    ensures !Shifted(p, r, q, s)
  {
    forall x ensures q != p + " " + x { assert (p + " " + x)[|p|] == ' '; }
  }

  /** Paths without spaces never share a key. */
  lemma KeyInjective(p: string, r: string, q: string, s: string)
    requires ' ' !in p && ' ' !in q && Key(p, r) == Key(q, s)
    ensures p == q && r == s
  {
    NotShifted(p, r, q, s);
    NotShifted(q, s, p, r);
    if |p| <= |q| { KeyExact(p, r, q, s); } else { KeyExact(q, s, p, r); }
  }

  // ---- Writes with a request id --------------------------------------------------------

  /** A PUT as the handler sees it: whether the path and spec pass its other
      checks, and the spec with its defaults. */
  datatype Put = Put(path: string, spec: Spec, version: int, requestId: string, acceptable: bool)

  /** Asset paths hold no spaces; the check comes after the cache is asked. */
  predicate Accepts(put: Put) { put.acceptable && ' ' !in put.path }

  /** The assets, and the answers remembered: one for each executed PUT that
      carried a request id. */
  datatype Server = Server(assets: map<string, Asset>, history: seq<Memory>)

  datatype Answer = Problem | Fresh(response: Response) | Replayed(response: Response)

  function Known(s: Server, put: Put, ttl: int, asked: Time): Option<Response> {
    if put.requestId == "" then None else Recall(s.history, Key(put.path, put.requestId), ttl, asked)
  }

  /** The write, and remembering its answer. */
  function Execute(s: Server, put: Put, done: Time, saved: bool): (Server, Answer) {
    var i := Ops.PutAsset(s.assets, Asset(put.path, 0, put.spec, ZERO_TIME, ZERO_TIME), put.version, done);
    if !Accepts(put) || i.Answer? || !saved then (s, Problem)
    else
      var r := Response(if put.path in s.assets then 200 else 201, i.state[put.path]);
      var m := Memory(Key(put.path, put.requestId), r, done);
      (Server(i.state, if put.requestId == "" then s.history else s.history + [m]), Fresh(r))
  }

  /** One PUT, from its lookup at `asked` to its remember at `done`. */
  function Handle(s: Server, put: Put, ttl: int, asked: Time, done: Time, saved: bool): (Server, Answer) {
    var known := Known(s, put, ttl, asked);
    if known.Some? then (s, Replayed(known.value)) else Execute(s, put, done, saved)
  }

  /** The handler on the table and the store: it does what `Handle` says of a
      write that is saved if no save failed. */
  method PutAsset(table: DedupTable, st: Store, put: Put, now: Time, asked: Time, done: Time)
    returns (a: Answer)
    requires table.Valid() && st.Valid() && table.clock <= now <= asked <= done
    modifies table, st`assets, st`saved, st`refused
    ensures table.Valid() && st.Valid()
    ensures (Server(st.assets, table.history), a) ==
            Handle(Server(old(st.assets), old(table.history)), put, table.ttl, asked, done, st.refused ==
              old(st.refused))
  {
    var key := Key(put.path, put.requestId);
    if put.requestId != "" {
      var known := table.Lookup(key, now, asked);
      if known.Some? {
        return Replayed(known.value);
      }
    }
    if !put.acceptable || ' ' in put.path {
      return Problem;
    }
    var existed := put.path in st.assets;
    var r := st.PutAsset(Asset(put.path, 0, put.spec, ZERO_TIME, ZERO_TIME), put.version, done);
    if r.Err? {
      return Problem;
    }
    var response := Response(if existed then 200 else 201, r.value);
    if put.requestId != "" {
      table.Remember(key, response, done);
    }
    a := Fresh(response);
  }

  /** The answer in full: a remembered one is replayed; otherwise the write goes
      through exactly if it is acceptable, expects nothing or the version there
      is, and is saved. Only then does anything change. */
  lemma PutAnswers(s: Server, put: Put, ttl: int, asked: Time, done: Time, saved: bool)
    ensures var (n, a) := Handle(s, put, ttl, asked, done, saved);
            var known := Known(s, put, ttl, asked);
            var old_ := put.path in s.assets;
            var fits := put.version <= 0 || (old_ && s.assets[put.path].version == put.version);
            && (known.Some? ==> a == Replayed(known.value))
            && (a.Fresh? <==> known.None? && put.acceptable && ' ' !in put.path && fits && saved)
            && (!a.Fresh? ==> n == s)
            && (a.Fresh? ==>
                  && put.path in n.assets && n.assets == s.assets[put.path := n.assets[put.path]]
                  && n.assets[put.path].spec == put.spec
                  && n.assets[put.path].version == (if old_ then s.assets[put.path].version else 0) + 1
                  && a.response == Response(if old_ then 200 else 201, n.assets[put.path])
                  && (put.requestId == "" ==> n.history == s.history && Known(s, put, ttl, asked).None?)
                  && (put.requestId != "" ==>
                        n.history == s.history + [Memory(Key(put.path, put.requestId), a.response, done)]))
  {}

  /** Without a request id every repeat is a new write. */
  lemma NoIdWritesAgain(s: Server, put: Put, ttl: int, asked: Time, done: Time, again: Time, after: Time)
    requires put.requestId == "" && Handle(s, put, ttl, asked, done, true).1.Fresh? && put.version <= 0
    ensures Handle(Handle(s, put, ttl, asked, done, true).0, put, ttl, again, after, true).1.Fresh?
  {}

  datatype Call = Call(put: Put, asked: Time, done: Time, saved: bool)

  function Run(s: Server, calls: seq<Call>, ttl: int): Server
    decreases |calls|
  {
    if calls == [] then s
    else
      var c := calls[|calls| - 1];
      Handle(Run(s, calls[..|calls| - 1], ttl), c.put, ttl, c.asked, c.done, c.saved).0
  }

  /** One call after the other, by a clock that does not go back. */
  ghost predicate Sequential(calls: seq<Call>) {
    && (forall i :: 0 <= i < |calls| ==> calls[i].asked <= calls[i].done)
    && (forall i, j :: 0 <= i < j < |calls| ==> calls[i].done <= calls[j].asked)
  }

  /** Executed writes with one key are more than the time to live apart. */
  ghost predicate Spaced(history: seq<Memory>, ttl: int) {
    forall i, j :: 0 <= i < j < |history| && history[i].key == history[j].key ==> history[i].at + ttl < history[j].at
  }

  /** Entries come in the order of their times, none later than `now`. */
  ghost predicate InOrder(history: seq<Memory>, now: Time) {
    && (forall i, j :: 0 <= i < j < |history| ==> history[i].at <= history[j].at)
    && (forall i :: 0 <= i < |history| ==> history[i].at <= now)
  }

  lemma {:induction false} LatestIsLast(history: seq<Memory>, key: string, i: nat)
    requires i < |history| && history[i].key == key
    ensures Latest(history, key).Some? && exists j :: i <= j < |history| && history[j] == Latest(history, key).value
  {
    if history[|history| - 1].key != key {
      LatestIsLast(history[..|history| - 1], key, i);
      var j :| i <= j < |history| - 1 && history[..|history| - 1][j] == Latest(history[..|history| - 1], key).value;
      assert history[j] == Latest(history, key).value;
    }
  }

  lemma HandleSpaced(s: Server, c: Call, ttl: int)
    requires Spaced(s.history, ttl) && InOrder(s.history, c.asked) && c.asked <= c.done
    ensures var n := Handle(s, c.put, ttl, c.asked, c.done, c.saved).0;
            Spaced(n.history, ttl) && InOrder(n.history, c.done)
  {
    var key := Key(c.put.path, c.put.requestId);
    if c.put.requestId != "" && Known(s, c.put, ttl, c.asked).None? {
      forall i | 0 <= i < |s.history| && s.history[i].key == key ensures s.history[i].at + ttl < c.done {
        LatestIsLast(s.history, key, i);
      }
    }
  }

  lemma {:induction false} RunSpaced(assets: map<string, Asset>, calls: seq<Call>, ttl: int)
    requires Sequential(calls)
    ensures var n := Run(Server(assets, []), calls, ttl);
            Spaced(n.history, ttl) && (calls != [] ==> InOrder(n.history, calls[|calls| - 1].done))
  {
    if calls != [] {
      var init, c := calls[..|calls| - 1], calls[|calls| - 1];
      RunSpaced(assets, init, ttl);
      HandleSpaced(Run(Server(assets, []), init, ttl), c, ttl);
    }
  }

  lemma {:induction false} LatestStays(s: Server, calls: seq<Call>, ttl: int, m: Memory)
    requires Latest(s.history, m.key) == Some(m) && forall i :: 0 <= i < |calls| ==> calls[i].asked <= m.at + ttl
    ensures Latest(Run(s, calls, ttl).history, m.key) == Some(m)
  {
    if calls != [] {
      var init, c := calls[..|calls| - 1], calls[|calls| - 1];
      LatestStays(s, init, ttl, m);
      var before := Run(s, init, ttl);
      var after := Run(s, calls, ttl);
      if after.history != before.history {
        LatestSnoc(before.history, after.history[|before.history|], m.key);
      }
    }
  }

  /** Once a PUT with a request id has gone through, repeating it within the time
      to live, whatever came between, replays the answer and writes nothing. */
  lemma {:induction false} RepeatReplays(s: Server, put: Put, asked: Time, done: Time, ttl: int, between: seq<Call>,
                                         again: Call)
    requires put.requestId != "" && Handle(s, put, ttl, asked, done, true).1.Fresh?
    requires again.put.path == put.path && again.put.requestId == put.requestId && again.asked <= done + ttl
    requires forall i :: 0 <= i < |between| ==> between[i].asked <= again.asked
    ensures var first := Handle(s, put, ttl, asked, done, true);
            var now := Run(first.0, between, ttl);
            Handle(now, again.put, ttl, again.asked, again.done, again.saved) == (now, Replayed(first.1.response))
  {
    var first := Handle(s, put, ttl, asked, done, true);
    var m := Memory(Key(put.path, put.requestId), first.1.response, done);
    LatestSnoc(s.history, m, m.key);
    LatestStays(first.0, between, ttl, m);
  }

  // ---- Whose answer is replayed --------------------------------------------------------

  ghost predicate AssetsKeyed(assets: map<string, Asset>) { forall p :: p in assets ==> assets[p].path == p }

  /** The entry is the answer to a write of the path it names. */
  ghost predicate OwnKey(m: Memory) {
    ' ' !in m.response.asset.path && exists rid :: m.key == Key(m.response.asset.path, rid)
  }

  ghost predicate ServerOk(s: Server) {
    AssetsKeyed(s.assets) && forall i :: 0 <= i < |s.history| ==> OwnKey(s.history[i])
  }

  lemma HandleOk(s: Server, put: Put, ttl: int, asked: Time, done: Time, saved: bool)
    requires ServerOk(s)
    ensures ServerOk(Handle(s, put, ttl, asked, done, saved).0)
  {
    var n := Handle(s, put, ttl, asked, done, saved).0;
    if n.history != s.history {
      var m := n.history[|s.history|];
      assert m.key == Key(m.response.asset.path, put.requestId);
      assert OwnKey(m);
    }
  }

  lemma {:induction false} RunOk(s: Server, calls: seq<Call>, ttl: int)
    requires ServerOk(s)
    ensures ServerOk(Run(s, calls, ttl))
  {
    if calls != [] {
      var init, c := calls[..|calls| - 1], calls[|calls| - 1];
      RunOk(s, init, ttl);
      HandleOk(Run(s, init, ttl), c.put, ttl, c.asked, c.done, c.saved);
    }
  }

  lemma {:induction false} LatestIn(history: seq<Memory>, key: string)
    requires Latest(history, key).Some?
    ensures Latest(history, key).value in history && Latest(history, key).value.key == key
  {
    if history[|history| - 1].key != key {
      LatestIn(history[..|history| - 1], key);
    }
  }

  /** Over every run: a replayed answer is one to the path asked for exactly if
      that path holds no space. */
  lemma {:induction false} OwnAnswer(assets: map<string, Asset>, calls: seq<Call>, ttl: int, c: Call)
    requires AssetsKeyed(assets)
    requires Handle(Run(Server(assets, []), calls, ttl), c.put, ttl, c.asked, c.done, c.saved).1.Replayed?
    ensures var a := Handle(Run(Server(assets, []), calls, ttl), c.put, ttl, c.asked, c.done, c.saved).1;
            a.response.asset.path == c.put.path <==> ' ' !in c.put.path
  {
    var s := Run(Server(assets, []), calls, ttl);
    RunOk(Server(assets, []), calls, ttl);
    var key := Key(c.put.path, c.put.requestId);
    LatestIn(s.history, key);
    var m := Latest(s.history, key).value;
    var i :| 0 <= i < |s.history| && s.history[i] == m;
    assert OwnKey(s.history[i]);
    var rid :| m.key == Key(m.response.asset.path, rid);
    if ' ' !in c.put.path {
      KeyInjective(m.response.asset.path, rid, c.put.path, c.put.requestId);
    }
  }

  /** And a space does that: after a write of `p` under the id "q r", a request
      for the path "p q" under the id "r", which no handler would accept, is
      answered with what was said about `p`. */
  lemma {:induction false} ForeignAnswer(s: Server, p: string, q: string, r: string, spec: Spec, asked: Time,
                                         done: Time, ttl: int, again: Time)
    requires ' ' !in p && r != "" && again <= done + ttl
    requires Known(s, Put(p, spec, 0, q + " " + r, true), ttl, asked).None?
    ensures var first := Handle(s, Put(p, spec, 0, q + " " + r, true), ttl, asked, done, true);
            && first.1.Fresh?
            && forall other: Put :: other.path == p + " " + q && other.requestId == r ==>
                 Handle(first.0, other, ttl, again, again, true) == (first.0, Replayed(first.1.response))
  {
    var put := Put(p, spec, 0, q + " " + r, true);
    var first := Handle(s, put, ttl, asked, done, true);
    var m := Memory(Key(p, q + " " + r), first.1.response, done);
    assert first.0.history == s.history + [m];
    LatestSnoc(s.history, m, m.key);
    assert Shifted(p, q + " " + r, p + " " + q, r);
    KeyExact(p, q + " " + r, p + " " + q, r);
  }

  // ---- Two at once ----------------------------------------------------------------------

  /** Two of the same PUT at once: both ask, then each acts on what it was told. */
  function Race(s: Server, put: Put, ttl: int, asked: Time, later: Time, done: Time, after: Time):
    (Server, Answer, Answer)
  {
    var one, two := Known(s, put, ttl, asked), Known(s, put, ttl, later);
    var (s1, a) := if one.Some? then (s, Replayed(one.value)) else Execute(s, put, done, true);
    var (s2, b) := if two.Some? then (s1, Replayed(two.value)) else Execute(s1, put, after, true);
    (s2, a, b)
  }

  function VersionOf(assets: map<string, Asset>, path: string): int {
    if path in assets then assets[path].version else 0
  }

  /** They are not protected: both write exactly if the first finds no answer. */
  lemma RaceWritesTwice(s: Server, put: Put, ttl: int, asked: Time, later: Time, done: Time, after: Time)
    requires put.requestId != "" && Accepts(put) && put.version == 0 && asked <= later
    ensures var (n, a, b) := Race(s, put, ttl, asked, later, done, after);
            && (a.Fresh? && b.Fresh? <==> Known(s, put, ttl, asked).None?)
            && (a.Fresh? && b.Fresh? ==>
                  VersionOf(n.assets, put.path) == VersionOf(s.assets, put.path) + 2 && |n.history| == |s.history| + 2)
  {}
}
