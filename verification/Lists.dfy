/** The keyset-paged lists, each with its order, its token and its cursor test:
    assets by path, maintenance windows by start and id, control audits newest
    first, role bindings by subject and scope. */
module Lists {
  import opened Text
  import opened Records
  import opened Ordering
  import opened Tokens
  import opened Paging

  /** The pair order of a number and an id. */
  predicate PairLess(a: int, x: string, b: int, y: string) { a < b || (a == b && Less(x, y)) }

  lemma PairLessOrder(a: int, x: string, b: int, y: string, c: int, z: string)
    ensures !PairLess(a, x, a, x)
    ensures PairLess(a, x, b, y) && PairLess(b, y, c, z) ==> PairLess(a, x, c, z)
  {
    LessAsymmetric(x, x);
    if Less(x, y) && Less(y, z) { LessTransitive(x, y, z); }
  }

  // ---- Assets (core/assets.go:391-431) --------------------------------------------

  predicate AssetBefore(a: Asset, b: Asset) { Less(a.path, b.path) }

  predicate AssetAfter(token: string, a: Asset) {
    var k := DecodePageToken(token);
    k.Some? && (k.value == "" || Less(k.value, a.path))
  }

  function AssetToken(a: Asset): string { if IsBytes(a.path) then EncodePageToken(a.path) else "" }

  predicate AssetRow(a: Asset) { IsBytes(a.path) && a.path != "" }

  function AssetPath(a: Asset): string { a.path }

  lemma AssetsFaithful()
    ensures Faithful(AssetAfter, AssetToken, AssetBefore, AssetRow) && StrictOrder(AssetBefore, AssetRow)
    ensures Keyed(AssetPath, AssetBefore)
  {
    forall a | AssetRow(a) ensures AssetToken(a) != "" && !AssetBefore(a, a) {
      TokenRoundTrip(a.path);
      LessAsymmetric(a.path, a.path);
    }
    forall a, b | AssetRow(a) && AssetRow(b) ensures AssetAfter(AssetToken(a), b) <==> AssetBefore(a, b) {
      TokenRoundTrip(a.path);
    }
    forall a, b, c | AssetBefore(a, b) && AssetBefore(b, c) ensures AssetBefore(a, c) {
      LessTransitive(a.path, b.path, c.path);
    }
  }

  // ---- Maintenance windows (core/mwindows.go:125-170) -------------------------------

  datatype Window = Window(id: string, assetPath: string, startsAt: Time, endsAt: Time)

  predicate WindowBefore(a: Window, b: Window) { PairLess(a.startsAt, a.id, b.startsAt, b.id) }

  /** Nanoseconds since 1970 in a signed 64-bit number. */
  function UnixNano(t: Time): int { (t + 0x8000_0000_0000_0000) % 0x1_0000_0000_0000_0000 - 0x8000_0000_0000_0000 }

  lemma UnixNanoFits(t: Time)
    ensures Int64(UnixNano(t)) && (Int64(t) ==> UnixNano(t) == t)
  {}

  /** A cursor key that is no number lets every row through. */
  predicate WindowAfterCursor(w: Window, cursorKey: string, cursorId: string) {
    var n := ParseInt(cursorKey);
    n.None? || PairLess(n.value, cursorId, UnixNano(w.startsAt), w.id)
  }

  predicate WindowAfter(token: string, w: Window) {
    var p := DecodePageTokenPair(token);
    p.Some? && (p.value.0 == "" || WindowAfterCursor(w, p.value.0, p.value.1))
  }

  function WindowToken(w: Window): string {
    var key := FormatInt(UnixNano(w.startsAt));
    if IsBytes(key) && IsBytes(w.id) then EncodePageTokenPair(key, w.id) else ""
  }

  function WindowKey(w: Window): (Time, string) { (w.startsAt, w.id) }

  /** The cursor test compares wrapped start times: it agrees with the order of
      the list exactly where wrapping keeps that order. */
  lemma WindowCursorExact(a: Window, b: Window)
    requires IsBytes(a.id) && IsBytes(b.id)
    ensures WindowToken(a) != ""
    ensures WindowAfter(WindowToken(a), b) <==> PairLess(UnixNano(a.startsAt), a.id, UnixNano(b.startsAt), b.id)
  {
    UnixNanoFits(a.startsAt);
    ParseFormat(UnixNano(a.startsAt));
    PairRoundTrip(FormatInt(UnixNano(a.startsAt)), a.id);
  }

  /** The order the cursor test sees. */
  predicate WrappedBefore(a: Window, b: Window) {
    PairLess(UnixNano(a.startsAt), a.id, UnixNano(b.startsAt), b.id)
  }

  predicate WindowBytes(w: Window) { IsBytes(w.id) }

  lemma WrappedOrder(a: Window, b: Window, c: Window)
    ensures !WrappedBefore(a, a) && (WrappedBefore(a, b) && WrappedBefore(b, c) ==> WrappedBefore(a, c))
  {
    PairLessOrder(UnixNano(a.startsAt), a.id, UnixNano(b.startsAt), b.id, UnixNano(c.startsAt), c.id);
  }

  lemma WindowsFaithful()
    ensures Faithful(WindowAfter, WindowToken, WrappedBefore, WindowBytes) && StrictOrder(WrappedBefore, WindowBytes)
    ensures Keyed(WindowKey, WrappedBefore)
  {
    forall a, b | WindowBytes(a) && WindowBytes(b)
      ensures WindowToken(a) != "" && (WindowAfter(WindowToken(a), b) <==> WrappedBefore(a, b))
    {
      WindowCursorExact(a, b);
    }
    forall a, b, c
      ensures !WrappedBefore(a, a) && (WrappedBefore(a, b) && WrappedBefore(b, c) ==> WrappedBefore(a, c))
    {
      WrappedOrder(a, b, c);
    }
  }

  lemma AscendingNoRepeats(rows: seq<Window>)
    requires Ascending(rows, WindowBefore)
    ensures NoRepeats(rows)
  {
    forall i, j | 0 <= i < j < |rows| ensures rows[i] != rows[j] {
      var w := rows[i];
      PairLessOrder(w.startsAt, w.id, w.startsAt, w.id, w.startsAt, w.id);
    }
  }

  /** Paged one by one, an unchanged list of windows comes back whole exactly if
      wrapping keeps the order of every two neighbours. */
  lemma WindowsOneByOne(rows: seq<Window>, f: Window -> bool, n: nat)
    requires Ascending(rows, WindowBefore) && Within(rows, WindowBytes) && AllMatch(rows, f) && n >= |rows|
    ensures var out := Walk(Repeat(rows, n), "", WindowAfter, f, WindowToken, 1);
            && ((forall w :: w in rows ==> w in out) <==> Adjacent(rows, WrappedBefore))
            && (Adjacent(rows, WrappedBefore) ==> out == rows)
  {
    WindowsFaithful();
    AscendingNoRepeats(rows);
    OneByOne(rows, n, WindowAfter, f, WindowToken, WrappedBefore, WindowBytes);
  }

  const LIMIT := 0x8000_0000_0000_0000

  lemma WrapsAtLimit()
    ensures UnixNano(LIMIT) == -LIMIT && UnixNano(LIMIT - 1) == LIMIT - 1
  {}

  /** Outside that range a row can be lost: of a window at the end of the range
      and one a nanosecond later, a client paging one by one gets the first
      only, though nothing changes and the walk completes. */
  lemma WrappedWindowSkipped(a: Window, b: Window, f: Window -> bool)
    requires IsBytes(a.id) && IsBytes(b.id) && a.startsAt == LIMIT - 1 && b.startsAt == LIMIT && f(a) && f(b)
    ensures WindowBefore(a, b)
    ensures Completed([[a, b], [a, b]], "", WindowAfter, f, WindowToken, 1)
    ensures Walk([[a, b], [a, b]], "", WindowAfter, f, WindowToken, 1) == [a]
  {
    WindowCursorExact(a, a);
    WindowCursorExact(a, b);
    LessAsymmetric(a.id, a.id);
    WrapsAtLimit();
    TokenHides(a, b, WindowAfter, f, WindowToken);
  }

  // ---- Control audits (core/setctl.go:332-401) ---------------------------------------

  predicate AuditBefore(a: SetAudit, b: SetAudit) { PairLess(b.at, b.id, a.at, a.id) }

  predicate AuditAfterCursor(a: SetAudit, cursorKey: string, cursorId: string) {
    var n := ParseInt(cursorKey);
    n.None? || PairLess(UnixNano(a.at), a.id, n.value, cursorId)
  }

  predicate AuditAfter(token: string, a: SetAudit) {
    var p := DecodePageTokenPair(token);
    p.Some? && (p.value.0 == "" || AuditAfterCursor(a, p.value.0, p.value.1))
  }

  function AuditToken(a: SetAudit): string {
    var key := FormatInt(UnixNano(a.at));
    if IsBytes(key) && IsBytes(a.id) then EncodePageTokenPair(key, a.id) else ""
  }

  predicate AuditRow(a: SetAudit) { Int64(a.at) && IsBytes(a.id) }

  function AuditKey(a: SetAudit): (Time, string) { (a.at, a.id) }

  lemma AuditsFaithful()
    ensures Faithful(AuditAfter, AuditToken, AuditBefore, AuditRow) && StrictOrder(AuditBefore, AuditRow)
    ensures Keyed(AuditKey, AuditBefore)
  {
    forall a, b | AuditRow(a) && AuditRow(b)
      ensures AuditToken(a) != "" && (AuditAfter(AuditToken(a), b) <==> AuditBefore(a, b))
    {
      UnixNanoFits(a.at);
      UnixNanoFits(b.at);
      ParseFormat(a.at);
      PairRoundTrip(FormatInt(a.at), a.id);
    }
    forall a, b, c ensures !AuditBefore(a, a) && (AuditBefore(a, b) && AuditBefore(b, c) ==> AuditBefore(a, c)) {
      PairLessOrder(a.at, a.id, b.at, b.id, c.at, c.id);
      PairLessOrder(c.at, c.id, b.at, b.id, a.at, a.id);
    }
  }

  // ---- Role bindings (core/rolebindings_http.go:100-146) --------------------------------

  predicate BindingBefore(a: RoleBinding, b: RoleBinding) {
    Less(a.subject, b.subject) || (a.subject == b.subject && Less(a.scope, b.scope))
  }

  /** All subjects: the pair token. */
  predicate BindingAfter(token: string, rb: RoleBinding) {
    var p := DecodePageTokenPair(token);
    p.Some? && !(Less(rb.subject, p.value.0) || (rb.subject == p.value.0 && !Less(p.value.1, rb.scope)))
  }

  function BindingToken(rb: RoleBinding): string {
    if IsBytes(rb.subject) && IsBytes(rb.scope) then EncodePageTokenPair(rb.subject, rb.scope) else ""
  }

  predicate BindingRow(rb: RoleBinding) { IsBytes(rb.subject) && IsBytes(rb.scope) && US !in rb.subject }

  function BindingKey(rb: RoleBinding): (string, string) { (rb.subject, rb.scope) }

  lemma BindingOrder(a: RoleBinding, b: RoleBinding, c: RoleBinding)
    ensures !BindingBefore(a, a)
    ensures BindingBefore(a, b) && BindingBefore(b, c) ==> BindingBefore(a, c)
    ensures !(Less(b.subject, a.subject) || (b.subject == a.subject && !Less(a.scope, b.scope))) <==>
            BindingBefore(a, b)
  {
    LessAsymmetric(a.subject, a.subject);
    LessAsymmetric(a.scope, a.scope);
    LessAsymmetric(a.subject, b.subject);
    LessTotal(a.subject, b.subject);
    if Less(a.subject, b.subject) && Less(b.subject, c.subject) { LessTransitive(a.subject, b.subject, c.subject); }
    if Less(a.scope, b.scope) && Less(b.scope, c.scope) { LessTransitive(a.scope, b.scope, c.scope); }
  }

  /** The token of a row whose subject is free of the separator lets through
      exactly the rows after it. */
  lemma BindingCursor(a: RoleBinding, b: RoleBinding)
    requires BindingRow(a)
    ensures BindingToken(a) != "" && (BindingAfter(BindingToken(a), b) <==> BindingBefore(a, b))
  {
    PairRoundTrip(a.subject, a.scope);
    BindingOrder(a, b, b);
  }

  lemma {:induction false} LessPrefix(a: string, b: string)
    requires a < b
    ensures Less(a, b)
  {
    if a != "" {
      assert a[0] == b[0] && a[1..] < b[1..];
      LessPrefix(a[1..], b[1..]);
    }
  }

  predicate BindingBytes(rb: RoleBinding) { IsBytes(rb.subject) && IsBytes(rb.scope) }

  /** A row's own token lets it through again exactly if its subject holds the
      separator. */
  lemma BindingTokenSelf(a: RoleBinding)
    requires BindingBytes(a)
    ensures BindingToken(a) != ""
    ensures BindingAfter(BindingToken(a), a) <==> US in a.subject
  {
    PairRoundTrip(a.subject, a.scope);
    var cut := DecodePageTokenPair(BindingToken(a)).value.0;
    if US in a.subject {
      LessPrefix(cut, a.subject);
      LessAsymmetric(cut, a.subject);
    } else {
      BindingOrder(a, a, a);
    }
  }

  lemma BindingsFaithful()
    ensures Faithful(BindingAfter, BindingToken, BindingBefore, BindingRow) && StrictOrder(BindingBefore, BindingRow)
    ensures Keyed(BindingKey, BindingBefore)
  {
    forall a, b | BindingRow(a) && BindingRow(b)
      ensures BindingToken(a) != "" && (BindingAfter(BindingToken(a), b) <==> BindingBefore(a, b))
    {
      BindingCursor(a, b);
    }
    forall a, b, c
      ensures !BindingBefore(a, a) && (BindingBefore(a, b) && BindingBefore(b, c) ==> BindingBefore(a, c))
    {
      BindingOrder(a, b, c);
    }
  }

  /** The rows before `k` have subjects free of the separator. */
  ghost predicate CleanBefore(rows: seq<RoleBinding>, k: int) {
    forall i :: 0 <= i < |rows| && i < k ==> US !in rows[i].subject
  }

  lemma BindingRight(rows: seq<RoleBinding>, k: nat)
    requires Ascending(rows, BindingBefore) && Within(rows, BindingBytes) && k < |rows|
    requires k > 0 ==> US !in rows[k - 1].subject
    ensures Right(rows, BindingAfter, BindingToken, k)
  {
    BindingTokenSelf(rows[k]);
    if k > 0 {
      var a := rows[k - 1];
      BindingTokenSelf(a);
      forall j | 0 <= j < |rows| ensures Lets(BindingToken(a), rows[j], BindingAfter) <==> k <= j {
        BindingCursor(a, rows[j]);
        BindingOrder(a, rows[j], a);
      }
    }
  }

  /** From a row whose subject holds the separator the walk goes back to a row it
      has returned before. */
  lemma BindingReturns(rows: seq<RoleBinding>, k: nat, f: RoleBinding -> bool, n: nat)
    requires Ascending(rows, BindingBefore) && Within(rows, BindingBytes) && AllMatch(rows, f) && n >= |rows|
    requires k < |rows| - 1 && CleanBefore(rows, k) && US in rows[k].subject
    ensures var out := Walk(Repeat(rows, n), "", BindingAfter, f, BindingToken, 1);
            |out| > k + 1 && out[..k + 1] == rows[..k + 1] && out[k + 1] in rows[..k + 1]
  {
    forall i | 0 <= i <= k ensures Right(rows, BindingAfter, BindingToken, i) { BindingRight(rows, i); }
    BindingTokenSelf(rows[k]);
    WalkRepeats(rows, k, n, BindingAfter, f, BindingToken);
  }

  lemma {:induction false} FirstDirty(rows: seq<RoleBinding>, k: nat) returns (i: nat)
    requires k < |rows| && US in rows[k].subject
    ensures i <= k && CleanBefore(rows, i) && US in rows[i].subject
  {
    if j: nat :| j < k && US in rows[j].subject {
      i := FirstDirty(rows, j);
    } else {
      i := k;
    }
  }

  /** Paged one by one, an unchanged list of bindings comes back as it is exactly
      if no row but the last has the separator in its subject. */
  lemma BindingsOneByOne(rows: seq<RoleBinding>, f: RoleBinding -> bool, n: nat)
    requires Ascending(rows, BindingBefore) && Within(rows, BindingBytes) && AllMatch(rows, f) && n >= |rows|
    ensures Walk(Repeat(rows, n), "", BindingAfter, f, BindingToken, 1) == rows <==> CleanBefore(rows, |rows| - 1)
  {
    var out := Walk(Repeat(rows, n), "", BindingAfter, f, BindingToken, 1);
    if CleanBefore(rows, |rows| - 1) {
      forall k | 0 <= k < |rows| ensures Right(rows, BindingAfter, BindingToken, k) { BindingRight(rows, k); }
      WalkIsList(rows, n, BindingAfter, f, BindingToken);
    } else {
      var k: nat :| k < |rows| && k < |rows| - 1 && US in rows[k].subject;
      var i := FirstDirty(rows, k);
      BindingReturns(rows, i, f, n);
      var m: nat :| m < i + 1 && rows[..i + 1][m] == out[i + 1];
      BindingOrder(rows[m], rows[m], rows[m]);
      assert out[i + 1] != rows[i + 1];
    }
  }

  /** If the first row's subject holds the separator the client gets that row
      again and again, and no other. */
  lemma BindingStuck(rows: seq<RoleBinding>, f: RoleBinding -> bool, n: nat)
    requires rows != [] && BindingBytes(rows[0]) && f(rows[0]) && US in rows[0].subject
    ensures forall rb :: rb in Walk(Repeat(rows, n), "", BindingAfter, f, BindingToken, 1) ==> rb == rows[0]
  {
    BindingTokenSelf(rows[0]);
    WalkStuck(rows, "", n, BindingAfter, f, BindingToken);
  }

  lemma BindingRepeats(a: RoleBinding, b: RoleBinding, f: RoleBinding -> bool)
    requires BindingBytes(a) && f(a) && f(b) && US in a.subject
    ensures Walk([[a, b], [a, b]], "", BindingAfter, f, BindingToken, 1) == [a, a]
  {
    BindingTokenSelf(a);
    TokenRepeats(a, b, BindingAfter, f, BindingToken);
  }

  /** One subject: its rows by scope, and the single token. */
  predicate ScopeBefore(a: RoleBinding, b: RoleBinding) { Less(a.scope, b.scope) }

  predicate ScopeAfter(token: string, rb: RoleBinding) {
    var k := DecodePageToken(token);
    k.Some? && (k.value == "" || Less(k.value, rb.scope))
  }

  function ScopeToken(rb: RoleBinding): string { if IsBytes(rb.scope) then EncodePageToken(rb.scope) else "" }

  predicate ScopeRow(rb: RoleBinding) { IsBytes(rb.scope) && rb.scope != "" }

  function ScopeKey(rb: RoleBinding): string { rb.scope }

  lemma ScopesFaithful()
    ensures Faithful(ScopeAfter, ScopeToken, ScopeBefore, ScopeRow) && StrictOrder(ScopeBefore, ScopeRow)
    ensures Keyed(ScopeKey, ScopeBefore)
  {
    forall a | ScopeRow(a) ensures ScopeToken(a) != "" && !ScopeBefore(a, a) {
      TokenRoundTrip(a.scope);
      LessAsymmetric(a.scope, a.scope);
    }
    forall a, b | ScopeRow(a) && ScopeRow(b) ensures ScopeAfter(ScopeToken(a), b) <==> ScopeBefore(a, b) {
      TokenRoundTrip(a.scope);
    }
    forall a, b, c | ScopeBefore(a, b) && ScopeBefore(b, c) ensures ScopeBefore(a, c) {
      LessTransitive(a.scope, b.scope, c.scope);
    }
  }

  // ---- What a client gets ------------------------------------------------------------

  /** The promise of a paged list, over any snapshots: a walk is in strict order
      and returns only matching rows it saw; a completed one returns every key
      that was there, in a matching row, all along. */
  ghost predicate GoodWalk<T(!new), K(!new)>(snaps: seq<seq<T>>, after: (string, T) -> bool, f: T -> bool,
                                             enc: T -> string, size: nat, lt: (T, T) -> bool, key: T -> K)
    requires size > 0
  {
    var out := Walk(snaps, "", after, f, enc, size);
    && Ascending(out, lt)
    && (forall r :: r in out ==> f(r) && Seen(snaps, r))
    && (Completed(snaps, "", after, f, enc, size) ==>
          forall k :: (forall i :: 0 <= i < |snaps| ==> HasKey(snaps[i], key, k, f)) ==> HasKey(out, key, k, f))
  }

  lemma WalkIsGood<T(!new), K(!new)>(snaps: seq<seq<T>>, after: (string, T) -> bool, f: T -> bool, enc: T -> string,
                                     size: nat, lt: (T, T) -> bool, u: T -> bool, key: T -> K)
    requires size > 0 && Faithful(after, enc, lt, u) && StrictOrder(lt, u) && Keyed(key, lt) && Snapshots(snaps, lt, u)
    ensures GoodWalk(snaps, after, f, enc, size, lt, key)
  {
    WalkOrdered(snaps, "", None, after, f, enc, size, lt, u);
    if Completed(snaps, "", after, f, enc, size) {
      forall k | forall i :: 0 <= i < |snaps| ==> HasKey(snaps[i], key, k, f)
        ensures HasKey(Walk(snaps, "", after, f, enc, size), key, k, f)
      {
        WalkComplete(snaps, "", None, after, f, enc, size, lt, u, key, k);
      }
    }
  }

  lemma AssetWalk(snaps: seq<seq<Asset>>, f: Asset -> bool, size: nat)
    requires size > 0 && Snapshots(snaps, AssetBefore, AssetRow)
    ensures GoodWalk(snaps, AssetAfter, f, AssetToken, size, AssetBefore, AssetPath)
  {
    AssetsFaithful();
    WalkIsGood(snaps, AssetAfter, f, AssetToken, size, AssetBefore, AssetRow, AssetPath);
  }

  /** Wrapping keeps the order of all windows the client may meet. */
  ghost predicate WrapAgrees(snaps: seq<seq<Window>>) {
    forall a, b :: Seen(snaps, a) && Seen(snaps, b) ==> (WindowBefore(a, b) <==> WrappedBefore(a, b))
  }

  /** Snapshots whose wrapped start times ascend are paged well, in wrapped
      order; that is the list's order where wrapping keeps it. */
  lemma WindowWalk(snaps: seq<seq<Window>>, f: Window -> bool, size: nat)
    requires size > 0 && Snapshots(snaps, WrappedBefore, WindowBytes)
    ensures GoodWalk(snaps, WindowAfter, f, WindowToken, size, WrappedBefore, WindowKey)
    ensures WrapAgrees(snaps) ==> GoodWalk(snaps, WindowAfter, f, WindowToken, size, WindowBefore, WindowKey)
  {
    WindowsFaithful();
    WalkIsGood(snaps, WindowAfter, f, WindowToken, size, WrappedBefore, WindowBytes, WindowKey);
    if WrapAgrees(snaps) {
      var out := Walk(snaps, "", WindowAfter, f, WindowToken, size);
      forall i, j | 0 <= i < j < |out| ensures WindowBefore(out[i], out[j]) {
        assert out[i] in out && out[j] in out;
      }
    }
  }

  /** Windows that start within the 64-bit range, the years 1678 to 2262, are
      such snapshots. */
  lemma WindowsInRange(snaps: seq<seq<Window>>)
    requires Snapshots(snaps, WindowBefore, WindowBytes)
    requires forall w :: Seen(snaps, w) ==> Int64(w.startsAt)
    ensures Snapshots(snaps, WrappedBefore, WindowBytes) && WrapAgrees(snaps)
  {
    forall w | Seen(snaps, w) ensures UnixNano(w.startsAt) == w.startsAt { UnixNanoFits(w.startsAt); }
    forall s, i, j | 0 <= s < |snaps| && 0 <= i < j < |snaps[s]| ensures WrappedBefore(snaps[s][i], snaps[s][j]) {
      assert Ascending(snaps[s], WindowBefore);
      assert snaps[s][i] in snaps[s] && snaps[s][j] in snaps[s];
      assert Seen(snaps, snaps[s][i]) && Seen(snaps, snaps[s][j]);
    }
  }

  lemma AuditWalk(snaps: seq<seq<SetAudit>>, f: SetAudit -> bool, size: nat)
    requires size > 0 && Snapshots(snaps, AuditBefore, AuditRow)
    ensures GoodWalk(snaps, AuditAfter, f, AuditToken, size, AuditBefore, AuditKey)
  {
    AuditsFaithful();
    WalkIsGood(snaps, AuditAfter, f, AuditToken, size, AuditBefore, AuditRow, AuditKey);
  }

  lemma BindingWalk(snaps: seq<seq<RoleBinding>>, f: RoleBinding -> bool, size: nat)
    requires size > 0 && Snapshots(snaps, BindingBefore, BindingRow)
    ensures GoodWalk(snaps, BindingAfter, f, BindingToken, size, BindingBefore, BindingKey)
  {
    BindingsFaithful();
    WalkIsGood(snaps, BindingAfter, f, BindingToken, size, BindingBefore, BindingRow, BindingKey);
  }

  lemma ScopeWalk(snaps: seq<seq<RoleBinding>>, f: RoleBinding -> bool, size: nat)
    requires size > 0 && Snapshots(snaps, ScopeBefore, ScopeRow)
    ensures GoodWalk(snaps, ScopeAfter, f, ScopeToken, size, ScopeBefore, ScopeKey)
  {
    ScopesFaithful();
    WalkIsGood(snaps, ScopeAfter, f, ScopeToken, size, ScopeBefore, ScopeRow, ScopeKey);
  }

  // ---- The store's lists are such snapshots ---------------------------------------------

  /** Sorting rows that the order tells apart. */
  lemma SortLists<T(!new)>(out: seq<T>, lt: (T, T) -> bool)
    requires StrictWeak(lt) && Ordering.Distinct(out, lt)
    ensures var rows := Sort(out, lt);
            Ascending(rows, lt) && multiset(rows) == multiset(out) && forall a :: a in rows <==> a in out
  {
    var rows := Sort(out, lt);
    SortCorrect(out, lt);
    SortStrict(out, lt);
    forall a ensures a in rows <==> a in out {
      assert a in rows <==> a in multiset(rows);
      assert a in out <==> a in multiset(out);
    }
  }

  method ListAssets(assets: map<string, Asset>) returns (rows: seq<Asset>)
    requires forall p :: p in assets ==> assets[p].path == p
    ensures Ascending(rows, AssetBefore)
    ensures forall a :: a in rows <==> a.path in assets && assets[a.path] == a
  {
    var out: seq<Asset>, todo := [], assets.Keys;
    while todo != {}
      invariant todo <= assets.Keys
      invariant forall a :: a in out <==> a.path in assets && a.path !in todo && assets[a.path] == a
      invariant forall i, j :: 0 <= i < j < |out| ==> out[i].path != out[j].path
      decreases todo
    {
      var p :| p in todo;
      forall i | 0 <= i < |out| ensures out[i].path != p { assert out[i] in out; }
      out, todo := out + [assets[p]], todo - {p};
    }
    rows := Sort(out, AssetBefore);
    AssetSort(out);
  }

  lemma AssetSort(out: seq<Asset>)
    requires forall i, j :: 0 <= i < j < |out| ==> out[i].path != out[j].path
    ensures var rows := Sort(out, AssetBefore); Ascending(rows, AssetBefore) && forall a :: a in rows <==> a in out
  {
    assert StrictWeak(AssetBefore) by {
      LessStrictWeak();
    }
    forall i, j | 0 <= i < j < |out| ensures AssetBefore(out[i], out[j]) || AssetBefore(out[j], out[i]) {
      LessTotal(out[i].path, out[j].path);
    }
    SortLists(out, AssetBefore);
  }

  lemma PairLessWeak(a: int, x: string, b: int, y: string, c: int, z: string)
    ensures !(PairLess(a, x, b, y) && PairLess(b, y, a, x))
    ensures PairLess(a, x, b, y) ==> PairLess(a, x, c, z) || PairLess(c, z, b, y)
    ensures (a, x) != (b, y) ==> PairLess(a, x, b, y) || PairLess(b, y, a, x)
  {
    LessAsymmetric(x, y);
    LessTotal(x, y);
    LessTotal(x, z);
    if Less(z, x) && Less(x, y) { LessTransitive(z, x, y); }
  }

  /** The windows by start and id. */
  method ListWindows(windows: map<string, Window>) returns (rows: seq<Window>)
    requires forall id :: id in windows ==> windows[id].id == id
    ensures Ascending(rows, WindowBefore)
    ensures forall w :: w in rows <==> w.id in windows && windows[w.id] == w
  {
    var out: seq<Window>, todo := [], windows.Keys;
    while todo != {}
      invariant todo <= windows.Keys
      invariant forall w :: w in out <==> w.id in windows && w.id !in todo && windows[w.id] == w
      invariant forall i, j :: 0 <= i < j < |out| ==> out[i].id != out[j].id
      decreases todo
    {
      var id :| id in todo;
      forall i | 0 <= i < |out| ensures out[i].id != id { assert out[i] in out; }
      out, todo := out + [windows[id]], todo - {id};
    }
    rows := Sort(out, WindowBefore);
    WindowSort(out);
  }

  lemma WindowSort(out: seq<Window>)
    requires forall i, j :: 0 <= i < j < |out| ==> out[i].id != out[j].id
    ensures var rows := Sort(out, WindowBefore); Ascending(rows, WindowBefore) && forall w :: w in rows <==> w in out
  {
    forall a, b, c
      ensures !(WindowBefore(a, b) && WindowBefore(b, a))
      ensures WindowBefore(a, b) ==> WindowBefore(a, c) || WindowBefore(c, b)
    {
      PairLessWeak(a.startsAt, a.id, b.startsAt, b.id, c.startsAt, c.id);
    }
    forall i, j | 0 <= i < j < |out| ensures WindowBefore(out[i], out[j]) || WindowBefore(out[j], out[i]) {
      var a, b := out[i], out[j];
      PairLessWeak(a.startsAt, a.id, b.startsAt, b.id, b.startsAt, b.id);
    }
    SortLists(out, WindowBefore);
  }

  /** The control audits newest first. */
  method ListSetAudits(log: seq<SetAudit>) returns (rows: seq<SetAudit>)
    requires forall i, j :: 0 <= i < j < |log| ==> log[i].id != log[j].id
    ensures Ascending(rows, AuditBefore) && multiset(rows) == multiset(log)
  {
    rows := Sort(log, AuditBefore);
    forall a, b, c
      ensures !(AuditBefore(a, b) && AuditBefore(b, a))
      ensures AuditBefore(a, b) ==> AuditBefore(a, c) || AuditBefore(c, b)
    {
      PairLessWeak(b.at, b.id, a.at, a.id, c.at, c.id);
    }
    forall i, j | 0 <= i < j < |log| ensures AuditBefore(log[i], log[j]) || AuditBefore(log[j], log[i]) {
      var a, b := log[i], log[j];
      PairLessWeak(a.at, a.id, b.at, b.id, b.at, b.id);
    }
    SortLists(log, AuditBefore);
  }

  lemma BindingWeak(a: RoleBinding, b: RoleBinding, c: RoleBinding)
    ensures !(BindingBefore(a, b) && BindingBefore(b, a))
    ensures BindingBefore(a, b) ==> BindingBefore(a, c) || BindingBefore(c, b)
    ensures BindingKey(a) != BindingKey(b) ==> BindingBefore(a, b) || BindingBefore(b, a)
  {
    LessAsymmetric(a.subject, b.subject);
    LessAsymmetric(a.scope, b.scope);
    LessTotal(a.subject, b.subject);
    LessTotal(a.subject, c.subject);
    LessTotal(a.scope, b.scope);
    LessTotal(a.scope, c.scope);
    if Less(c.subject, a.subject) && Less(a.subject, b.subject) { LessTransitive(c.subject, a.subject, b.subject); }
    if Less(c.scope, a.scope) && Less(a.scope, b.scope) { LessTransitive(c.scope, a.scope, b.scope); }
  }

  /** All role bindings by subject and scope. */
  method ListAllRoleBindings(stored: seq<RoleBinding>) returns (rows: seq<RoleBinding>)
    requires forall i, j :: 0 <= i < j < |stored| ==> BindingKey(stored[i]) != BindingKey(stored[j])
    ensures Ascending(rows, BindingBefore) && multiset(rows) == multiset(stored)
  {
    rows := Sort(stored, BindingBefore);
    forall a, b, c
      ensures !(BindingBefore(a, b) && BindingBefore(b, a))
      ensures BindingBefore(a, b) ==> BindingBefore(a, c) || BindingBefore(c, b)
    {
      BindingWeak(a, b, c);
    }
    forall i, j | 0 <= i < j < |stored|
      ensures BindingBefore(stored[i], stored[j]) || BindingBefore(stored[j], stored[i])
    {
      BindingWeak(stored[i], stored[j], stored[j]);
    }
    SortLists(stored, BindingBefore);
  }

  /** The asset list command: the server's filtered list in order, exactly if it
      fits in a hundred pages. */
  method ListAllAssets(rows: seq<Asset>, f: Asset -> bool, size: nat) returns (r: Option<seq<Asset>>)
    requires size > 0 && Within(rows, AssetRow) && Ascending(rows, AssetBefore)
    ensures var want := Selected(rows, "", AssetAfter, f);
            && r == (if |want| <= MAX_LIST_PAGES * size then Some(want) else None)
            && Ascending(want, AssetBefore)
            && forall a :: a in want <==> a in rows && f(a)
  {
    AssetsFaithful();
    SelectedRows(rows, "", None, AssetAfter, f, AssetToken, AssetBefore, AssetRow);
    CapacityIs(MAX_LIST_PAGES, size);
    r := ListAll(rows, AssetAfter, f, AssetToken, size, AssetBefore, AssetRow);
  }

  function Paths(rows: seq<Asset>): set<string> { set a | a in rows :: a.path }

  lemma {:induction false} PathCount(rows: seq<Asset>)
    requires Ascending(rows, AssetBefore)
    ensures |Paths(rows)| == |rows|
  {
    if rows != [] {
      var init, last := rows[..|rows| - 1], rows[|rows| - 1];
      PathCount(init);
      assert rows == init + [last];
      assert Paths(rows) == Paths(init) + {last.path};
      forall a | a in init ensures a.path != last.path { LessAsymmetric(last.path, last.path); }
    }
  }

  /** The command against the store: the matching assets in order, exactly if no
      more than a hundred pages of them are stored. */
  method AssetListCommand(assets: map<string, Asset>, f: Asset -> bool, size: nat) returns (r: Option<seq<Asset>>)
    requires size > 0 && forall p :: p in assets ==> assets[p].path == p && AssetRow(assets[p])
    ensures r.Some? <==> |set p | p in assets && f(assets[p])| <= MAX_LIST_PAGES * size
    ensures r.Some? ==> Ascending(r.value, AssetBefore)
                        && forall a :: a in r.value <==> a.path in assets && assets[a.path] == a && f(a)
  {
    var rows := ListAssets(assets);
    forall i | 0 <= i < |rows| ensures AssetRow(rows[i]) { assert rows[i] in rows; }
    r := ListAllAssets(rows, f, size);
    ghost var want := Selected(rows, "", AssetAfter, f);
    PathCount(want);
    assert Paths(want) == set p | p in assets && f(assets[p]) by {
      forall p | p in assets && f(assets[p]) ensures p in Paths(want) { assert assets[p] in want; }
    }
  }
}
