/** Keyset paging: a page is the rows after a cursor, the cursor a token made
    from the last row of the page before (core/assets.go, core/mwindows.go,
    core/setctl.go, core/rolebindings_http.go), and the client loop that
    follows the tokens (cli/asset.go). */
module Paging {
  import opened Text

  /** The rows after the cursor that match, in their order. */
  function Selected<T>(rows: seq<T>, token: string, after: (string, T) -> bool, f: T -> bool): seq<T> {
    if rows == [] then []
    else
      var init, last := rows[..|rows| - 1], rows[|rows| - 1];
      Selected(init, token, after, f) + (if (token == "" || after(token, last)) && f(last) then [last] else [])
  }

  /** A page and the token of the next one, empty at the end. */
  function Page<T>(rows: seq<T>, token: string, after: (string, T) -> bool, f: T -> bool, enc: T -> string, size: nat):
    (seq<T>, string)
    requires size > 0
  {
    var items := Selected(rows, token, after, f);
    if |items| > size then (items[..size], enc(items[size - 1])) else (items, "")
  }

  method SelectRows<T>(rows: seq<T>, token: string, after: (string, T) -> bool, f: T -> bool) returns (items: seq<T>)
    ensures items == Selected(rows, token, after, f)
  {
    items := [];
    for i := 0 to |rows|
      invariant items == Selected(rows[..i], token, after, f)
    {
      assert rows[..i + 1][..i] == rows[..i];
      if (token == "" || after(token, rows[i])) && f(rows[i]) {
        items := items + [rows[i]];
      }
    }
    assert rows[..|rows|] == rows;
  }

  /** The list handlers: filter, then cut. */
  method ListPage<T>(rows: seq<T>, token: string, after: (string, T) -> bool, f: T -> bool, enc: T -> string, size: nat)
    returns (items: seq<T>, next: string)
    requires size > 0
    ensures (items, next) == Page(rows, token, after, f, enc, size)
  {
    items := SelectRows(rows, token, after, f);
    next := "";
    if |items| > size {
      next := enc(items[size - 1]);
      items := items[..size];
    }
  }

  /** The role-binding handler stops one row past the page. */
  method ListPageEarly<T>(rows: seq<T>, token: string, after: (string, T) -> bool, f: T -> bool, enc: T -> string,
                          size: nat)
    returns (page: seq<T>, next: string)
    requires size > 0
    ensures (page, next) == Page(rows, token, after, f, enc, size)
  {
    page, next := [], "";
    var i := 0;
    while i < |rows| && |page| <= size
      invariant i <= |rows| && |page| <= size + 1
      invariant page == Selected(rows[..i], token, after, f)
    {
      assert rows[..i + 1][..i] == rows[..i];
      if (token == "" || after(token, rows[i])) && f(rows[i]) {
        page := page + [rows[i]];
      }
      i := i + 1;
    }
    SelectedPrefix(rows, i, token, after, f);
    assert i == |rows| ==> rows[..i] == rows;
    if |page| > size {
      ghost var all := Selected(rows, token, after, f);
      assert page == all[..|page|] && all[..|page|][..size] == all[..size];
      next := enc(page[size - 1]);
      page := page[..size];
    }
  }

  lemma {:induction false} SelectedPrefix<T>(rows: seq<T>, i: nat, token: string, after: (string, T) -> bool,
                                             f: T -> bool)
    requires i <= |rows|
    ensures Selected(rows[..i], token, after, f) <= Selected(rows, token, after, f)
    decreases |rows|
  {
    if i == |rows| {
      assert rows[..i] == rows;
    } else {
      SelectedPrefix(rows[..|rows| - 1], i, token, after, f);
      assert rows[..|rows| - 1][..i] == rows[..i];
    }
  }

  // ---- Following tokens while the store changes ------------------------------

  /** What a client collects that asks for page after page, the k-th answered
      from the k-th snapshot. */
  function Walk<T>(snaps: seq<seq<T>>, token: string, after: (string, T) -> bool, f: T -> bool, enc: T -> string,
                   size: nat):
    seq<T>
    requires size > 0
  {
    if snaps == [] then []
    else
      var (items, next) := Page(snaps[0], token, after, f, enc, size);
      items + (if next == "" then [] else Walk(snaps[1..], next, after, f, enc, size))
  }

  /** The walk reached a page with no next token. */
  predicate Completed<T>(snaps: seq<seq<T>>, token: string, after: (string, T) -> bool, f: T -> bool, enc: T -> string,
                         size: nat)
    requires size > 0
  {
    && snaps != []
    && var next := Page(snaps[0], token, after, f, enc, size).1;
       next == "" || Completed(snaps[1..], next, after, f, enc, size)
  }

  /** A strict order on the rows of the universe `u`. */
  ghost predicate StrictOrder<T(!new)>(lt: (T, T) -> bool, u: T -> bool) {
    && (forall a :: u(a) ==> !lt(a, a))
    && (forall a, b, c :: u(a) && u(b) && u(c) && lt(a, b) && lt(b, c) ==> lt(a, c))
  }

  /** The token of a row lets through exactly the rows after it. */
  ghost predicate Faithful<T(!new)>(after: (string, T) -> bool, enc: T -> string, lt: (T, T) -> bool, u: T -> bool) {
    && (forall a :: u(a) ==> enc(a) != "")
    && (forall a, b :: u(a) && u(b) ==> (after(enc(a), b) <==> lt(a, b)))
  }

  ghost predicate Ascending<T>(rows: seq<T>, lt: (T, T) -> bool) {
    forall i, j :: 0 <= i < j < |rows| ==> lt(rows[i], rows[j])
  }

  ghost predicate Within<T>(rows: seq<T>, u: T -> bool) { forall i :: 0 <= i < |rows| ==> u(rows[i]) }

  /** Every snapshot lists rows of the universe in order. */
  ghost predicate Snapshots<T>(snaps: seq<seq<T>>, lt: (T, T) -> bool, u: T -> bool) {
    forall i :: 0 <= i < |snaps| ==> Ascending(snaps[i], lt) && Within(snaps[i], u)
  }

  /** The cursor of a walk under way: nothing yet, or the row it stands at. */
  ghost predicate Cursor<T>(token: string, at: Option<T>, enc: T -> string, u: T -> bool) {
    if at.None? then token == "" else u(at.value) && token == enc(at.value) && token != ""
  }

  predicate Past<T>(at: Option<T>, r: T, lt: (T, T) -> bool) { at.None? || lt(at.value, r) }

  /** The selected rows are the matching rows past the cursor, in order. */
  lemma {:induction false} SelectedRows<T(!new)>(rows: seq<T>, token: string, at: Option<T>, after: (string, T) -> bool,
                                                 f: T -> bool, enc: T -> string, lt: (T, T) -> bool, u: T -> bool)
    requires Faithful(after, enc, lt, u) && Within(rows, u) && Ascending(rows, lt) && Cursor(token, at, enc, u)
    ensures var items := Selected(rows, token, after, f);
            && Ascending(items, lt) && Within(items, u)
            && (forall r :: r in items <==> r in rows && Past(at, r, lt) && f(r))
  {
    if rows != [] {
      var init, last := rows[..|rows| - 1], rows[|rows| - 1];
      SelectedRows(init, token, at, after, f, enc, lt, u);
      assert rows == init + [last];
      assert u(last) && (at.Some? ==> (after(token, last) <==> lt(at.value, last)));
      var items := Selected(init, token, after, f);
      forall i | 0 <= i < |items| ensures lt(items[i], last) {
        assert items[i] in init;
      }
    }
  }

  /** A page: in order, past the cursor, and either the end or a cursor beyond
      which everything left lies. */
  lemma {:induction false} PageRows<T(!new)>(rows: seq<T>, token: string, at: Option<T>, after: (string, T) -> bool,
                                             f: T -> bool, enc: T -> string, size: nat, lt: (T, T) -> bool,
                                             u: T -> bool)
    requires size > 0 && Faithful(after, enc, lt, u) && Within(rows, u) && Ascending(rows, lt)
             && Cursor(token, at, enc, u)
    ensures var (items, next) := Page(rows, token, after, f, enc, size);
            && Ascending(items, lt) && Within(items, u)
            && (forall r :: r in items ==> r in rows && Past(at, r, lt) && f(r))
            && (next == "" ==> forall r :: r in rows && Past(at, r, lt) && f(r) ==> r in items)
            && (next != "" ==> |items| == size && next == enc(items[size - 1])
                               && forall r :: r in rows && Past(at, r, lt) && f(r) ==>
                                    r in items || lt(items[size - 1], r))
  {
    SelectedRows(rows, token, at, after, f, enc, lt, u);
    var all := Selected(rows, token, after, f);
    var (items, next) := Page(rows, token, after, f, enc, size);
    if |all| > size {
      assert u(all[size - 1]);
      forall r | r in rows && Past(at, r, lt) && f(r) ensures r in items || lt(items[size - 1], r) {
        assert r in all;
        var i :| 0 <= i < |all| && all[i] == r;
        assert i < size ==> items[i] == r;
      }
    }
  }

  lemma {:induction false} Joined<T(!new)>(items: seq<T>, rest: seq<T>, at: Option<T>, lt: (T, T) -> bool, u: T -> bool)
    requires StrictOrder(lt, u) && (at.Some? ==> u(at.value)) && |items| > 0
    requires Ascending(items, lt) && Within(items, u) && Ascending(rest, lt) && Within(rest, u)
    requires forall r :: r in items ==> Past(at, r, lt)
    requires forall r :: r in rest ==> lt(items[|items| - 1], r)
    ensures Ascending(items + rest, lt) && Within(items + rest, u)
    ensures forall r :: r in rest ==> Past(at, r, lt)
  {
    var last := items[|items| - 1];
    assert last in items;
    forall j | 0 <= j < |rest| ensures lt(last, rest[j]) { assert rest[j] in rest; }
  }

  /** Some snapshot holds `r`. */
  ghost predicate Seen<T>(snaps: seq<seq<T>>, r: T) { exists i :: 0 <= i < |snaps| && r in snaps[i] }

  lemma SeenLater<T>(snaps: seq<seq<T>>, r: T)
    requires snaps != [] && (r in snaps[0] || Seen(snaps[1..], r))
    ensures Seen(snaps, r)
  {
    if r !in snaps[0] {
      var i :| 0 <= i < |snaps[1..]| && r in snaps[1..][i];
      assert r in snaps[i + 1];
    }
  }

  lemma SnapshotsTail<T>(snaps: seq<seq<T>>, lt: (T, T) -> bool, u: T -> bool)
    requires Snapshots(snaps, lt, u) && snaps != []
    ensures Ascending(snaps[0], lt) && Within(snaps[0], u) && Snapshots(snaps[1..], lt, u)
  {}

  /** The walk is in order, so nothing comes twice, and everything in it was in
      some snapshot and matched. */
  lemma {:induction false} WalkOrdered<T(!new)>(snaps: seq<seq<T>>, token: string, at: Option<T>,
                                                after: (string, T) -> bool, f: T -> bool, enc: T -> string, size: nat,
                                                lt: (T, T) -> bool, u: T -> bool)
    requires size > 0 && Faithful(after, enc, lt, u) && StrictOrder(lt, u) && Snapshots(snaps, lt, u)
             && Cursor(token, at, enc, u)
    ensures var out := Walk(snaps, token, after, f, enc, size);
            && Ascending(out, lt) && Within(out, u)
            && (forall r :: r in out ==> Past(at, r, lt) && f(r) && Seen(snaps, r))
    decreases |snaps|
  {
    if snaps != [] {
      var (items, next) := Page(snaps[0], token, after, f, enc, size);
      SnapshotsTail(snaps, lt, u);
      PageRows(snaps[0], token, at, after, f, enc, size, lt, u);
      var rest := [];
      if next != "" {
        rest := Walk(snaps[1..], next, after, f, enc, size);
        WalkOrdered(snaps[1..], next, Some(items[size - 1]), after, f, enc, size, lt, u);
        Joined(items, rest, at, lt, u);
      }
      assert Walk(snaps, token, after, f, enc, size) == items + rest;
      forall r | r in items + rest ensures Past(at, r, lt) && f(r) && Seen(snaps, r) { SeenLater(snaps, r); }
    }
  }

  /** The order looks at keys only. */
  ghost predicate Keyed<T(!new), K(!new)>(key: T -> K, lt: (T, T) -> bool) {
    forall a, b, c :: key(b) == key(c) && lt(a, b) ==> lt(a, c)
  }

  ghost predicate HasKey<T, K>(rows: seq<T>, key: T -> K, k: K, f: T -> bool) {
    exists r :: r in rows && key(r) == k && f(r)
  }

  ghost predicate KeyPast<T(!new), K>(at: Option<T>, key: T -> K, k: K, lt: (T, T) -> bool) {
    forall r :: key(r) == k ==> Past(at, r, lt)
  }

  /** A key that every snapshot holds in some matching row is in the walk,
      whatever is inserted, changed or deleted meanwhile. */
  lemma {:induction false} WalkComplete<T(!new), K(!new)>(
    snaps: seq<seq<T>>, token: string, at: Option<T>, after: (string, T) -> bool, f: T -> bool, enc: T -> string,
      size: nat, lt: (T, T) -> bool, u: T -> bool, key: T -> K, k: K)
    requires size > 0 && Faithful(after, enc, lt, u) && Snapshots(snaps, lt, u) && Cursor(token, at, enc, u)
    requires Keyed(key, lt) && KeyPast(at, key, k, lt) && Completed(snaps, token, after, f, enc, size)
    requires forall i :: 0 <= i < |snaps| ==> HasKey(snaps[i], key, k, f)
    ensures HasKey(Walk(snaps, token, after, f, enc, size), key, k, f)
    decreases |snaps|
  {
    var (items, next) := Page(snaps[0], token, after, f, enc, size);
    SnapshotsTail(snaps, lt, u);
    PageRows(snaps[0], token, at, after, f, enc, size, lt, u);
    assert HasKey(snaps[0], key, k, f);
    var r :| r in snaps[0] && key(r) == k && f(r);
    if r in items {
      assert r in Walk(snaps, token, after, f, enc, size);
    } else {
      var last := items[size - 1];
      assert KeyPast(Some(last), key, k, lt);
      WalkComplete(snaps[1..], next, Some(last), after, f, enc, size, lt, u, key, k);
      var q :| q in Walk(snaps[1..], next, after, f, enc, size) && key(q) == k && f(q);
      assert q in Walk(snaps, token, after, f, enc, size);
    }
  }

  // ---- One row at a time over an unchanged list --------------------------------

  /** A token that hides the row after its own loses that row. */
  lemma TokenHides<T>(a: T, b: T, after: (string, T) -> bool, f: T -> bool, enc: T -> string)
    requires f(a) && f(b) && enc(a) != "" && !after(enc(a), a) && !after(enc(a), b)
    ensures Completed([[a, b], [a, b]], "", after, f, enc, 1)
    ensures Walk([[a, b], [a, b]], "", after, f, enc, 1) == [a]
  {
    assert Selected([a, b][..1], "", after, f) == [a] && Selected([a, b][..1], enc(a), after, f) == [];
  }

  function Repeat<T>(rows: seq<T>, n: nat): seq<seq<T>> { seq(n, _ => rows) }

  lemma RepeatTail<T>(rows: seq<T>, n: nat)
    requires n > 0
    ensures Repeat(rows, n) != [] && Repeat(rows, n)[0] == rows && Repeat(rows, n)[1..] == Repeat(rows, n - 1)
  {}

  predicate Lets<T>(token: string, r: T, after: (string, T) -> bool) { token == "" || after(token, r) }

  /** The token lets through exactly the rows from `m` on. */
  ghost predicate LetsFrom<T>(rows: seq<T>, token: string, after: (string, T) -> bool, m: nat) {
    forall j :: 0 <= j < |rows| ==> (Lets(token, rows[j], after) <==> m <= j)
  }

  ghost predicate AllMatch<T>(rows: seq<T>, f: T -> bool) { forall j :: 0 <= j < |rows| ==> f(rows[j]) }

  lemma {:induction false} SelectedSuffix<T>(rows: seq<T>, token: string, after: (string, T) -> bool, f: T -> bool,
                                             m: nat)
    requires m <= |rows| && LetsFrom(rows, token, after, m) && AllMatch(rows, f)
    ensures Selected(rows, token, after, f) == rows[m..]
  {
    if rows != [] {
      var init, last := rows[..|rows| - 1], rows[|rows| - 1];
      var k := if m < |rows| then m else |init|;
      forall j | 0 <= j < |init| ensures Lets(token, init[j], after) <==> k <= j { assert init[j] == rows[j]; }
      SelectedSuffix(init, token, after, f, k);
      assert Lets(token, last, after) <==> m < |rows|;
      assert m < |rows| ==> rows[m..] == init[m..] + [last];
    }
  }

  lemma {:induction false} NoneSelected<T>(rows: seq<T>, token: string, after: (string, T) -> bool, f: T -> bool)
    requires forall j :: 0 <= j < |rows| ==> !Lets(token, rows[j], after)
    ensures Selected(rows, token, after, f) == []
  {
    if rows != [] {
      var init := rows[..|rows| - 1];
      forall j | 0 <= j < |init| ensures !Lets(token, init[j], after) { assert init[j] == rows[j]; }
      NoneSelected(init, token, after, f);
      assert !Lets(token, rows[|rows| - 1], after);
    }
  }

  lemma {:induction false} SelectedIn<T>(rows: seq<T>, token: string, after: (string, T) -> bool, f: T -> bool, r: T)
    requires r in Selected(rows, token, after, f)
    ensures r in rows && Lets(token, r, after)
  {
    var init, last := rows[..|rows| - 1], rows[|rows| - 1];
    if r in Selected(init, token, after, f) {
      SelectedIn(init, token, after, f, r);
    }
  }

  /** A page of one row is the first row the token lets through. */
  lemma {:induction false} PageOfOne<T>(rows: seq<T>, token: string, after: (string, T) -> bool, f: T -> bool,
                                        enc: T -> string, m: nat)
    requires m < |rows| && Lets(token, rows[m], after) && f(rows[m])
    requires forall j :: 0 <= j < m ==> !Lets(token, rows[j], after)
    ensures var (items, next) := Page(rows, token, after, f, enc, 1);
            items == [rows[m]] && (next == "" || next == enc(rows[m]))
  {
    forall j | 0 <= j < |rows[..m]| ensures !Lets(token, rows[..m][j], after) { assert rows[..m][j] == rows[j]; }
    NoneSelected(rows[..m], token, after, f);
    assert rows[..m + 1][..m] == rows[..m];
    SelectedPrefix(rows, m + 1, token, after, f);
    var items := Selected(rows, token, after, f);
    assert [rows[m]] <= items && items[..1] == [rows[m]];
  }

  /** The token after `m` rows of `want`. */
  ghost function TokenAt<T>(want: seq<T>, m: nat, enc: T -> string): string
    requires m <= |want|
  {
    if m == 0 then "" else enc(want[m - 1])
  }

  /** The token after `k` rows lets through exactly the later rows, and row `k`
      has a token. */
  ghost predicate Right<T>(rows: seq<T>, after: (string, T) -> bool, enc: T -> string, k: nat) {
    k < |rows| && enc(rows[k]) != "" && LetsFrom(rows, TokenAt(rows, k, enc), after, k)
  }

  /** One page further. */
  lemma {:induction false} WalkStep<T>(rows: seq<T>, k: nat, n: nat, after: (string, T) -> bool, f: T -> bool,
                                       enc: T -> string)
    requires n > 0 && AllMatch(rows, f) && Right(rows, after, enc, k)
    ensures Walk(Repeat(rows, n), TokenAt(rows, k, enc), after, f, enc, 1) ==
            [rows[k]] + (if k + 1 == |rows| then []
                         else Walk(Repeat(rows, n - 1), TokenAt(rows, k + 1, enc), after, f, enc, 1))
  {
    SelectedSuffix(rows, TokenAt(rows, k, enc), after, f, k);
    RepeatTail(rows, n);
    assert rows[k..][..1] == [rows[k]];
  }

  lemma OneMore<T>(rows: seq<T>, k: nat, whole: seq<T>, rest: seq<T>, later: seq<T>)
    requires k < |rows| && whole == rows[..k] + rest && rest == [rows[k]] + later
    ensures whole == rows[..k + 1] + later
  {
    assert rows[..k + 1] == rows[..k] + [rows[k]];
  }

  /** As long as the tokens are right the walk follows the list. */
  lemma {:induction false} WalkFollows<T>(rows: seq<T>, k: nat, n: nat, after: (string, T) -> bool, f: T -> bool,
                                          enc: T -> string)
    requires k < |rows| && k <= n && AllMatch(rows, f)
    requires forall i :: 0 <= i < k ==> Right(rows, after, enc, i)
    ensures Walk(Repeat(rows, n), "", after, f, enc, 1) ==
            rows[..k] + Walk(Repeat(rows, n - k), TokenAt(rows, k, enc), after, f, enc, 1)
  {
    if k == 0 {
      assert rows[..0] == [];
    } else {
      WalkFollows(rows, k - 1, n, after, f, enc);
      WalkStep(rows, k - 1, n - (k - 1), after, f, enc);
      var later := Walk(Repeat(rows, n - k), TokenAt(rows, k, enc), after, f, enc, 1);
      OneMore(rows, k - 1, Walk(Repeat(rows, n), "", after, f, enc, 1),
              Walk(Repeat(rows, n - (k - 1)), TokenAt(rows, k - 1, enc), after, f, enc, 1), later);
    }
  }

  /** With the token of every row but the last right, the walk is the list. */
  lemma {:induction false} WalkIsList<T>(rows: seq<T>, n: nat, after: (string, T) -> bool, f: T -> bool,
                                         enc: T -> string)
    requires n >= |rows| && AllMatch(rows, f)
    requires forall i :: 0 <= i < |rows| ==> Right(rows, after, enc, i)
    ensures Walk(Repeat(rows, n), "", after, f, enc, 1) == rows
  {
    if rows == [] {
      assert Selected(rows, "", after, f) == [];
      if n > 0 {
        RepeatTail(rows, n);
      }
    } else {
      var k := |rows| - 1;
      WalkFollows(rows, k, n, after, f, enc);
      WalkStep(rows, k, n - k, after, f, enc);
      assert rows == rows[..k] + [rows[k]];
    }
  }

  /** A token that lets an earlier row through takes the walk back to it. */
  lemma {:induction false} WalkReturns<T>(rows: seq<T>, k: nat, m: nat, n: nat, after: (string, T) -> bool,
                                          f: T -> bool, enc: T -> string)
    requires m < k < |rows| && n > k && AllMatch(rows, f)
    requires forall i :: 0 <= i < k ==> Right(rows, after, enc, i)
    requires Lets(enc(rows[k - 1]), rows[m], after)
    requires forall j :: 0 <= j < m ==> !Lets(enc(rows[k - 1]), rows[j], after)
    ensures var out := Walk(Repeat(rows, n), "", after, f, enc, 1);
            |out| > k && out[..k] == rows[..k] && out[k] == rows[m]
  {
    WalkFollows(rows, k, n, after, f, enc);
    PageOfOne(rows, enc(rows[k - 1]), after, f, enc, m);
    RepeatTail(rows, n - k);
  }

  lemma {:induction false} FirstLet<T>(rows: seq<T>, token: string, k: nat, after: (string, T) -> bool) returns (m: nat)
    requires k < |rows| && Lets(token, rows[k], after)
    ensures m <= k && Lets(token, rows[m], after) && forall j :: 0 <= j < m ==> !Lets(token, rows[j], after)
  {
    if j: nat :| j < k && Lets(token, rows[j], after) {
      m := FirstLet(rows, token, j, after);
    } else {
      m := k;
    }
  }

  /** A token that lets its own row through makes the walk return a row again. */
  lemma {:induction false} WalkRepeats<T>(rows: seq<T>, k: nat, n: nat, after: (string, T) -> bool, f: T -> bool,
                                          enc: T -> string)
    requires k < |rows| - 1 && n > k + 1 && AllMatch(rows, f)
    requires forall i :: 0 <= i <= k ==> Right(rows, after, enc, i)
    requires after(enc(rows[k]), rows[k])
    ensures var out := Walk(Repeat(rows, n), "", after, f, enc, 1);
            |out| > k + 1 && out[..k + 1] == rows[..k + 1] && out[k + 1] in rows[..k + 1]
  {
    var m := FirstLet(rows, enc(rows[k]), k, after);
    WalkReturns(rows, k + 1, m, n, after, f, enc);
    assert rows[..k + 1][m] == rows[m];
  }

  /** If that is the first row, the walk returns nothing else. */
  lemma {:induction false} WalkStuck<T>(rows: seq<T>, token: string, n: nat, after: (string, T) -> bool, f: T -> bool,
                                        enc: T -> string)
    requires rows != [] && f(rows[0]) && after(enc(rows[0]), rows[0]) && (token == "" || token == enc(rows[0]))
    ensures forall r :: r in Walk(Repeat(rows, n), token, after, f, enc, 1) ==> r == rows[0]
    decreases n
  {
    if n > 0 {
      RepeatTail(rows, n);
      PageOfOne(rows, token, after, f, enc, 0);
      WalkStuck(rows, enc(rows[0]), n - 1, after, f, enc);
    }
  }

  lemma TokenRepeats<T>(a: T, b: T, after: (string, T) -> bool, f: T -> bool, enc: T -> string)
    requires f(a) && f(b) && enc(a) != "" && after(enc(a), a)
    ensures Walk([[a, b], [a, b]], "", after, f, enc, 1) == [a, a]
  {
    var rows := [a, b];
    assert Selected(rows[..1], "", after, f) == [a];
    assert Selected(rows, "", after, f) == [a, b];
    PageOfOne(rows, "", after, f, enc, 0);
    PageOfOne(rows, enc(a), after, f, enc, 0);
    assert Walk([rows], enc(a), after, f, enc, 1) == [a];
    assert [rows, rows][1..] == [rows];
  }

  /** A walk on from a cursor returns rows past that cursor only. */
  lemma {:induction false} WalkPast<T(!new)>(rows: seq<T>, at: T, n: nat, after: (string, T) -> bool, f: T -> bool,
                                             enc: T -> string, cur: (T, T) -> bool, u: T -> bool)
    requires Faithful(after, enc, cur, u) && StrictOrder(cur, u) && Within(rows, u) && u(at)
    ensures forall r :: r in Walk(Repeat(rows, n), enc(at), after, f, enc, 1) ==> r in rows && cur(at, r)
  {
    if n > 0 {
      RepeatTail(rows, n);
      var (items, next) := Page(rows, enc(at), after, f, enc, 1);
      forall r | r in items ensures r in rows && cur(at, r) {
        SelectedIn(rows, enc(at), after, f, r);
      }
      if next != "" {
        assert items[0] in items && u(items[0]);
        WalkPast(rows, items[0], n - 1, after, f, enc, cur, u);
        forall r | r in Walk(Repeat(rows, n - 1), next, after, f, enc, 1) ensures cur(at, r) {
          assert u(r);
        }
      }
    }
  }

  ghost predicate NoRepeats<T>(rows: seq<T>) { forall i, j :: 0 <= i < j < |rows| ==> rows[i] != rows[j] }

  /** If the cursor order breaks after row `i`, row `i + 1` is never returned. */
  lemma {:induction false} RowLost<T(!new)>(rows: seq<T>, i: nat, k: nat, n: nat, after: (string, T) -> bool,
                                            f: T -> bool, enc: T -> string, cur: (T, T) -> bool, u: T -> bool)
    requires Faithful(after, enc, cur, u) && StrictOrder(cur, u) && Within(rows, u) && AllMatch(rows, f)
             && NoRepeats(rows)
    requires k <= i < |rows| - 1 && Ascending(rows[..i + 1], cur) && !cur(rows[i], rows[i + 1])
    ensures rows[i + 1] !in Walk(Repeat(rows, n), enc(rows[k]), after, f, enc, 1)
    decreases i - k
  {
    if k == i {
      WalkPast(rows, rows[i], n, after, f, enc, cur, u);
    } else if n > 0 {
      RepeatTail(rows, n);
      forall j | 0 <= j <= k ensures !Lets(enc(rows[k]), rows[j], after) {
        assert rows[..i + 1][j] == rows[j] && rows[..i + 1][k] == rows[k];
      }
      assert rows[..i + 1][k] == rows[k] && rows[..i + 1][k + 1] == rows[k + 1];
      PageOfOne(rows, enc(rows[k]), after, f, enc, k + 1);
      RowLost(rows, i, k + 1, n - 1, after, f, enc, cur, u);
    }
  }

  ghost predicate Adjacent<T>(rows: seq<T>, lt: (T, T) -> bool) {
    forall i :: 0 <= i < |rows| - 1 ==> lt(rows[i], rows[i + 1])
  }

  lemma {:induction false} AdjacentAscending<T(!new)>(rows: seq<T>, n: nat, lt: (T, T) -> bool, u: T -> bool)
    requires StrictOrder(lt, u) && Within(rows, u) && n <= |rows|
    requires forall i :: 0 <= i < n - 1 ==> lt(rows[i], rows[i + 1])
    ensures Ascending(rows[..n], lt)
  {
    if n > 0 {
      AdjacentAscending(rows, n - 1, lt, u);
      forall i | 0 <= i < n - 1 ensures lt(rows[i], rows[n - 1]) {
        assert rows[..n - 1][n - 2] == rows[n - 2] && rows[..n - 1][i] == rows[i];
        assert u(rows[i]) && u(rows[n - 2]) && u(rows[n - 1]) && lt(rows[n - 2], rows[n - 2 + 1]);
      }
      forall i, j | 0 <= i < j < n ensures lt(rows[..n][i], rows[..n][j]) {
        assert j < n - 1 ==> rows[..n - 1][i] == rows[i] && rows[..n - 1][j] == rows[j];
      }
    }
  }

  lemma RightAt<T(!new)>(rows: seq<T>, k: nat, after: (string, T) -> bool, enc: T -> string, cur: (T, T) -> bool,
                         u: T -> bool)
    requires Faithful(after, enc, cur, u) && StrictOrder(cur, u) && Within(rows, u) && Ascending(rows, cur)
    requires k < |rows|
    ensures Right(rows, after, enc, k)
  {
    if k > 0 {
      forall j | 0 <= j < |rows| ensures Lets(enc(rows[k - 1]), rows[j], after) <==> k <= j {
        assert u(rows[k - 1]) && u(rows[j]);
        assert j < k - 1 ==> cur(rows[j], rows[k - 1]);
      }
    }
  }

  lemma {:induction false} FirstBreak<T>(rows: seq<T>, k: nat, lt: (T, T) -> bool) returns (i: nat)
    requires k < |rows| - 1 && !lt(rows[k], rows[k + 1])
    ensures i < |rows| - 1 && !lt(rows[i], rows[i + 1]) && forall j :: 0 <= j < i ==> lt(rows[j], rows[j + 1])
  {
    if j: nat :| j < k && !lt(rows[j], rows[j + 1]) {
      i := FirstBreak(rows, j, lt);
    } else {
      i := k;
    }
  }

  /** In cursor order the walk is the list. */
  lemma {:induction false} WalkWhole<T(!new)>(rows: seq<T>, n: nat, after: (string, T) -> bool, f: T -> bool,
                                              enc: T -> string, cur: (T, T) -> bool, u: T -> bool)
    requires Faithful(after, enc, cur, u) && StrictOrder(cur, u) && Within(rows, u) && AllMatch(rows, f)
    requires n >= |rows| && Ascending(rows, cur)
    ensures Walk(Repeat(rows, n), "", after, f, enc, 1) == rows
  {
    forall k | 0 <= k < |rows| ensures Right(rows, after, enc, k) { RightAt(rows, k, after, enc, cur, u); }
    WalkIsList(rows, n, after, f, enc);
  }

  /** Out of cursor order some row is missing. */
  lemma {:induction false} WalkMisses<T(!new)>(rows: seq<T>, i: nat, n: nat, after: (string, T) -> bool, f: T -> bool,
                                               enc: T -> string, cur: (T, T) -> bool, u: T -> bool)
    requires Faithful(after, enc, cur, u) && StrictOrder(cur, u) && Within(rows, u) && AllMatch(rows, f)
             && NoRepeats(rows)
    requires i < |rows| - 1 && Ascending(rows[..i + 1], cur) && !cur(rows[i], rows[i + 1])
    ensures rows[i + 1] !in Walk(Repeat(rows, n), "", after, f, enc, 1)
  {
    if n > 0 {
      RowLost(rows, i, 0, n - 1, after, f, enc, cur, u);
      RepeatTail(rows, n);
      PageOfOne(rows, "", after, f, enc, 0);
    }
  }

  lemma {:induction false} WalkIncomplete<T(!new)>(rows: seq<T>, n: nat, after: (string, T) -> bool, f: T -> bool,
                                                   enc: T -> string, cur: (T, T) -> bool, u: T -> bool)
    returns (lost: T)
    requires Faithful(after, enc, cur, u) && StrictOrder(cur, u) && Within(rows, u) && AllMatch(rows, f)
    requires NoRepeats(rows) && !Adjacent(rows, cur)
    ensures lost in rows && lost !in Walk(Repeat(rows, n), "", after, f, enc, 1)
  {
    var k: nat :| k < |rows| - 1 && !cur(rows[k], rows[k + 1]);
    var i := FirstBreak(rows, k, cur);
    AdjacentAscending(rows, i + 1, cur, u);
    WalkMisses(rows, i, n, after, f, enc, cur, u);
    lost := rows[i + 1];
  }

  /** Page by page of one row, an unchanged list comes back whole exactly if the
      order that the cursor test sees holds between neighbours. */
  lemma {:induction false} OneByOne<T(!new)>(rows: seq<T>, n: nat, after: (string, T) -> bool, f: T -> bool,
                                             enc: T -> string, cur: (T, T) -> bool, u: T -> bool)
    requires Faithful(after, enc, cur, u) && StrictOrder(cur, u) && Within(rows, u) && AllMatch(rows, f)
    requires NoRepeats(rows) && n >= |rows|
    ensures var out := Walk(Repeat(rows, n), "", after, f, enc, 1);
            && ((forall r :: r in rows ==> r in out) <==> Adjacent(rows, cur))
            && (Adjacent(rows, cur) ==> out == rows)
  {
    if Adjacent(rows, cur) {
      AdjacentAscending(rows, |rows|, cur, u);
      assert rows[..|rows|] == rows;
      WalkWhole(rows, n, after, f, enc, cur, u);
    } else {
      var lost := WalkIncomplete(rows, n, after, f, enc, cur, u);
    }
  }

  // ---- The client loop on an unchanged store ------------------------------------

  const MAX_LIST_PAGES := 100

  function Beyond<T>(rows: seq<T>, x: T, lt: (T, T) -> bool): seq<T> {
    if rows == [] then []
    else
      var init, last := rows[..|rows| - 1], rows[|rows| - 1];
      Beyond(init, x, lt) + (if lt(x, last) then [last] else [])
  }

  /** Selecting with a cursor is selecting, then cutting. */
  lemma {:induction false} SelectedBeyond<T(!new)>(rows: seq<T>, x: T, after: (string, T) -> bool, f: T -> bool,
                                                   enc: T -> string, lt: (T, T) -> bool, u: T -> bool)
    requires Faithful(after, enc, lt, u) && Within(rows, u) && u(x)
    ensures Selected(rows, enc(x), after, f) == Beyond(Selected(rows, "", after, f), x, lt)
  {
    if rows != [] {
      var init, last := rows[..|rows| - 1], rows[|rows| - 1];
      SelectedBeyond(init, x, after, f, enc, lt, u);
      var all := Selected(init, "", after, f);
      assert u(last) && enc(x) != "" && (after(enc(x), last) <==> lt(x, last));
      if f(last) {
        assert Selected(rows, "", after, f) == all + [last];
        assert (all + [last])[..|all|] == all;
      } else {
        assert Selected(rows, "", after, f) == all;
      }
    }
  }

  lemma {:induction false} BeyondSuffix<T(!new)>(rows: seq<T>, m: nat, x: T, lt: (T, T) -> bool, u: T -> bool)
    requires StrictOrder(lt, u) && Ascending(rows, lt) && Within(rows, u) && u(x) && m <= |rows|
    requires forall j :: 0 <= j < m ==> !lt(x, rows[j])
    requires forall j :: m <= j < |rows| ==> lt(x, rows[j])
    ensures Beyond(rows, x, lt) == rows[m..]
  {
    if rows != [] {
      var init := rows[..|rows| - 1];
      if m < |rows| {
        BeyondSuffix(init, m, x, lt, u);
        assert rows[m..] == init[m..] + [rows[|rows| - 1]];
      } else {
        BeyondSuffix(init, |init|, x, lt, u);
      }
    }
  }

  /** The rows from `m` on are what the token of row `m - 1` selects. */
  lemma {:induction false} NextPages<T(!new)>(rows: seq<T>, m: nat, after: (string, T) -> bool, f: T -> bool,
                                              enc: T -> string, lt: (T, T) -> bool, u: T -> bool)
    requires Faithful(after, enc, lt, u) && StrictOrder(lt, u) && Within(rows, u) && Ascending(rows, lt)
    requires 0 < m <= |Selected(rows, "", after, f)|
    ensures var want := Selected(rows, "", after, f);
            Selected(rows, enc(want[m - 1]), after, f) == want[m..] && enc(want[m - 1]) != ""
  {
    var want := Selected(rows, "", after, f);
    SelectedRows(rows, "", None, after, f, enc, lt, u);
    SelectedBeyond(rows, want[m - 1], after, f, enc, lt, u);
    assert u(want[m - 1]);
    forall j | 0 <= j < m ensures !lt(want[m - 1], want[j]) {
      assert u(want[j]) && (j < m - 1 ==> lt(want[j], want[m - 1]));
    }
    BeyondSuffix(want, m, want[m - 1], lt, u);
  }

  /** The page at that token is the next `size` rows; it names a next page
      exactly if rows are left. */
  lemma {:induction false} PageAt<T(!new)>(rows: seq<T>, m: nat, after: (string, T) -> bool, f: T -> bool,
                                           enc: T -> string, size: nat, lt: (T, T) -> bool, u: T -> bool)
    requires size > 0 && Faithful(after, enc, lt, u) && StrictOrder(lt, u) && Within(rows, u) && Ascending(rows, lt)
    requires m <= |Selected(rows, "", after, f)|
    ensures var want := Selected(rows, "", after, f);
            var (items, next) := Page(rows, TokenAt(want, m, enc), after, f, enc, size);
            if m + size < |want| then items == want[m..m + size] && next == TokenAt(want, m + size, enc) && next != ""
            else items == want[m..] && next == ""
  {
    var want := Selected(rows, "", after, f);
    SelectedRows(rows, "", None, after, f, enc, lt, u);
    if m > 0 {
      NextPages(rows, m, after, f, enc, lt, u);
    }
    if m + size < |want| {
      assert want[m..][..size] == want[m..m + size];
      assert u(want[m + size - 1]);
    }
  }

  /** How many rows full pages hold. */
  function Capacity(pages: nat, size: nat): nat { if pages == 0 then 0 else Capacity(pages - 1, size) + size }

  lemma {:induction false} CapacityIs(pages: nat, size: nat)
    ensures Capacity(pages, size) == pages * size
  {
    if pages > 0 {
      CapacityIs(pages - 1, size);
      assert pages * size == (pages - 1) * size + size;
    }
  }

  lemma {:induction false} CapacityGrows(pages: nat, more: nat, size: nat)
    requires pages <= more
    ensures Capacity(pages, size) <= Capacity(more, size)
    decreases more
  {
    if pages < more {
      CapacityGrows(pages, more - 1, size);
    }
  }

  /** One turn of the client loop after `page` full pages. */
  lemma {:induction false} Turn<T(!new)>(rows: seq<T>, all: seq<T>, page: nat, after: (string, T) -> bool,
                                         f: T -> bool, enc: T -> string, size: nat, lt: (T, T) -> bool, u: T -> bool)
    requires size > 0 && Faithful(after, enc, lt, u) && StrictOrder(lt, u) && Within(rows, u) && Ascending(rows, lt)
    requires all <= Selected(rows, "", after, f) && |all| == Capacity(page, size) && page < MAX_LIST_PAGES
    ensures var want := Selected(rows, "", after, f);
            var (items, next) := Page(rows, TokenAt(want, |all|, enc), after, f, enc, size);
            if next == "" then all + items == want && |want| <= Capacity(MAX_LIST_PAGES, size)
            else all + items <= want && |all + items| == Capacity(page + 1, size) < |want|
                 && next == TokenAt(want, |all + items|, enc)
  {
    var want, m := Selected(rows, "", after, f), |all|;
    PageAt(rows, m, after, f, enc, size, lt, u);
    CapacityGrows(page + 1, MAX_LIST_PAGES, size);
    assert want == want[..m] + want[m..];
    assert m + size < |want| ==> want[..m] + want[m..m + size] == want[..m + size];
  }

  /** Follow the tokens of an unchanged list for at most a hundred pages: the
      whole list, or nothing if it does not fit. */
  method ListAll<T(!new)>(rows: seq<T>, after: (string, T) -> bool, f: T -> bool, enc: T -> string, size: nat,
                          ghost lt: (T, T) -> bool, ghost u: T -> bool)
    returns (r: Option<seq<T>>)
    requires size > 0 && Faithful(after, enc, lt, u) && StrictOrder(lt, u) && Within(rows, u) && Ascending(rows, lt)
    ensures var want := Selected(rows, "", after, f);
            r == if |want| <= Capacity(MAX_LIST_PAGES, size) then Some(want) else None
  {
    ghost var want := Selected(rows, "", after, f);
    var all, token: string := [], "";
    for page := 0 to MAX_LIST_PAGES
      invariant |all| == Capacity(page, size) && all <= want && token == TokenAt(want, |all|, enc)
      invariant page > 0 ==> |all| < |want|
    {
      Turn(rows, all, page, after, f, enc, size, lt, u);
      var items, next := ListPage(rows, token, after, f, enc, size);
      all := all + items;
      if next == "" {
        return Some(all);
      }
      token := next;
    }
    r := None;
  }
}
