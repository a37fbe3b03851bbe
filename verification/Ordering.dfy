/** The lexicographic order of strings and sorting by it (Go's sort.Strings
    and sort.Slice). */
module Ordering {
  predicate Less(a: string, b: string) {
    b != "" && (a == "" || a[0] < b[0] || (a[0] == b[0] && Less(a[1..], b[1..])))
  }

  lemma {:induction false} LessAsymmetric(a: string, b: string)
    ensures !(Less(a, b) && Less(b, a))
  {
    if a != "" && b != "" {
      LessAsymmetric(a[1..], b[1..]);
    }
  }

  lemma {:induction false} LessTotal(a: string, b: string)
    ensures Less(a, b) || Less(b, a) || a == b
  {
    if a != "" && b != "" {
      LessTotal(a[1..], b[1..]);
      assert a == [a[0]] + a[1..] && b == [b[0]] + b[1..];
    }
  }

  lemma {:induction false} LessTransitive(a: string, b: string, c: string)
    requires Less(a, b) && Less(b, c)
    ensures Less(a, c)
  {
    if a != "" && a[0] == b[0] && b[0] == c[0] {
      LessTransitive(a[1..], b[1..], c[1..]);
    }
  }

  /** Asymmetric, and incomparability is transitive: enough to sort by. */
  ghost predicate StrictWeak<T(!new)>(lt: (T, T) -> bool) {
    && (forall x, y :: lt(x, y) ==> !lt(y, x))
    && (forall x, y, z {:trigger lt(x, y), lt(x, z)} {:trigger lt(x, y), lt(z, y)} :: lt(x, y) ==> lt(x, z) || lt(z, y))
  }

  ghost predicate Sorted<T>(xs: seq<T>, lt: (T, T) -> bool) {
    forall i, j :: 0 <= i < j < |xs| ==> !lt(xs[j], xs[i])
  }

  function Insert<T>(x: T, xs: seq<T>, lt: (T, T) -> bool): seq<T> {
    if xs == [] || lt(x, xs[0]) then [x] + xs else [xs[0]] + Insert(x, xs[1..], lt)
  }

  function Sort<T>(xs: seq<T>, lt: (T, T) -> bool): seq<T> {
    if xs == [] then [] else Insert(xs[0], Sort(xs[1..], lt), lt)
  }

  lemma {:induction false} InsertContents<T>(x: T, xs: seq<T>, lt: (T, T) -> bool)
    ensures multiset(Insert(x, xs, lt)) == multiset(xs) + multiset{x}
  {
    if xs == [] || lt(x, xs[0]) {
    } else {
      InsertContents(x, xs[1..], lt);
      assert xs == [xs[0]] + xs[1..];
    }
  }

  lemma {:induction false} InsertSorted<T(!new)>(x: T, xs: seq<T>, lt: (T, T) -> bool)
    requires StrictWeak(lt) && Sorted(xs, lt)
    ensures Sorted(Insert(x, xs, lt), lt)
  {
    if xs != [] && !lt(x, xs[0]) {
      var rest := Insert(x, xs[1..], lt);
      InsertSorted(x, xs[1..], lt);
      InsertContents(x, xs[1..], lt);
      forall j | 0 <= j < |rest| ensures !lt(rest[j], xs[0]) {
        assert rest[j] in multiset(rest);
        assert rest[j] == x || rest[j] in xs[1..];
      }
    }
  }

  /** Sorting permutes its input into order. */
  lemma {:induction false} SortCorrect<T(!new)>(xs: seq<T>, lt: (T, T) -> bool)
    requires StrictWeak(lt)
    ensures multiset(Sort(xs, lt)) == multiset(xs) && Sorted(Sort(xs, lt), lt)
  {
    if xs != [] {
      SortCorrect(xs[1..], lt);
      InsertContents(xs[0], Sort(xs[1..], lt), lt);
      InsertSorted(xs[0], Sort(xs[1..], lt), lt);
      assert xs == [xs[0]] + xs[1..];
    }
  }

  /** Any two elements can be told apart. */
  ghost predicate Distinct<T>(xs: seq<T>, lt: (T, T) -> bool) {
    forall i, j :: 0 <= i < j < |xs| ==> lt(xs[i], xs[j]) || lt(xs[j], xs[i])
  }

  ghost predicate Strict<T>(xs: seq<T>, lt: (T, T) -> bool) {
    forall i, j :: 0 <= i < j < |xs| ==> lt(xs[i], xs[j])
  }

  lemma {:induction false} InsertStrict<T(!new)>(x: T, xs: seq<T>, lt: (T, T) -> bool)
    requires StrictWeak(lt) && Strict(xs, lt) && forall y :: y in xs ==> lt(x, y) || lt(y, x)
    ensures Strict(Insert(x, xs, lt), lt)
  {
    if xs != [] {
      assert xs[0] in xs;
      if lt(x, xs[0]) {
        forall j | 0 <= j < |xs| ensures lt(x, xs[j]) { assert xs[j] in xs; }
      } else {
        var rest := Insert(x, xs[1..], lt);
        InsertStrict(x, xs[1..], lt);
        InsertContents(x, xs[1..], lt);
        forall j | 0 <= j < |rest| ensures lt(xs[0], rest[j]) {
          assert rest[j] in multiset(rest);
          assert rest[j] == x || rest[j] in xs[1..];
        }
      }
    }
  }

  /** Sorting distinct elements leaves no ties. */
  lemma {:induction false} SortStrict<T(!new)>(xs: seq<T>, lt: (T, T) -> bool)
    requires StrictWeak(lt) && Distinct(xs, lt)
    ensures Strict(Sort(xs, lt), lt)
  {
    if xs != [] {
      SortStrict(xs[1..], lt);
      SortCorrect(xs[1..], lt);
      var rest := Sort(xs[1..], lt);
      forall y | y in rest ensures lt(xs[0], y) || lt(y, xs[0]) {
        assert y in multiset(rest);
        assert y in xs[1..];
      }
      InsertStrict(xs[0], rest, lt);
    }
  }

  lemma LessStrictWeak()
    ensures StrictWeak(Less)
  {
    forall x, y | Less(x, y) ensures !Less(y, x) { LessAsymmetric(x, y); }
    forall x, y, z | Less(x, y) ensures Less(x, z) || Less(z, y) {
      LessTotal(x, z);
      if Less(z, x) { LessTransitive(z, x, y); }
    }
  }
}
