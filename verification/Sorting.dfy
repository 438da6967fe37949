/** Sorting as the source uses it (sort.Strings, sort.Slice): only the sortedness of the
    outcome matters, because a strictly sorted arrangement of given elements is unique. */
module Sorting {
  predicate Sorted<T>(xs: seq<T>, lt: (T, T) -> bool) {
    forall i, j | 0 <= i < j < |xs| :: lt(xs[i], xs[j])
  }

  /** Any two elements at different positions are ordered one way or the other. */
  ghost predicate Comparable<T(!new)>(xs: seq<T>, lt: (T, T) -> bool) {
    forall i, j | 0 <= i < j < |xs| :: lt(xs[i], xs[j]) || lt(xs[j], xs[i])
  }

  ghost predicate StrictOrder<T(!new)>(lt: (T, T) -> bool) {
    (forall x :: !lt(x, x)) &&
    (forall x, y, z :: lt(x, y) && lt(y, z) ==> lt(x, z))
  }

  function Insert<T>(x: T, xs: seq<T>, lt: (T, T) -> bool): seq<T> {
    if xs == [] || lt(x, xs[0]) then [x] + xs else [xs[0]] + Insert(x, xs[1..], lt)
  }

  function Sort<T>(xs: seq<T>, lt: (T, T) -> bool): seq<T> {
    if xs == [] then [] else Insert(xs[0], Sort(xs[1..], lt), lt)
  }

  lemma {:induction false} InsertKeeps<T(!new)>(x: T, xs: seq<T>, lt: (T, T) -> bool)
    requires StrictOrder(lt) && Sorted(xs, lt)
    requires forall y | y in xs :: lt(x, y) || lt(y, x)
    ensures Sorted(Insert(x, xs, lt), lt)
    ensures forall y :: y in Insert(x, xs, lt) <==> y == x || y in xs
    ensures |Insert(x, xs, lt)| == |xs| + 1
  {
    if xs == [] {
    } else if lt(x, xs[0]) {
      forall y | y in xs[1..] ensures lt(x, y) { assert lt(xs[0], y); }
    } else {
      InsertKeeps(x, xs[1..], lt);
      assert lt(xs[0], x);
      forall y | y in Insert(x, xs[1..], lt) ensures lt(xs[0], y) { }
      assert xs == [xs[0]] + xs[1..];
    }
  }

  lemma {:induction false} SortSorts<T(!new)>(xs: seq<T>, lt: (T, T) -> bool)
    requires StrictOrder(lt) && Comparable(xs, lt)
    ensures Sorted(Sort(xs, lt), lt) && |Sort(xs, lt)| == |xs|
    ensures forall x :: x in Sort(xs, lt) <==> x in xs
  {
    if xs != [] {
      SortSorts(xs[1..], lt);
      forall y | y in Sort(xs[1..], lt) ensures lt(xs[0], y) || lt(y, xs[0]) {
        var i :| 0 <= i < |xs[1..]| && xs[1..][i] == y;
        assert xs[i + 1] == y;
      }
      InsertKeeps(xs[0], Sort(xs[1..], lt), lt);
      assert xs == [xs[0]] + xs[1..];
    }
  }

  lemma HeadLeast<T(!new)>(a: seq<T>, x: T, lt: (T, T) -> bool)
    requires Sorted(a, lt) && x in a
    ensures x == a[0] || lt(a[0], x)
  {
  }

  lemma TailElements<T(!new)>(a: seq<T>, b: seq<T>, lt: (T, T) -> bool)
    requires StrictOrder(lt) && Sorted(a, lt)
    requires a != [] && b != [] && a[0] == b[0]
    requires forall x | x in a :: x in b
    ensures forall x | x in a[1..] :: x in b[1..]
  {
    forall x | x in a[1..] ensures x in b[1..] {
      assert lt(a[0], x);
      assert x in a;
      assert b == [b[0]] + b[1..];
    }
  }

  /** Two strictly sorted sequences of the same elements are the same sequence. */
  lemma {:induction false} SortedUnique<T(!new)>(a: seq<T>, b: seq<T>, lt: (T, T) -> bool)
    requires StrictOrder(lt) && Sorted(a, lt) && Sorted(b, lt)
    requires forall x :: x in a <==> x in b
    ensures a == b
  {
    assert a != [] ==> a[0] in a;
    assert b != [] ==> b[0] in b;
    if a != [] {
      HeadLeast(a, b[0], lt);
      HeadLeast(b, a[0], lt);
      TailElements(a, b, lt);
      TailElements(b, a, lt);
      SortedUnique(a[1..], b[1..], lt);
      assert a == [a[0]] + a[1..] && b == [b[0]] + b[1..];
    }
  }
}
