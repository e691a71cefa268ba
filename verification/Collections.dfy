/** Counting, filtering and the stable sort of Python's `list.sort`. */
module Collections {
  function Count<T(!new)>(xs: seq<T>, p: T -> bool): nat {
    if xs == [] then 0 else Count(xs[..|xs| - 1], p) + if p(xs[|xs| - 1]) then 1 else 0
  }

  lemma CountSnoc<T(!new)>(xs: seq<T>, x: T, p: T -> bool)
    ensures Count(xs + [x], p) == Count(xs, p) + if p(x) then 1 else 0
  {
    assert (xs + [x])[..|xs|] == xs;
  }

  lemma {:induction false} CountAppend<T(!new)>(xs: seq<T>, ys: seq<T>, p: T -> bool)
    ensures Count(xs + ys, p) == Count(xs, p) + Count(ys, p)
  {
    if ys == [] {
      assert xs + ys == xs;
    } else {
      var front := ys[..|ys| - 1];
      assert (xs + ys)[..|xs + ys| - 1] == xs + front;
      CountAppend(xs, front, p);
    }
  }

  lemma {:induction false} CountMono<T(!new)>(xs: seq<T>, p: T -> bool, q: T -> bool)
    requires forall x | x in xs :: p(x) ==> q(x)
    ensures Count(xs, p) <= Count(xs, q)
  {
    if xs != [] {
      CountMono(xs[..|xs| - 1], p, q);
    }
  }

  lemma {:induction false} CountNone<T(!new)>(xs: seq<T>, p: T -> bool)
    ensures Count(xs, p) == 0 <==> forall x | x in xs :: !p(x)
  {
    if xs != [] {
      CountNone(xs[..|xs| - 1], p);
      assert xs == xs[..|xs| - 1] + [xs[|xs| - 1]];
    }
  }

  function Filter<T(!new)>(xs: seq<T>, p: T -> bool): seq<T> {
    if xs == [] then []
    else (if p(xs[0]) then [xs[0]] else []) + Filter(xs[1..], p)
  }

  lemma {:induction false} FilterIn<T(!new)>(xs: seq<T>, p: T -> bool)
    ensures |Filter(xs, p)| <= |xs|
    ensures forall x :: x in Filter(xs, p) <==> x in xs && p(x)
  {
    if xs != [] {
      FilterIn(xs[1..], p);
      assert xs == [xs[0]] + xs[1..];
    }
  }

  ghost predicate Distinct<T(!new)>(xs: seq<T>) {
    forall i, j | 0 <= i < j < |xs| :: xs[i] != xs[j]
  }

  /** The elements that count, as a set. */
  function Picked<T(!new)>(xs: seq<T>, p: T -> bool): set<T> {
    if xs == [] then {}
    else Picked(xs[..|xs| - 1], p) + if p(xs[|xs| - 1]) then {xs[|xs| - 1]} else {}
  }

  lemma {:induction false} PickedIn<T(!new)>(xs: seq<T>, p: T -> bool)
    ensures forall x :: x in Picked(xs, p) <==> x in xs && p(x)
  {
    if xs != [] {
      var front, last := xs[..|xs| - 1], xs[|xs| - 1];
      PickedIn(front, p);
      assert xs == front + [last];
    }
  }

  lemma {:induction false} PickedSize<T(!new)>(xs: seq<T>, p: T -> bool)
    requires Distinct(xs)
    ensures |Picked(xs, p)| == Count(xs, p)
  {
    if xs != [] {
      var front, last := xs[..|xs| - 1], xs[|xs| - 1];
      PickedSize(front, p);
      PickedIn(front, p);
      assert last !in front;
    }
  }

  // ----- Stable sort -----

  ghost predicate TotalPreorder<T(!new)>(le: (T, T) -> bool) {
    && (forall x, y :: le(x, y) || le(y, x))
    && (forall x, y, z :: le(x, y) && le(y, z) ==> le(x, z))
  }

  ghost predicate Sorted<T(!new)>(xs: seq<T>, le: (T, T) -> bool) {
    forall i, j | 0 <= i < j < |xs| :: le(xs[i], xs[j])
  }

  function Insert<T(!new)>(x: T, ys: seq<T>, le: (T, T) -> bool): seq<T> {
    if ys == [] || le(x, ys[0]) then [x] + ys
    else [ys[0]] + Insert(x, ys[1..], le)
  }

  function StableSort<T(!new)>(xs: seq<T>, le: (T, T) -> bool): seq<T> {
    if xs == [] then [] else Insert(xs[0], StableSort(xs[1..], le), le)
  }

  lemma {:induction false} InsertPermutes<T(!new)>(x: T, ys: seq<T>, le: (T, T) -> bool)
    ensures multiset(Insert(x, ys, le)) == multiset{x} + multiset(ys)
  {
    if ys != [] && !le(x, ys[0]) {
      InsertPermutes(x, ys[1..], le);
      assert ys == [ys[0]] + ys[1..];
    }
  }

  lemma {:induction false} SortPermutes<T(!new)>(xs: seq<T>, le: (T, T) -> bool)
    ensures multiset(StableSort(xs, le)) == multiset(xs) && |StableSort(xs, le)| == |xs|
    ensures forall x :: x in StableSort(xs, le) <==> x in xs
  {
    var r := StableSort(xs, le);
    if xs != [] {
      SortPermutes(xs[1..], le);
      InsertPermutes(xs[0], StableSort(xs[1..], le), le);
      assert xs == [xs[0]] + xs[1..];
    }
    assert |multiset(r)| == |r| && |multiset(xs)| == |xs|;
    assert forall x :: x in r <==> x in multiset(r);
    assert forall x :: x in xs <==> x in multiset(xs);
  }

  lemma {:induction false} InsertSorted<T(!new)>(x: T, ys: seq<T>, le: (T, T) -> bool)
    requires TotalPreorder(le) && Sorted(ys, le)
    ensures Sorted(Insert(x, ys, le), le)
  {
    if ys != [] && !le(x, ys[0]) {
      InsertSorted(x, ys[1..], le);
      InsertPermutes(x, ys[1..], le);
      var rest := Insert(x, ys[1..], le);
      forall y | y in rest
        ensures le(ys[0], y)
      {
        assert y in multiset(rest);
        assert y == x || y in ys[1..];
      }
    }
  }

  lemma {:induction false} SortSorted<T(!new)>(xs: seq<T>, le: (T, T) -> bool)
    requires TotalPreorder(le)
    ensures Sorted(StableSort(xs, le), le)
  {
    if xs != [] {
      SortSorted(xs[1..], le);
      InsertSorted(xs[0], StableSort(xs[1..], le), le);
    }
  }

  /** `a` stands before `b` in the list. */
  ghost predicate Before<T(!new)>(xs: seq<T>, a: T, b: T) {
    exists i, j | 0 <= i < j < |xs| :: xs[i] == a && xs[j] == b
  }

  /** In order, and equal elements in the order of the list they come from. */
  ghost predicate StablyOrdered<T(!new)>(xs: seq<T>, r: seq<T>, le: (T, T) -> bool) {
    forall i, j | 0 <= i < j < |r| :: le(r[i], r[j]) && (le(r[j], r[i]) ==> Before(xs, r[i], r[j]))
  }

  lemma {:induction false} InsertAt<T(!new)>(x: T, ys: seq<T>, le: (T, T) -> bool) returns (k: nat)
    ensures k <= |ys| && Insert(x, ys, le) == ys[..k] + [x] + ys[k..]
    ensures (forall m | 0 <= m < k :: !le(x, ys[m])) && (k < |ys| ==> le(x, ys[k]))
  {
    if ys == [] || le(x, ys[0]) {
      k := 0;
    } else {
      var rest := InsertAt(x, ys[1..], le);
      k := rest + 1;
      assert ys[..k] == [ys[0]] + ys[1..][..rest] && ys[k..] == ys[1..][rest..];
    }
  }

  lemma BeforeBehind<T(!new)>(x: T, xs: seq<T>, a: T, b: T)
    ensures Before(xs, a, b) ==> Before([x] + xs, a, b)
    ensures b in xs ==> Before([x] + xs, x, b)
  {
    var longer := [x] + xs;
    if Before(xs, a, b) {
      var i, j :| 0 <= i < j < |xs| && xs[i] == a && xs[j] == b;
      assert longer[i + 1] == a && longer[j + 1] == b;
    }
    if b in xs {
      var j :| 0 <= j < |xs| && xs[j] == b;
      assert longer[0] == x && longer[j + 1] == b;
    }
  }

  /** The sort is stable. */
  lemma {:induction false} SortStable<T(!new)>(xs: seq<T>, le: (T, T) -> bool)
    requires TotalPreorder(le)
    ensures StablyOrdered(xs, StableSort(xs, le), le)
  {
    if xs != [] {
      var x, rest := xs[0], xs[1..];
      var ys := StableSort(rest, le);
      SortStable(rest, le);
      SortPermutes(rest, le);
      var k := InsertAt(x, ys, le);
      assert xs == [x] + rest;
      InsertStable(x, rest, ys, le, k);
    }
  }

  lemma InsertStable<T(!new)>(x: T, rest: seq<T>, ys: seq<T>, le: (T, T) -> bool, k: nat)
    requires TotalPreorder(le) && StablyOrdered(rest, ys, le) && k <= |ys| && forall y | y in ys :: y in rest
    requires (forall m | 0 <= m < k :: !le(x, ys[m])) && (k < |ys| ==> le(x, ys[k]))
    ensures StablyOrdered([x] + rest, ys[..k] + [x] + ys[k..], le)
  {
    var r := ys[..k] + [x] + ys[k..];
    forall i, j | 0 <= i < j < |r|
      ensures le(r[i], r[j]) && (le(r[j], r[i]) ==> Before([x] + rest, r[i], r[j]))
    {
      BeforeBehind(x, rest, r[i], r[j]);
      var m, n := if i < k then i else i - 1, if j < k then j else j - 1;
      if i == k {
        assert r[j] == ys[n] && (n > k ==> le(ys[k], ys[n]));
      } else if j != k {
        assert r[i] == ys[m] && r[j] == ys[n];
      } else {
        assert r[i] == ys[m];
      }
    }
  }

  lemma {:induction false} FilterAppend<T(!new)>(xs: seq<T>, ys: seq<T>, p: T -> bool)
    ensures Filter(xs + ys, p) == Filter(xs, p) + Filter(ys, p)
  {
    if xs == [] {
      assert xs + ys == ys;
    } else {
      var head := if p(xs[0]) then [xs[0]] else [];
      assert (xs + ys)[0] == xs[0] && (xs + ys)[1..] == xs[1..] + ys;
      FilterAppend(xs[1..], ys, p);
      assert Filter(xs + ys, p) == head + (Filter(xs[1..], p) + Filter(ys, p));
    }
  }

  lemma {:induction false} FilterAll<T(!new)>(xs: seq<T>, p: T -> bool)
    requires forall x | x in xs :: p(x)
    ensures Filter(xs, p) == xs
  {
    if xs != [] {
      FilterAll(xs[1..], p);
    }
  }

  lemma {:induction false} FilterNone<T(!new)>(xs: seq<T>, p: T -> bool)
    requires forall x | x in xs :: !p(x)
    ensures Filter(xs, p) == []
  {
    if xs != [] {
      FilterNone(xs[1..], p);
    }
  }

  lemma FilterTail<T(!new)>(xs: seq<T>, k: nat, p: T -> bool)
    requires k <= |xs|
    requires (forall x | x in xs[..k] :: !p(x)) && (forall x | x in xs[k..] :: p(x))
    ensures Filter(xs, p) == xs[k..]
  {
    assert xs == xs[..k] + xs[k..];
    FilterAppend(xs[..k], xs[k..], p);
    FilterNone(xs[..k], p);
    FilterAll(xs[k..], p);
  }

  lemma {:induction false} FilterFilter<T(!new)>(xs: seq<T>, p: T -> bool, q: T -> bool)
    requires forall x | x in xs :: q(x) ==> p(x)
    ensures Filter(Filter(xs, p), q) == Filter(xs, q)
  {
    if xs != [] {
      FilterFilter(xs[1..], p, q);
      var head := if p(xs[0]) then [xs[0]] else [];
      FilterAppend(head, Filter(xs[1..], p), q);
    }
  }

  lemma {:induction false} FilterDistinct<T(!new)>(xs: seq<T>, p: T -> bool)
    requires Distinct(xs)
    ensures Distinct(Filter(xs, p))
  {
    if xs != [] {
      FilterDistinct(xs[1..], p);
      FilterIn(xs[1..], p);
      assert xs[0] !in xs[1..];
    }
  }

  lemma FilterCons<T(!new)>(x: T, xs: seq<T>, p: T -> bool)
    ensures Filter([x] + xs, p) == if p(x) then [x] + Filter(xs, p) else Filter(xs, p)
  {
    assert ([x] + xs)[1..] == xs;
  }

  /** Once `x` may stand before an element of `ys`, it may stand before all later ones. */
  ghost predicate Upward<T(!new)>(x: T, ys: seq<T>, le: (T, T) -> bool) {
    forall i, j | 0 <= i < j < |ys| && le(x, ys[i]) :: le(x, ys[j])
  }

  lemma {:induction false} FilterInsert<T(!new)>(x: T, ys: seq<T>, le: (T, T) -> bool, p: T -> bool)
    requires Upward(x, ys, le)
    ensures Filter(Insert(x, ys, le), p) == if p(x) then Insert(x, Filter(ys, p), le) else Filter(ys, p)
  {
    if ys == [] || le(x, ys[0]) {
      FilterCons(x, ys, p);
      FilterIn(ys, p);
      if Filter(ys, p) != [] {
        assert Filter(ys, p)[0] in ys;
      }
    } else {
      var rest := ys[1..];
      FilterInsert(x, rest, le, p);
      assert ys == [ys[0]] + rest;
      FilterCons(ys[0], rest, p);
      FilterCons(ys[0], Insert(x, rest, le), p);
      if p(ys[0]) {
        assert Filter(ys, p)[1..] == Filter(rest, p);
      }
    }
  }

  /** Sorting and then dropping elements is dropping them and then sorting. */
  lemma {:induction false} FilterSort<T(!new)>(xs: seq<T>, le: (T, T) -> bool, p: T -> bool)
    requires TotalPreorder(le)
    ensures Filter(StableSort(xs, le), p) == StableSort(Filter(xs, p), le)
  {
    if xs != [] {
      var rest := xs[1..];
      FilterSort(rest, le, p);
      SortSorted(rest, le);
      FilterInsert(xs[0], StableSort(rest, le), le, p);
      assert xs == [xs[0]] + rest;
      FilterCons(xs[0], rest, p);
      if p(xs[0]) {
        assert Filter(xs, p)[1..] == Filter(rest, p);
      }
    }
  }

  lemma {:induction false} DistinctCounts<T(!new)>(xs: seq<T>)
    ensures Distinct(xs) <==> forall x | x in xs :: multiset(xs)[x] == 1
  {
    if xs != [] {
      var rest := xs[1..];
      assert xs == [xs[0]] + rest;
      DistinctCounts(rest);
      assert forall x | x in rest :: x in multiset(rest);
      assert xs[0] in rest ==> multiset(xs)[xs[0]] >= 2;
      if Distinct(xs) { assert xs[0] !in rest; }
      if forall x | x in xs :: multiset(xs)[x] == 1 {
        assert xs[0] !in rest;
        forall x | x in rest ensures multiset(rest)[x] == 1 { assert x in xs; }
      }
    }
  }

  lemma SortDistinct<T(!new)>(xs: seq<T>, le: (T, T) -> bool)
    requires Distinct(xs)
    ensures Distinct(StableSort(xs, le))
  {
    DistinctCounts(xs);
    DistinctCounts(StableSort(xs, le));
    SortPermutes(xs, le);
  }
}
