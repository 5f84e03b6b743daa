/** Stable sorting by a comparison. */
module Sorting {
  function InsertSorted<T>(x: T, ys: seq<T>, before: (T, T) -> bool): (r: seq<T>)
    ensures multiset(r) == multiset{x} + multiset(ys)
  {
    if ys == [] || !before(ys[0], x) then [x] + ys
    else
      assert ys == [ys[0]] + ys[1..];
      [ys[0]] + InsertSorted(x, ys[1..], before)
  }

  function StableSort<T>(xs: seq<T>, before: (T, T) -> bool): (r: seq<T>)
    ensures multiset(r) == multiset(xs)
    ensures |r| == |xs|
  {
    if xs == [] then []
    else
      assert xs == [xs[0]] + xs[1..];
      var r := InsertSorted(xs[0], StableSort(xs[1..], before), before);
      assert |multiset(r)| == |r|;
      r
  }

  /** A comparison that sorts: no two elements before each other, and being no later is transitive. */
  ghost predicate IsWeakOrder<T(!new)>(before: (T, T) -> bool) {
    && (forall x, y :: before(x, y) ==> !before(y, x))
    && (forall x, y, z :: !before(y, x) && !before(z, y) ==> !before(z, x))
  }

  ghost predicate IsInOrder<T>(s: seq<T>, before: (T, T) -> bool) {
    forall i, j :: 0 <= i < j < |s| ==> !before(s[j], s[i])
  }

  lemma {:induction false} InsertedIsInOrder<T(!new)>(x: T, ys: seq<T>, before: (T, T) -> bool)
    requires IsWeakOrder(before) && IsInOrder(ys, before)
    ensures IsInOrder(InsertSorted(x, ys, before), before)
  {
    var r := InsertSorted(x, ys, before);
    if ys == [] || !before(ys[0], x) {
      forall i, j | 0 <= i < j < |r| ensures !before(r[j], r[i]) {
        if i == 0 && j > 1 {
          assert !before(ys[j - 1], ys[0]) && !before(ys[0], x);
        }
      }
    } else {
      var rest := InsertSorted(x, ys[1..], before);
      InsertedIsInOrder(x, ys[1..], before);
      forall j | 0 <= j < |rest| ensures !before(rest[j], ys[0]) {
        assert rest[j] in multiset(rest);
        if rest[j] != x {
          assert rest[j] in multiset(ys[1..]);
          var k :| 0 <= k < |ys| - 1 && ys[1..][k] == rest[j];
          assert !before(ys[k + 1], ys[0]);
        }
      }
    }
  }

  lemma {:induction false} SortedIsInOrder<T(!new)>(xs: seq<T>, before: (T, T) -> bool)
    requires IsWeakOrder(before)
    ensures IsInOrder(StableSort(xs, before), before)
  {
    if xs != [] {
      SortedIsInOrder(xs[1..], before);
      InsertedIsInOrder(xs[0], StableSort(xs[1..], before), before);
    }
  }

  /** The elements of one class, in the order in which they stand. */
  ghost function Class<T>(s: seq<T>, same: T -> bool): seq<T> {
    if s == [] then [] else if same(s[0]) then [s[0]] + Class(s[1..], same) else Class(s[1..], same)
  }

  lemma {:induction false} InsertedKeepsClass<T(!new)>(x: T, ys: seq<T>, before: (T, T) -> bool, same: T -> bool)
    requires forall a, b :: same(a) && same(b) ==> !before(a, b)
    ensures Class(InsertSorted(x, ys, before), same) == if same(x) then [x] + Class(ys, same) else Class(ys, same)
  {
    if ys == [] || !before(ys[0], x) {
      assert ([x] + ys)[1..] == ys;
    } else {
      InsertedKeepsClass(x, ys[1..], before, same);
      assert ([ys[0]] + InsertSorted(x, ys[1..], before))[1..] == InsertSorted(x, ys[1..], before);
    }
  }

  /** Elements none of which goes before another keep their order. */
  lemma {:induction false} SortedKeepsClass<T(!new)>(xs: seq<T>, before: (T, T) -> bool, same: T -> bool)
    requires forall a, b :: same(a) && same(b) ==> !before(a, b)
    ensures Class(StableSort(xs, before), same) == Class(xs, same)
  {
    if xs != [] {
      SortedKeepsClass(xs[1..], before, same);
      InsertedKeepsClass(xs[0], StableSort(xs[1..], before), before, same);
    }
  }
}
