/** A stable sort by a key, and why there is only one. */
module Sorting {

  predicate Ordered<T>(xs: seq<T>, key: T -> real) {
    forall i, j :: 0 <= i < j < |xs| ==> key(xs[i]) <= key(xs[j])
  }

  /** The elements with one key, in the order they come. */
  function AtKey<T>(xs: seq<T>, key: T -> real, t: real): seq<T> {
    if xs == [] then []
    else (if key(xs[0]) == t then [xs[0]] else []) + AtKey(xs[1..], key, t)
  }

  function Inserted<T>(x: T, xs: seq<T>, key: T -> real): seq<T> {
    if xs == [] || key(x) <= key(xs[0]) then [x] + xs else [xs[0]] + Inserted(x, xs[1..], key)
  }

  function StableSort<T>(xs: seq<T>, key: T -> real): seq<T> {
    if xs == [] then [] else Inserted(xs[0], StableSort(xs[1..], key), key)
  }

  lemma OrderedCons<T>(x: T, xs: seq<T>, key: T -> real)
    requires Ordered(xs, key) && forall y <- xs :: key(x) <= key(y)
    ensures Ordered([x] + xs, key)
  {
    assert forall j :: 0 <= j < |xs| ==> xs[j] in xs;
  }

  lemma OrderedTail<T>(xs: seq<T>, key: T -> real)
    requires Ordered(xs, key) && xs != []
    ensures Ordered(xs[1..], key)
    ensures (forall y <- xs :: key(xs[0]) <= key(y)) && forall y <- xs[1..] :: key(xs[0]) <= key(y)
  {
  }

  lemma {:induction false} InsertedSame<T>(x: T, xs: seq<T>, key: T -> real)
    ensures multiset(Inserted(x, xs, key)) == multiset{x} + multiset(xs)
  {
    if xs != [] && key(xs[0]) < key(x) {
      InsertedSame(x, xs[1..], key);
      assert xs == [xs[0]] + xs[1..];
    }
  }

  lemma {:induction false} InsertedOrdered<T>(x: T, xs: seq<T>, key: T -> real)
    requires Ordered(xs, key)
    ensures Ordered(Inserted(x, xs, key), key)
  {
    hide Ordered;
    if xs == [] {
      OrderedCons(x, xs, key);
    } else {
      OrderedTail(xs, key);
      if key(x) <= key(xs[0]) {
        OrderedCons(x, xs, key);
      } else {
        var r := Inserted(x, xs[1..], key);
        InsertedOrdered(x, xs[1..], key);
        InsertedSame(x, xs[1..], key);
        hide Inserted;
        forall y <- r ensures key(xs[0]) <= key(y) {
          assert y in multiset(r);
          if y != x {
            assert y in multiset(xs[1..]);
            assert y in xs[1..];
          }
        }
        OrderedCons(xs[0], r, key);
      }
    }
  }

  lemma AtKeyCons<T>(x: T, xs: seq<T>, key: T -> real, t: real)
    ensures AtKey([x] + xs, key, t) == (if key(x) == t then [x] else []) + AtKey(xs, key, t)
  {
    assert ([x] + xs)[1..] == xs;
  }

  lemma {:induction false} InsertedStable<T>(x: T, xs: seq<T>, key: T -> real, t: real)
    ensures AtKey(Inserted(x, xs, key), key, t) == (if key(x) == t then [x] else []) + AtKey(xs, key, t)
  {
    hide AtKey;
    AtKeyCons(x, xs, key, t);
    if xs != [] && key(xs[0]) < key(x) {
      InsertedStable(x, xs[1..], key, t);
      AtKeyCons(xs[0], Inserted(x, xs[1..], key), key, t);
      AtKeyCons(xs[0], xs[1..], key, t);
      assert xs == [xs[0]] + xs[1..];
    }
  }

  /** Sorting keeps every element, orders by key, and keeps the order of equal keys. */
  lemma {:induction false} StableSortSorts<T>(xs: seq<T>, key: T -> real)
    ensures Ordered(StableSort(xs, key), key) && multiset(StableSort(xs, key)) == multiset(xs)
    ensures forall t :: AtKey(StableSort(xs, key), key, t) == AtKey(xs, key, t)
  {
    if xs != [] {
      StableSortSorts(xs[1..], key);
      InsertedOrdered(xs[0], StableSort(xs[1..], key), key);
      InsertedSame(xs[0], StableSort(xs[1..], key), key);
      forall t {
        InsertedStable(xs[0], StableSort(xs[1..], key), key, t);
      }
      assert xs == [xs[0]] + xs[1..];
    }
  }

  /** Where the sorted elements come from: in order of key, and of their positions where keys are equal. */
  ghost predicate FromPositions<T>(sorted: seq<T>, xs: seq<T>, key: T -> real, from: seq<nat>) {
    && |from| == |sorted| == |xs|
    && (forall k :: 0 <= k < |from| ==> from[k] < |xs| && sorted[k] == xs[from[k]])
    && (forall i, j :: 0 <= i < j < |from| ==>
          key(sorted[i]) < key(sorted[j]) || (key(sorted[i]) == key(sorted[j]) && from[i] < from[j]))
  }

  lemma {:induction false} InsertedFrom<T>(x: T, xs: seq<T>, all: seq<T>, key: T -> real, from: seq<nat>) returns (r: seq<nat>)
    requires |from| == |xs| && |all| > 0 && all[0] == x
    requires forall k :: 0 <= k < |from| ==> 0 < from[k] < |all| && xs[k] == all[from[k]]
    requires forall i, j :: 0 <= i < j < |from| ==>
      key(xs[i]) < key(xs[j]) || (key(xs[i]) == key(xs[j]) && from[i] < from[j])
    ensures var s := Inserted(x, xs, key);
      && |r| == |s| == |xs| + 1 && (forall k :: 0 <= k < |r| ==> r[k] < |all| && s[k] == all[r[k]])
      && (forall i, j :: 0 <= i < j < |r| ==> key(s[i]) < key(s[j]) || (key(s[i]) == key(s[j]) && r[i] < r[j]))
      && forall k <- r :: k == 0 || k in from
  {
    if xs == [] || key(x) <= key(xs[0]) {
      r := [0] + from;
    } else {
      var rest := InsertedFrom(x, xs[1..], all, key, from[1..]);
      r := [from[0]] + rest;
      forall k | 0 <= k < |rest| ensures key(xs[0]) < key(Inserted(x, xs[1..], key)[k])
        || (key(xs[0]) == key(Inserted(x, xs[1..], key)[k]) && from[0] < rest[k])
      {
        assert rest[k] in rest;
        if rest[k] != 0 {
          var m :| 0 <= m < |from[1..]| && from[1..][m] == rest[k];
          assert xs[m + 1] == all[rest[k]];
        }
      }
    }
  }

  /** The stable sort in terms of positions. */
  lemma {:induction false} StableSortFrom<T>(xs: seq<T>, key: T -> real) returns (from: seq<nat>)
    ensures FromPositions(StableSort(xs, key), xs, key, from)
  {
    if xs == [] {
      from := [];
    } else {
      var tail := StableSortFrom(xs[1..], key);
      var shifted := seq(|tail|, k requires 0 <= k < |tail| => tail[k] + 1);
      from := InsertedFrom(xs[0], StableSort(xs[1..], key), xs, key, shifted);
    }
  }

  lemma TailAtKey<T>(xs: seq<T>, key: T -> real, t: real)
    requires xs != []
    ensures AtKey(xs[1..], key, t) == AtKey(xs, key, t)[if key(xs[0]) == t then 1 else 0..]
  {
  }

  lemma {:induction false} NoneBelow<T>(xs: seq<T>, key: T -> real, t: real)
    requires forall x <- xs :: t < key(x)
    ensures AtKey(xs, key, t) == []
  {
    if xs != [] {
      NoneBelow(xs[1..], key, t);
    }
  }

  lemma FirstAtItsKey<T>(xs: seq<T>, key: T -> real)
    requires Ordered(xs, key) && xs != []
    ensures AtKey(xs, key, key(xs[0])) != [] && AtKey(xs, key, key(xs[0]))[0] == xs[0]
    ensures forall t :: t < key(xs[0]) ==> AtKey(xs, key, t) == []
  {
    OrderedTail(xs, key);
    forall t | t < key(xs[0]) ensures AtKey(xs, key, t) == [] {
      NoneBelow(xs, key, t);
    }
  }

  lemma SameFirst<T>(xs: seq<T>, ys: seq<T>, key: T -> real)
    requires Ordered(xs, key) && Ordered(ys, key) && xs != []
    requires forall t :: AtKey(xs, key, t) == AtKey(ys, key, t)
    ensures ys != [] && xs[0] == ys[0]
  {
    FirstAtItsKey(xs, key);
    assert AtKey(ys, key, key(xs[0])) == AtKey(xs, key, key(xs[0])) != [];
    FirstAtItsKey(ys, key);
    assert AtKey(xs, key, key(ys[0])) == AtKey(ys, key, key(ys[0])) != [];
  }

  /** Order and stability leave no choice: any two such lists are the same. */
  lemma {:induction false} StableSortUnique<T>(xs: seq<T>, ys: seq<T>, key: T -> real)
    requires Ordered(xs, key) && Ordered(ys, key)
    requires forall t :: AtKey(xs, key, t) == AtKey(ys, key, t)
    ensures xs == ys
  {
    hide AtKey, Ordered;
    if xs != [] {
      SameFirst(xs, ys, key);
      OrderedTail(xs, key);
      OrderedTail(ys, key);
      forall t ensures AtKey(xs[1..], key, t) == AtKey(ys[1..], key, t) {
        TailAtKey(xs, key, t);
        TailAtKey(ys, key, t);
      }
      StableSortUnique(xs[1..], ys[1..], key);
      assert xs == [xs[0]] + xs[1..] && ys == [ys[0]] + ys[1..];
    } else if ys != [] {
      SameFirst(ys, xs, key);
    }
  }
}
