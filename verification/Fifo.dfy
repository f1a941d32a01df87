/** Histories kept up to a fixed number of entries, evicting the oldest first. */
module Fifo {

  function LastN<T>(s: seq<T>, n: nat): seq<T> {
    if |s| <= n then s else s[|s| - n..]
  }

  predicate Distinct<T(==)>(s: seq<T>) {
    forall i, j :: 0 <= i < j < |s| ==> s[i] != s[j]
  }

  function Ids(ids: seq<string>): set<string> {
    set id | id in ids
  }

  /** Keeping the last `n` after each append is keeping the last `n` of the whole history. */
  lemma LastNAppend<T>(s: seq<T>, x: T, n: nat)
    ensures LastN(LastN(s, n) + [x], n) == LastN(s + [x], n)
  {
    if |s| > n && n > 0 {
      assert LastN(LastN(s, n) + [x], n) == s[|s| - n + 1..] + [x];
    }
  }

  lemma LastNInside<T>(s: seq<T>, n: nat, x: T)
    requires x in LastN(s, n)
    ensures x in s
  {
  }

  /** Evicting the oldest beyond `n` leaves exactly the last `n`. */
  lemma EvictSplits(all: seq<string>, n: nat)
    requires Distinct(all)
    ensures var kept := LastN(all, n);
      forall x :: x in kept <==> x in all && x !in Ids(all[..|all| - |kept|])
  {
    var kept := LastN(all, n);
    var cut := |all| - |kept|;
    assert all == all[..cut] + kept;
    forall i, j | 0 <= i < cut && 0 <= j < |kept| ensures all[i] != kept[j] {
      assert kept[j] == all[cut + j];
    }
  }

  lemma LastNDistinct<T>(s: seq<T>, n: nat, x: T)
    requires Distinct(s) && x !in s
    ensures Distinct(LastN(s, n) + [x])
  {
  }
}
