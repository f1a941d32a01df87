/**
 Concurrent calls of the graph worker: the retrying worker, the ordered concurrent map, and the
 stage that runs its documents in batches. Which call finishes first is never fixed.
 */
module Batching {
  import opened Options

  /** How one call ended. */
  datatype Call<V, E> = Returned(value: V) | Raised(error: E)

  // ---- retry with backoff -------------------------------------------------------------------

  function Pow2(n: nat): nat {
    if n == 0 then 1 else 2 * Pow2(n - 1)
  }

  /** Retries after the first call; a negative setting means none. */
  function Allowed(retries: int): nat {
    if retries < 0 then 0 else retries
  }

  /** The last of the first `n + 1` attempts that is made: the first to return, or number `n`. */
  function LastAttempt<V, E>(attempts: nat -> Call<V, E>, n: nat): (k: nat)
    ensures k <= n && (k < n ==> attempts(k).Returned?)
    ensures forall j :: 0 <= j < k ==> attempts(j).Raised?
  {
    if n == 0 then 0
    else
      var k := LastAttempt(attempts, n - 1);
      if attempts(k).Returned? then k else n
  }

  lemma {:induction false} SettledBy<V, E>(attempts: nat -> Call<V, E>, k: nat, n: nat)
    requires k <= n && (forall j :: 0 <= j < k ==> attempts(j).Raised?)
    requires attempts(k).Returned? || k == n
    ensures LastAttempt(attempts, n) == k
  {
    if k < n {
      SettledBy(attempts, k, n - 1);
    } else if n > 0 {
      assert attempts(LastAttempt(attempts, n - 1)).Raised?;
    }
  }

  /**
   The worker around one chunk: `attempts(k)` is what call number `k` does. It calls until the
   first success, at most once more than the retries allowed, and doubles its sleep each time.
   */
  method Worker<V, E>(attempts: nat -> Call<V, E>, retries: int, backoff: real)
    returns (r: Call<V, E>, calls: nat, slept: real)
    requires backoff >= 0.0
    ensures calls == LastAttempt(attempts, Allowed(retries)) + 1
    ensures 1 <= calls <= (if retries < 0 then 1 else retries + 1) && r == attempts(calls - 1)
    ensures forall j :: 0 <= j < calls - 1 ==> attempts(j).Raised?
    ensures r.Raised? ==> calls == if retries < 0 then 1 else retries + 1
    ensures slept == backoff * (Pow2(calls - 1) - 1) as real
    ensures (calls == 1 ==> slept == 0.0) && (calls == 2 ==> slept == backoff) && (calls == 3 ==> slept == 3.0 * backoff)
  {
    calls, slept := 0, 0.0;
    var attempt := 0;
    while true
      invariant attempt <= Allowed(retries) && calls == attempt
      invariant forall j :: 0 <= j < attempt ==> attempts(j).Raised?
      invariant slept == backoff * (Pow2(attempt) - 1) as real
      decreases Allowed(retries) - attempt
    {
      r := attempts(attempt);
      calls := calls + 1;
      if r.Returned? {
        SettledBy(attempts, attempt, Allowed(retries));
        return;
      }
      attempt := attempt + 1;
      if attempt > Allowed(retries) {
        SettledBy(attempts, attempt - 1, Allowed(retries));
        return;
      }
      BackoffAdds(backoff, attempt);
      slept := slept + backoff * Pow2(attempt - 1) as real;
    }
  }

  lemma BackoffAdds(backoff: real, attempt: nat)
    requires attempt > 0
    ensures backoff * (Pow2(attempt - 1) - 1) as real + backoff * Pow2(attempt - 1) as real
         == backoff * (Pow2(attempt) - 1) as real
  {
    var p := Pow2(attempt - 1) as real;
    assert (Pow2(attempt) - 1) as real == (p - 1.0) + p;
  }

  // ---- the ordered map ----------------------------------------------------------------------

  /** The value a result list gets for item `i` when its worker ended in `c`: the fallback is given the item. */
  function ValueOf<V, E>(c: Call<V, E>, i: nat, onError: Option<(E, nat) -> V>): Option<V> {
    match c
    case Returned(v) => Some(v)
    case Raised(e) => if onError.Some? then Some(onError.value(e, i)) else None
  }

  function Indexes(n: nat): (r: set<nat>)
    ensures forall i: nat :: i in r <==> i < n
  {
    if n == 0 then {} else Indexes(n - 1) + {n - 1}
  }

  /** Workers finish in any order; `calls[i]` is what the worker of item `i` did. */
  method Pool<V, E>(calls: seq<Call<V, E>>) returns (futures: map<nat, Call<V, E>>)
    ensures forall i: nat :: i in futures <==> i < |calls|
    ensures forall i :: 0 <= i < |calls| ==> futures[i] == calls[i]
  {
    futures := map[];
    var running := Indexes(|calls|);
    while running != {}
      invariant forall i <- running :: i < |calls|
      invariant forall i: nat :: i in futures <==> i < |calls| && i !in running
      invariant forall i <- futures :: futures[i] == calls[i]
      decreases running
    {
      var idx :| idx in running;
      futures := futures[idx := calls[idx]];
      running := running - {idx};
    }
  }

  /**
   Output `i` belongs to input `i`, whatever order the workers finish in; without a fallback the
   first failing item, in input order, is what the caller sees.
   */
  method RunConcurrentMap<V, E>(calls: seq<Call<V, E>>, onError: Option<(E, nat) -> V>)
    returns (values: seq<V>, failed: Option<nat>)
    ensures failed.None? ==> |values| == |calls|
    ensures failed.None? ==> forall i :: 0 <= i < |calls| ==> ValueOf(calls[i], i, onError) == Some(values[i])
    ensures failed.None? ==> forall i :: 0 <= i < |calls| ==>
      && (calls[i].Returned? ==> values[i] == calls[i].value)
      && (calls[i].Raised? ==> onError.Some? && values[i] == onError.value(calls[i].error, i))
    ensures failed.Some? ==> failed.value < |calls| && onError.None? && calls[failed.value].Raised?
    ensures failed.Some? ==> forall i :: 0 <= i < failed.value ==> calls[i].Returned?
  {
    var futures := Pool(calls);
    values := [];
    for idx := 0 to |calls|
      invariant |values| == idx
      invariant forall i :: 0 <= i < idx ==> ValueOf(calls[i], i, onError) == Some(values[i])
      invariant onError.None? ==> forall i :: 0 <= i < idx ==> calls[i].Returned?
    {
      match futures[idx] {
        case Returned(v) => values := values + [v];
        case Raised(e) =>
          if onError.None? {
            return values, Some(idx);
          }
          values := values + [onError.value(e, idx)];
      }
    }
    return values, None;
  }

  /** Every chunk through its own retrying worker: the outputs line up with the chunks. */
  method RunLlmConcurrent<V, E>(attempts: seq<nat -> Call<V, E>>, retries: int, backoff: real,
                                  onError: Option<(E, nat) -> V>)
    returns (values: seq<V>, failed: Option<nat>)
    requires backoff >= 0.0
    ensures failed.None? ==> |values| == |attempts|
    ensures failed.None? ==> forall i :: 0 <= i < |attempts| ==>
      ValueOf(attempts[i](LastAttempt(attempts[i], Allowed(retries))), i, onError) == Some(values[i])
    ensures failed.None? ==> var last := if retries < 0 then 0 else retries;
      forall i :: 0 <= i < |attempts| ==>
        && (forall k: nat :: k <= last && attempts[i](k).Returned? && (forall j :: 0 <= j < k ==> attempts[i](j).Raised?) ==>
              values[i] == attempts[i](k).value)
        && ((forall j :: 0 <= j <= last ==> attempts[i](j).Raised?) ==>
              onError.Some? && values[i] == onError.value(attempts[i](last).error, i))
    ensures failed.Some? ==> failed.value < |attempts| && onError.None?
    ensures failed.Some? ==> forall k :: 0 <= k <= Allowed(retries) ==> attempts[failed.value](k).Raised?
  {
    var calls: seq<Call<V, E>> := [];
    for i := 0 to |attempts|
      invariant |calls| == i
      invariant forall k :: 0 <= k < i ==> calls[k] == attempts[k](LastAttempt(attempts[k], Allowed(retries)))
    {
      var r, _, _ := Worker(attempts[i], retries, backoff);
      calls := calls + [r];
    }
    values, failed := RunConcurrentMap(calls, onError);
    if failed.None? {
      forall i, k: nat | 0 <= i < |attempts| && k <= Allowed(retries) && (forall j :: 0 <= j < k ==> attempts[i](j).Raised?)
                         && (attempts[i](k).Returned? || k == Allowed(retries))
        ensures calls[i] == attempts[i](k)
      {
        SettledBy(attempts[i], k, Allowed(retries));
      }
    }
  }

  // ---- batches ---------------------------------------------------------------------------------

  const DEFAULT_CONCURRENCY: int := 300
  const MAX_BATCH: int := 1000

  function BatchSize(concurrency: int): int {
    var c := if concurrency == 0 then DEFAULT_CONCURRENCY else concurrency;
    if c * 2 < MAX_BATCH then c * 2 else MAX_BATCH
  }

  /** Each document with its own result; a document that failed has none. */
  function Paired<D, R>(results: seq<Option<R>>, docs: seq<D>): seq<(Option<R>, D)>
    requires |results| == |docs|
  {
    seq(|docs|, i requires 0 <= i < |docs| => (results[i], docs[i]))
  }

  /** One batch: results are gathered as they complete and put back in document order. */
  method RunBatch<R>(outcomes: seq<Option<R>>) returns (results: seq<Option<R>>)
    ensures results == outcomes
  {
    var gathered: map<nat, Option<R>> := map[];
    var pending := Indexes(|outcomes|);
    while pending != {}
      invariant forall i <- pending :: i < |outcomes|
      invariant forall i: nat :: i in gathered <==> i < |outcomes| && i !in pending
      invariant forall i <- gathered :: gathered[i] == outcomes[i]
      decreases pending
    {
      var idx :| idx in pending;
      gathered := gathered[idx := outcomes[idx]];
      pending := pending - {idx};
    }
    results := seq(|outcomes|, i requires 0 <= i < |outcomes| => gathered[i]);
  }

  /** Batches stored before the first one whose storing fails, out of `n`. */
  function StoredBatches(storeFails: nat -> bool, n: nat): (k: nat)
    ensures k <= n && (k < n ==> storeFails(k)) && forall j :: 0 <= j < k ==> !storeFails(j)
  {
    if n == 0 then 0
    else
      var k := StoredBatches(storeFails, n - 1);
      if k < n - 1 || storeFails(k) then k else n
  }

  lemma {:induction false} StoredUpTo(storeFails: nat -> bool, k: nat, n: nat)
    requires k <= n && (forall j :: 0 <= j < k ==> !storeFails(j)) && (k < n ==> storeFails(k))
    ensures StoredBatches(storeFails, n) == k
  {
    if k < n {
      if k < n - 1 {
        StoredUpTo(storeFails, k, n - 1);
      } else {
        StoredUpTo(storeFails, n - 1, n - 1);
      }
    } else if n > 0 {
      StoredUpTo(storeFails, n - 1, n - 1);
    }
  }

  /** How many batches `total` documents make. */
  function Batches(total: nat, size: int): nat
    requires size > 0
  {
    (total + size - 1) / size
  }

  lemma CeilUnique(total: nat, size: int, k: nat)
    requires size > 0 && k > 0 && (k - 1) * size < total <= k * size
    ensures Batches(total, size) == k
  {
    var q := Batches(total, size);
    assert q * size <= total + size - 1 < q * size + size;
    assert (k - 1) * size == k * size - size;
    Between(q, k, size);
    Between(k, q, size);
  }

  lemma Between(a: int, b: int, d: int)
    requires d > 0 && a * d < b * d + d
    ensures a <= b
  {
    assert (a - b - 1) * d == a * d - b * d - d < 0;
  }

  lemma NoMoreThan(total: nat, size: int, k: nat)
    requires size > 0 && k * size < total
    ensures k < Batches(total, size)
  {
    var q := Batches(total, size);
    assert total + size - 1 < q * size + size;
    assert (k + 1) * size == k * size + size;
    Between(k + 1, q, size);
  }

  /** There is a batch number `k`: its first document exists. */
  predicate IsBatch(k: nat, size: int, total: nat) {
    k * size < total
  }

  /** Batch `k` was the first that could not be stored, after `stored` documents. */
  ghost predicate StoppedAt(k: nat, size: int, stored: nat, storeFails: nat -> bool) {
    storeFails(k) && (forall j: nat :: j < k ==> !storeFails(j)) && stored == k * size
  }

  lemma BatchesAre(total: nat, size: int)
    requires size > 0 && total > 0
    ensures forall k: nat :: IsBatch(k, size, total) <==> k < Batches(total, size)
  {
    forall k: nat ensures IsBatch(k, size, total) <==> k < Batches(total, size) {
      if k * size < total {
        NoMoreThan(total, size, k);
      }
      if k < Batches(total, size) {
        FewerStored(total, size, k);
      }
    }
  }

  method RunBatches<D, R>(docs: seq<D>, outcomes: seq<Option<R>>, size: int, storeFails: nat -> bool)
    returns (code: int, stored: seq<(Option<R>, D)>, k: nat)
    requires |outcomes| == |docs| > 0 && size > 0
    ensures k == StoredBatches(storeFails, Batches(|docs|, size))
    ensures code == if k == Batches(|docs|, size) then 0 else 1
    ensures code == 1 <==> exists j: nat :: IsBatch(j, size, |docs|) && storeFails(j)
    ensures code == 1 ==> StoppedAt(k, size, |stored|, storeFails) && |stored| < |docs|
    ensures |stored| == (if code == 0 then |docs| else k * size) <= |docs|
    ensures forall i :: 0 <= i < |stored| ==> stored[i] == (outcomes[i], docs[i])
    ensures k < Batches(|docs|, size) ==> 0 <= k * size <= |docs| && stored == Paired(outcomes, docs)[..k * size]
    ensures k == Batches(|docs|, size) ==> stored == Paired(outcomes, docs)
  {
    hide IsBatch;
    BatchesAre(|docs|, size);
    stored, k := [], 0;
    var start := 0;
    ghost var n := Batches(|docs|, size);
    while start < |docs|
      invariant start == k * size
      invariant stored == Paired(outcomes, docs)[..if start < |docs| then start else |docs|]
      invariant k > 0 ==> (k - 1) * size < |docs|
      invariant forall j :: 0 <= j < k ==> !storeFails(j)
      decreases |docs| - start
    {
      var end := if start + size < |docs| then start + size else |docs|;
      var results := RunBatch(outcomes[start..end]);
      NoMoreThan(|docs|, size, k);
      if storeFails(k) {
        StoredUpTo(storeFails, k, n);
        return 1, stored, k;
      }
      stored := stored + Paired(results, docs[start..end]);
      assert (k + 1) * size == k * size + size;
      start, k := start + size, k + 1;
    }
    CeilUnique(|docs|, size, k);
    StoredUpTo(storeFails, k, n);
    return 0, stored, k;
  }

  /**
   Consecutive batches cover the documents once each, in order, with their own results. A stage
   whose concurrency is negative has nothing in its batch range: it stores nothing and reports success.
   */
  method RunConcurrentWithTpm<D, R>(docs: seq<D>, outcomes: seq<Option<R>>, concurrency: int, storeFails: nat -> bool)
    returns (code: int, stored: seq<(Option<R>, D)>)
    requires |outcomes| == |docs|
    ensures concurrency < 0 ==> code == 0 && stored == []
    ensures |stored| <= |docs| && forall i :: 0 <= i < |stored| ==> stored[i] == (outcomes[i], docs[i])
    ensures concurrency >= 0 ==> var c := if concurrency == 0 then 300 else concurrency;
      var size := if c >= 500 then 1000 else 2 * c;
      && (code == 0 <==> forall j: nat :: IsBatch(j, size, |docs|) ==> !storeFails(j))
      && (code == 0 <==> |stored| == |docs|)
      && (code != 0 ==> code == 1 && exists k: nat :: StoppedAt(k, size, |stored|, storeFails))
    ensures (forall j :: !storeFails(j)) ==>
      code == 0 && (|stored| == |docs| <==> docs == [] || concurrency >= 0)
  {
    if |docs| == 0 {
      return 0, [];
    }
    var size := BatchSize(concurrency);
    if size <= 0 {
      return 0, [];
    }
    var k;
    code, stored, k := RunBatches(docs, outcomes, size, storeFails);
    BatchSizeIs(concurrency);
    hide IsBatch, StoppedAt, Batches, StoredBatches, BatchSize;
  }

  lemma BatchSizeIs(concurrency: int)
    ensures var c := if concurrency == 0 then 300 else concurrency;
      BatchSize(concurrency) == if c >= 500 then 1000 else 2 * c
  {
  }

  lemma FewerStored(total: nat, size: int, k: nat)
    requires size > 0 && k < Batches(total, size) && total > 0
    ensures k * size < total
  {
    var q := Batches(total, size);
    assert q * size <= total + size - 1;
    assert (q - 1 - k) * size >= 0;
    assert (q - 1 - k) * size == q * size - size - k * size;
  }
}
