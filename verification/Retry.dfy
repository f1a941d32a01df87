/**
 Retry tiers from RabbitMQ `x-death` headers.

 The consumer counts the retries already taken by summing the `count` fields of the
 `x-death` entries of its own wait queues. The broker maintains that header; its rule
 for an expired message is modelled by `OnExpiry`.
 */
module Retry {
  import opened Options
  import opened Text

  const RETRY_TIERS: seq<string> := ["5s", "30s", "2m"]
  const MAX_RETRIES: nat := |RETRY_TIERS|

  /** The `queue` field of an entry: text, bytes (already decoded), or anything else. */
  datatype QueueField = QueueText(name: string) | QueueBytes(decoded: string) | QueueOther

  /** The `count` field: what `int(...)` makes of it, or a value `int(...)` rejects. */
  datatype CountField = CountInt(n: int) | CountOther

  datatype Death = Death(queue: QueueField, reason: string, count: CountField) | NotATable

  /** `x-death` is absent or not a list, or it is a list of entries, most recent first. */
  datatype Headers = NoDeaths | Deaths(entries: seq<Death>)

  function Entries(h: Headers): seq<Death> {
    if h.Deaths? then h.entries else []
  }

  /** The tier for the next retry, or None once every tier has been taken. */
  function SelectTier(deathCount: int): Option<string> {
    var taken := if deathCount < 0 then 0 else deathCount;
    if taken >= MAX_RETRIES then None else Some(RETRY_TIERS[taken])
  }

  function QueueName(q: QueueField): Option<string> {
    match q
    case QueueText(name) => Some(name)
    case QueueBytes(decoded) => Some(decoded)
    case QueueOther => None
  }

  /** An entry that contributes to the count: a wait queue of ours with a usable number. */
  predicate Counts(d: Death, prefix: string) {
    && d.Death?
    && QueueName(d.queue).Some?
    && StartsWith(QueueName(d.queue).value, prefix)
    && d.count.CountInt?
  }

  function Counted(entries: seq<Death>, prefix: string): seq<Death> {
    if entries == [] then []
    else (if Counts(entries[0], prefix) then [entries[0]] else []) + Counted(entries[1..], prefix)
  }

  /** The number of retries taken. */
  function DeathCount(h: Headers, prefix: string): int {
    DeathSum(Entries(h), prefix)
  }

  function DeathSum(entries: seq<Death>, prefix: string): int {
    if entries == [] then 0
    else (if Counts(entries[0], prefix) then entries[0].count.n else 0) + DeathSum(entries[1..], prefix)
  }

  /** Only the contributing entries matter, whatever unrelated or malformed ones surround them. */
  lemma {:induction false} DeathSumOfCounted(entries: seq<Death>, prefix: string)
    ensures DeathSum(entries, prefix) == DeathSum(Counted(entries, prefix), prefix)
  {
    if entries != [] {
      var tail := Counted(entries[1..], prefix);
      DeathSumOfCounted(entries[1..], prefix);
      if Counts(entries[0], prefix) {
        assert Counted(entries, prefix)[1..] == tail;
      } else {
        assert Counted(entries, prefix) == tail;
      }
    }
  }

  lemma {:induction false} DeathSumAppend(a: seq<Death>, b: seq<Death>, prefix: string)
    ensures DeathSum(a + b, prefix) == DeathSum(a, prefix) + DeathSum(b, prefix)
  {
    if a == [] {
      assert a + b == b;
    } else {
      DeathSumAppend(a[1..], b, prefix);
      assert (a + b)[1..] == a[1..] + b;
    }
  }

  /**
   What one entry contributes, wherever it stands: its number, if its queue, given as text or as
   bytes, begins with the prefix; nothing, if it names another queue or none, or has no number.
   */
  lemma EntryContributes(a: seq<Death>, d: Death, b: seq<Death>, prefix: string)
    ensures DeathSum([], prefix) == 0
    ensures forall name, reason, n ::
      (d == Death(QueueText(name), reason, CountInt(n)) || d == Death(QueueBytes(name), reason, CountInt(n))) ==>
        DeathSum(a + [d] + b, prefix) == DeathSum(a + b, prefix)
          + if |prefix| <= |name| && name[..|prefix|] == prefix then n else 0
    ensures d.NotATable? || d.queue.QueueOther? || d.count.CountOther? ==>
      DeathSum(a + [d] + b, prefix) == DeathSum(a + b, prefix)
  {
    DeathSumAppend(a, [d] + b, prefix);
    DeathSumAppend(a, b, prefix);
    assert a + [d] + b == a + ([d] + b);
    assert ([d] + b)[1..] == b;
  }

  /** The loop of `death_count`, with its early exits. */
  method CountDeaths(h: Headers, prefix: string) returns (total: int)
    ensures total == DeathCount(h, prefix)
  {
    if h.NoDeaths? {
      return 0;
    }
    total := 0;
    var i := 0;
    while i < |h.entries|
      invariant 0 <= i <= |h.entries|
      invariant total + DeathSum(h.entries[i..], prefix) == DeathCount(h, prefix)
    {
      var entry := h.entries[i];
      assert h.entries[i..][1..] == h.entries[i + 1..];
      i := i + 1;
      if entry.NotATable? {
        continue;
      }
      var name := QueueName(entry.queue);
      if name.None? || !StartsWith(name.value, prefix) {
        continue;
      }
      if entry.count.CountOther? {
        continue;
      }
      total := total + entry.count.n;
    }
  }

  // ---- the broker's side of the header -------------------------------------

  predicate ExpiredFrom(d: Death, queue: string) {
    d.Death? && d.queue == QueueText(queue) && d.reason == "expired" && d.count.CountInt?
  }

  function FirstExpired(entries: seq<Death>, queue: string): (k: nat)
    ensures k <= |entries|
    ensures k < |entries| ==> ExpiredFrom(entries[k], queue)
    ensures forall j :: 0 <= j < k ==> !ExpiredFrom(entries[j], queue)
  {
    if entries == [] then 0
    else if ExpiredFrom(entries[0], queue) then 0
    else 1 + FirstExpired(entries[1..], queue)
  }

  /** A message expired in `queue`: its entry is bumped and moved to the front, or created. */
  function OnExpiry(h: Headers, queue: string): Headers {
    var es := Entries(h);
    var k := FirstExpired(es, queue);
    if k < |es| then
      Deaths([es[k].(count := CountInt(es[k].count.n + 1))] + es[..k] + es[k + 1..])
    else
      Deaths([Death(QueueText(queue), "expired", CountInt(1))] + es)
  }

  /** An expiry in any queue of ours raises the count by one, whatever the header held; elsewhere it leaves it. */
  lemma ExpiryCountsOnce(h: Headers, queue: string, prefix: string)
    ensures DeathCount(OnExpiry(h, queue), prefix) == DeathCount(h, prefix) + if StartsWith(queue, prefix) then 1 else 0
    ensures Entries(OnExpiry(h, queue)) != []
    ensures var first := Entries(OnExpiry(h, queue))[0];
      first.Death? && first.queue == QueueText(queue) && first.reason == "expired"
  {
    var es := Entries(h);
    var k := FirstExpired(es, queue);
    if k < |es| {
      var n := es[k].count.n;
      var bumped := es[k].(count := CountInt(n + 1));
      assert es == es[..k] + [es[k]] + es[k + 1..];
      hide OnExpiry, FirstExpired, DeathSum;
      DeathSumAround(es[..k], es[k], es[k + 1..], prefix);
      DeathSumAround([], bumped, es[..k] + es[k + 1..], prefix);
      DeathSumAppend(es[..k], es[k + 1..], prefix);
      DeathSumOfOne(es[k], queue, n, prefix);
      DeathSumOfOne(bumped, queue, n + 1, prefix);
      BumpedEntries(h, queue, k);
    } else {
      var added := Death(QueueText(queue), "expired", CountInt(1));
      DeathSumAround([], added, es, prefix);
      DeathSumOfOne(added, queue, 1, prefix);
      assert [] + [added] + es == [added] + es;
      hide DeathSum;
    }
  }

  lemma DeathSumAround(a: seq<Death>, d: Death, b: seq<Death>, prefix: string)
    ensures DeathSum(a + [d] + b, prefix) == DeathSum(a, prefix) + DeathSum([d], prefix) + DeathSum(b, prefix)
    ensures DeathSum([], prefix) == 0
  {
    DeathSumAppend(a + [d], b, prefix);
    DeathSumAppend(a, [d], prefix);
  }

  lemma DeathSumOfOne(d: Death, name: string, n: int, prefix: string)
    requires d.Death? && d.queue == QueueText(name) && d.count == CountInt(n)
    ensures DeathSum([d], prefix) == if StartsWith(name, prefix) then n else 0
  {
    assert [d][1..] == [];
  }

  lemma BumpedEntries(h: Headers, queue: string, k: nat)
    requires k == FirstExpired(Entries(h), queue) < |Entries(h)|
    ensures var es := Entries(h);
      Entries(OnExpiry(h, queue)) == [] + [es[k].(count := CountInt(es[k].count.n + 1))] + (es[..k] + es[k + 1..])
  {
    hide FirstExpired;
  }

  // ---- the ladder -----------------------------------------------------------

  function WaitQueue(prefix: string, tier: nat): string
    requires tier < MAX_RETRIES
  {
    prefix + RETRY_TIERS[tier]
  }

  /** The entries of a message that has gone through tiers 0..a-1 once each, latest first. */
  ghost function Ladder(prefix: string, a: nat): seq<Death>
    requires a <= MAX_RETRIES
  {
    if a == 0 then []
    else [Death(QueueText(WaitQueue(prefix, a - 1)), "expired", CountInt(1))] + Ladder(prefix, a - 1)
  }

  /** Exactly tiers 0..a-1 count for this message, once each. */
  ghost predicate OnRung(h: Headers, prefix: string, a: nat) {
    a <= MAX_RETRIES && Counted(Entries(h), prefix) == Ladder(prefix, a)
  }

  lemma WaitQueuesDiffer(prefix: string, s: nat, t: nat)
    requires s < t < MAX_RETRIES
    ensures WaitQueue(prefix, s) != WaitQueue(prefix, t)
  {
    var p, q := WaitQueue(prefix, s), WaitQueue(prefix, t);
    assert p[|p| - 2] == RETRY_TIERS[s][|RETRY_TIERS[s]| - 2];
    assert q[|q| - 2] == RETRY_TIERS[t][|RETRY_TIERS[t]| - 2];
  }

  lemma {:induction false} LadderAvoidsNextTier(prefix: string, a: nat, t: nat)
    requires a <= t < MAX_RETRIES
    ensures forall d <- Ladder(prefix, a) :: d.Death? && d.queue != QueueText(WaitQueue(prefix, t))
  {
    if a > 0 {
      LadderAvoidsNextTier(prefix, a - 1, t);
      WaitQueuesDiffer(prefix, a - 1, t);
    }
  }

  lemma {:induction false} CountedHasEach(entries: seq<Death>, prefix: string, k: nat)
    requires k < |entries| && Counts(entries[k], prefix)
    ensures entries[k] in Counted(entries, prefix)
  {
    if k > 0 {
      CountedHasEach(entries[1..], prefix, k - 1);
      assert entries[1..][k - 1] == entries[k];
    }
  }

  lemma {:induction false} LadderSum(prefix: string, a: nat)
    requires a <= MAX_RETRIES
    ensures DeathSum(Ladder(prefix, a), prefix) == a
  {
    if a > 0 {
      LadderSum(prefix, a - 1);
      assert Ladder(prefix, a)[1..] == Ladder(prefix, a - 1);
    }
  }

  /** On rung `a` the consumer's count is `a`, and the tier it selects is the next one up. */
  lemma RungIsCount(h: Headers, prefix: string, a: nat)
    requires OnRung(h, prefix, a)
    ensures DeathCount(h, prefix) == a
    ensures SelectTier(DeathCount(h, prefix)) == if a < MAX_RETRIES then Some(RETRY_TIERS[a]) else None
  {
    DeathSumOfCounted(Entries(h), prefix);
    LadderSum(prefix, a);
  }

  /** Expiry in the selected wait queue moves a message up exactly one rung. */
  lemma ExpiryClimbs(h: Headers, prefix: string, a: nat)
    requires a < MAX_RETRIES && OnRung(h, prefix, a)
    ensures OnRung(OnExpiry(h, WaitQueue(prefix, a)), prefix, a + 1)
    ensures DeathCount(OnExpiry(h, WaitQueue(prefix, a)), prefix) == DeathCount(h, prefix) + 1
  {
    var es, q := Entries(h), WaitQueue(prefix, a);
    var k := FirstExpired(es, q);
    if k < |es| {
      CountedHasEach(es, prefix, k);
      LadderAvoidsNextTier(prefix, a, a);
      assert false;
    }
    var added := Death(QueueText(q), "expired", CountInt(1));
    assert ([added] + es)[1..] == es;
    assert Counts(added, prefix);
    RungIsCount(h, prefix, a);
    RungIsCount(OnExpiry(h, q), prefix, a + 1);
  }
}
