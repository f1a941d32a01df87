/**
 The consumer's dedupe guard: attempt-scoped keys and the in-memory SETNX table.
 */
module Idempotency {
  import opened Text

  const DEFAULT_TTL_SECONDS: int := 24 * 60 * 60

  function KeyFor(queue: string, envelopeId: string): string {
    "idem:" + queue + ":" + envelopeId
  }

  function KeyForAttempt(queue: string, envelopeId: string, attempt: int): string {
    KeyFor(queue, envelopeId) + ":" + Decimal(attempt)
  }

  /** Within one queue no two (envelope, attempt) pairs share a key, for arbitrary ids. */
  lemma KeysInjective(queue: string, id: string, attempt: int, id': string, attempt': int)
    requires KeyForAttempt(queue, id, attempt) == KeyForAttempt(queue, id', attempt')
    ensures id == id' && attempt == attempt'
  {
    DecimalHasNoColon(attempt);
    DecimalHasNoColon(attempt');
    var a, b := KeyFor(queue, id), KeyFor(queue, id');
    assert KeyForAttempt(queue, id, attempt) == a + [':'] + Decimal(attempt);
    assert KeyForAttempt(queue, id', attempt') == b + [':'] + Decimal(attempt');
    LastSeparatorUnique(a, b, ':', Decimal(attempt), Decimal(attempt'));
    DecimalInjective(attempt, attempt');
    var stem := "idem:" + queue + ":";
    assert a[|stem|..] == id && b[|stem|..] == id';
  }

  lemma KeySplits(queue: string, id: string, attempt: int)
    ensures |KeyForAttempt(queue, id, attempt)| >= 5
    ensures KeyForAttempt(queue, id, attempt)[5..] == queue + [':'] + (id + ":" + Decimal(attempt))
  {
    var tail := Decimal(attempt);
    assert "idem:" + queue + ":" + id + ":" + tail == "idem:" + (queue + [':'] + (id + ":" + tail));
  }

  /** One queue's name continues the other's after a colon. */
  predicate Nested(queue: string, queue': string) {
    StartsWith(queue', queue + ":") || StartsWith(queue, queue' + ":")
  }

  lemma SharedKeyNests(queue: string, id: string, attempt: int, queue': string, id': string, attempt': int)
    requires |queue| <= |queue'| && queue != queue'
    requires KeyForAttempt(queue, id, attempt) == KeyForAttempt(queue', id', attempt')
    ensures StartsWith(queue', queue + ":")
  {
    KeySplits(queue, id, attempt);
    KeySplits(queue', id', attempt');
    var s := KeyForAttempt(queue, id, attempt)[5..];
    assert s[..|queue|] == queue && s[|queue|] == ':' && s[..|queue'|] == queue';
    assert |queue| == |queue'| ==> queue == queue';
    assert queue'[..|queue|] == queue && queue'[|queue|] == ':';
    assert queue'[..|queue| + 1] == queue + ":";
  }

  lemma NestedShareAKey(queue: string, queue': string)
    requires StartsWith(queue', queue + ":")
    ensures KeyForAttempt(queue, queue'[|queue| + 1..] + ":", 0) == KeyForAttempt(queue', "", 0)
  {
    var rest := queue'[|queue| + 1..];
    assert queue' == queue + ":" + rest;
    assert KeyFor(queue, rest + ":") == KeyFor(queue', "");
  }

  /**
   Two queues sharing one table can meet in a key if and only if one's name continues the other's
   after a colon; otherwise keys are distinct across them, whatever ids and attempts come along.
   */
  lemma KeysCollideIff(queue: string, queue': string)
    requires queue != queue'
    ensures (exists id, attempt, id', attempt' :: KeyForAttempt(queue, id, attempt) == KeyForAttempt(queue', id', attempt'))
       <==> Nested(queue, queue')
  {
    if id, attempt, id', attempt' :| KeyForAttempt(queue, id, attempt) == KeyForAttempt(queue', id', attempt') {
      if |queue| <= |queue'| {
        SharedKeyNests(queue, id, attempt, queue', id', attempt');
      } else {
        SharedKeyNests(queue', id', attempt', queue, id, attempt);
      }
    }
    if StartsWith(queue', queue + ":") {
      NestedShareAKey(queue, queue');
    } else if StartsWith(queue, queue' + ":") {
      NestedShareAKey(queue', queue);
    }
  }

  /** Queues that do not nest may share a table: a key tells queue, envelope and attempt. */
  lemma KeysInjectiveAcrossQueues(queue: string, id: string, attempt: int,
                                  queue': string, id': string, attempt': int)
    requires !Nested(queue, queue')
    requires KeyForAttempt(queue, id, attempt) == KeyForAttempt(queue', id', attempt')
    ensures queue == queue' && id == id' && attempt == attempt'
  {
    hide KeyForAttempt;
    if queue != queue' {
      KeysCollideIff(queue, queue');
      assert false;
    }
    KeysInjective(queue, id, attempt, id', attempt');
  }

  /** With a colon in a queue name the keys of two queues can meet. */
  lemma KeysCollideAcrossQueues()
    ensures Nested("a:b", "a") && KeyForAttempt("a:b", "c", 0) == KeyForAttempt("a", "b:c", 0)
  {
    assert KeyFor("a:b", "c") == "idem:a:b:c" == KeyFor("a", "b:c");
    assert "a" + ":" == "a:" == "a:b"[..2];
  }

  // ---- the table ------------------------------------------------------------

  type Table = map<string, int>

  predicate Held(seen: Table, key: string, now: int) {
    key in seen && now < seen[key]
  }

  function AfterBegin(seen: Table, key: string, ttl: int, now: int): Table {
    if Held(seen, key, now) then seen else seen[key := now + ttl]
  }

  class InMemoryGuard {
    var seen: Table

    constructor ()
      ensures seen == map[]
    {
      seen := map[];
    }

    /** True for the first sight of a key within the window; then the key is held for ttl. */
    method Begin(key: string, ttl: int, now: int) returns (first: bool)
      modifies this
      ensures first <==> !(key in old(seen) && now < old(seen)[key])
      ensures seen == if first then old(seen)[key := now + ttl] else old(seen)
      ensures first <==> !Held(old(seen), key, now)
      ensures seen == AfterBegin(old(seen), key, ttl, now)
    {
      if key in seen {
        var exp := seen[key];
        if now < exp {
          return false;
        }
      }
      seen := seen[key := now + ttl];
      return true;
    }
  }

  datatype Call = Call(key: string, at: int)

  ghost function TableAfter(seen: Table, ttl: int, calls: seq<Call>): Table {
    if calls == [] then seen
    else
      var last := calls[|calls| - 1];
      AfterBegin(TableAfter(seen, ttl, calls[..|calls| - 1]), last.key, ttl, last.at)
  }

  /** Call k of the sequence is answered "first". */
  ghost predicate Granted(seen: Table, ttl: int, calls: seq<Call>, k: nat)
    requires k < |calls|
  {
    !Held(TableAfter(seen, ttl, calls[..k]), calls[k].key, calls[k].at)
  }

  /** The window of `key` that ends at `until` was there to begin with or granted by one of the first `n` calls. */
  ghost predicate OpenedWindow(seen: Table, ttl: int, calls: seq<Call>, n: nat, key: string, until: int)
    requires n <= |calls|
  {
    || (key in seen && seen[key] == until)
    || exists i :: 0 <= i < n && calls[i].key == key && calls[i].at + ttl == until && Granted(seen, ttl, calls, i)
  }

  /** The table holds the end of the latest window of each key. */
  lemma {:induction false} TableHoldsLastWindow(seen: Table, ttl: int, calls: seq<Call>, n: nat, key: string)
    requires ttl >= 0 && n <= |calls|
    ensures var t := TableAfter(seen, ttl, calls[..n]);
      && (key in t ==> OpenedWindow(seen, ttl, calls, n, key, t[key]))
      && (key in seen ==> key in t && seen[key] <= t[key])
      && forall i :: 0 <= i < n && calls[i].key == key && Granted(seen, ttl, calls, i) ==>
           key in t && calls[i].at + ttl <= t[key]
  {
    if n > 0 {
      TableHoldsLastWindow(seen, ttl, calls, n - 1, key);
      assert calls[..n][..n - 1] == calls[..n - 1];
      var t, t' := TableAfter(seen, ttl, calls[..n - 1]), TableAfter(seen, ttl, calls[..n]);
      if Granted(seen, ttl, calls, n - 1) && calls[n - 1].key == key {
        assert OpenedWindow(seen, ttl, calls, n, key, t'[key]);
      } else if key in t {
        assert OpenedWindow(seen, ttl, calls, n - 1, key, t[key]);
        assert t'[key] == t[key];
      }
    }
  }

  /**
   A call is answered "first" if and only if it lies at or after the end of every earlier window
   of its key: whatever the calls, the guard admits a key once per window, and again as soon as
   the window is over.
   */
  lemma GrantedIff(seen: Table, ttl: int, calls: seq<Call>, j: nat)
    requires ttl >= 0 && j < |calls|
    ensures Granted(seen, ttl, calls, j) <==>
      && (calls[j].key in seen ==> calls[j].at >= seen[calls[j].key])
      && forall i :: 0 <= i < j && calls[i].key == calls[j].key && Granted(seen, ttl, calls, i) ==>
           calls[j].at >= calls[i].at + ttl
  {
    var key, t := calls[j].key, TableAfter(seen, ttl, calls[..j]);
    TableHoldsLastWindow(seen, ttl, calls, j, key);
    if key in t {
      assert OpenedWindow(seen, ttl, calls, j, key, t[key]);
    }
  }

  /** Two grants of one key are at least the TTL apart, whatever the clock does. */
  lemma GrantsAreSpaced(seen: Table, ttl: int, calls: seq<Call>, i: nat, j: nat)
    requires ttl >= 0 && i < j < |calls| && calls[i].key == calls[j].key
    requires Granted(seen, ttl, calls, i) && Granted(seen, ttl, calls, j)
    ensures calls[j].at >= calls[i].at + ttl
  {
    GrantedIff(seen, ttl, calls, j);
  }
}
