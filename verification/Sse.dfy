/**
 The per-action output broker: a replay ring, bounded per-client buffers that drop rather than
 block, and the stream one SSE client writes out.
 */
module Sse {

  const RING_MAX: nat := 2000
  const SUB_BUFFER: nat := 256

  const FAILED_END: string := "{\"state\":\"failed\",\"exit_code\":-1}"

  /** The body of the end event; an empty payload is reported as a failure. */
  function EndBody(data: string): string {
    if data == "" then FAILED_END else data
  }

  /** What travels to a client: an output line, or the marker for `n` dropped lines. */
  datatype Item = Line(text: string) | Dropped(n: nat)

  function Lines(ring: seq<string>): seq<Item> {
    seq(|ring|, i requires 0 <= i < |ring| => Line(ring[i]))
  }

  // ---- gapped copies ------------------------------------------------------------------

  /** `items` are `lines` with some runs of consecutive lines replaced by their count. */
  ghost predicate Expands(items: seq<Item>, lines: seq<string>) {
    if items == [] then lines == []
    else
      var k, n := |items| - 1, |lines|;
      match items[k]
      case Line(text) => n > 0 && lines[n - 1] == text && Expands(items[..k], lines[..n - 1])
      case Dropped(d) => 1 <= d <= n && Expands(items[..k], lines[..n - d])
  }

  /** How many lines the first `k` items stand for. */
  function Span(items: seq<Item>): nat {
    if items == [] then 0
    else
      var last := items[|items| - 1];
      Span(items[..|items| - 1]) + Width(last)
  }

  /** Read forwards: every line item is the line at its own position, and nothing is left over. */
  ghost predicate ExactCopy(items: seq<Item>, lines: seq<string>) {
    && Span(items) == |lines|
    && (forall k :: 0 <= k < |items| && items[k].Dropped? ==> items[k].n >= 1)
    && (forall k :: 0 <= k < |items| && items[k].Line? ==>
          Span(items[..k]) < |lines| && lines[Span(items[..k])] == items[k].text)
  }

  function Width(item: Item): nat {
    if item.Line? then 1 else item.n
  }

  /** The last item stands for the last lines, the items before it for the lines before those. */
  ghost predicate EndsWith(items: seq<Item>, lines: seq<string>)
    requires items != []
  {
    var last := items[|items| - 1];
    && 1 <= Width(last) <= |lines|
    && (last.Line? ==> lines[|lines| - 1] == last.text)
  }

  lemma ExactCopyShrinks(items: seq<Item>, lines: seq<string>)
    requires items != [] && ExactCopy(items, lines)
    ensures EndsWith(items, lines)
    ensures ExactCopy(items[..|items| - 1], lines[..|lines| - Width(items[|items| - 1])])
  {
    var k := |items| - 1;
    var init, front := items[..k], lines[..|lines| - Width(items[k])];
    forall j | 0 <= j < k && init[j].Line? ensures Span(init[..j]) < |front| && front[Span(init[..j])] == init[j].text {
      assert init[..j] == items[..j];
      SpanMonotone(items, j, k);
    }
  }

  lemma ExactCopyGrows(items: seq<Item>, lines: seq<string>)
    requires items != [] && EndsWith(items, lines)
    requires ExactCopy(items[..|items| - 1], lines[..|lines| - Width(items[|items| - 1])])
    ensures ExactCopy(items, lines)
  {
    var k := |items| - 1;
    var init, front := items[..k], lines[..|lines| - Width(items[k])];
    forall j | 0 <= j <= k && items[j].Line? ensures Span(items[..j]) < |lines| && lines[Span(items[..j])] == items[j].text {
      if j < k {
        assert init[..j] == items[..j] && front[Span(init[..j])] == init[j].text;
      }
    }
  }

  lemma {:induction false} ExpandsIsExactCopy(items: seq<Item>, lines: seq<string>)
    ensures Expands(items, lines) <==> ExactCopy(items, lines)
  {
    if items != [] {
      hide ExactCopy;
      if ExactCopy(items, lines) {
        ExactCopyShrinks(items, lines);
      }
      if EndsWith(items, lines) {
        var front := lines[..|lines| - Width(items[|items| - 1])];
        ExpandsIsExactCopy(items[..|items| - 1], front);
        if ExactCopy(items[..|items| - 1], front) {
          ExactCopyGrows(items, lines);
        }
      }
    }
  }

  lemma {:induction false} SpanMonotone(items: seq<Item>, j: nat, k: nat)
    requires j < k <= |items| && items[j].Line?
    ensures Span(items[..j]) < Span(items[..k])
  {
    assert items[..k][..k - 1] == items[..k - 1];
    if j < k - 1 {
      SpanMonotone(items, j, k - 1);
    }
  }

  lemma ExpandsLine(items: seq<Item>, lines: seq<string>, text: string)
    requires Expands(items, lines)
    ensures Expands(items + [Line(text)], lines + [text])
  {
    assert (items + [Line(text)])[..|items|] == items;
    assert (lines + [text])[..|lines|] == lines;
  }

  lemma ExpandsDrop(items: seq<Item>, lines: seq<string>, text: string)
    requires Expands(items, lines)
    ensures Expands(items + [Dropped(1)], lines + [text])
  {
    assert (items + [Dropped(1)])[..|items|] == items;
    assert (lines + [text])[..|lines|] == lines;
  }

  lemma ExpandsLongerDrop(items: seq<Item>, lines: seq<string>, d: nat, text: string)
    requires d > 0 && Expands(items + [Dropped(d)], lines)
    ensures Expands(items + [Dropped(d + 1)], lines + [text])
  {
    assert (items + [Dropped(d)])[..|items|] == items;
    assert (items + [Dropped(d + 1)])[..|items|] == items;
    assert (lines + [text])[..|lines| - d] == lines[..|lines| - d];
  }

  lemma {:induction false} LinesExpand(ring: seq<string>)
    ensures Expands(Lines(ring), ring)
  {
    if ring != [] {
      var init := ring[..|ring| - 1];
      LinesExpand(init);
      assert Lines(ring)[..|ring| - 1] == Lines(init);
    }
  }

  // ---- one client --------------------------------------------------------------------------

  function Unflushed(dropped: nat): seq<Item> {
    if dropped > 0 then [Dropped(dropped)] else []
  }

  /** What an offered line leads to: items the client received meanwhile, the buffer, the drop counter. */
  datatype Offer = Offer(taken: seq<Item>, queue: seq<Item>, dropped: nat)

  /**
   A line is offered. The marker and the line are sent separately, and the client, which takes no
   lock, may receive any number of items in between.
   */
  function Offered(queue: seq<Item>, dropped: nat, line: string, received: nat): Offer {
    if dropped > 0 && |queue| >= SUB_BUFFER then Offer([], queue, dropped + 1)
    else
      var flushed := queue + Unflushed(dropped);
      var k := if received <= |flushed| then received else |flushed|;
      var rest := flushed[k..];
      if |rest| < SUB_BUFFER then Offer(flushed[..k], rest + [Line(line)], 0) else Offer(flushed[..k], rest, 1)
  }

  /** Offering a line extends the copy by exactly that line, kept or counted. */
  lemma OfferedExtends(before: seq<Item>, queue: seq<Item>, dropped: nat, lines: seq<string>, line: string, received: nat)
    requires Expands(before + queue + Unflushed(dropped), lines)
    ensures var o := Offered(queue, dropped, line, received);
      Expands(before + o.taken + o.queue + Unflushed(o.dropped), lines + [line])
    ensures |queue| <= SUB_BUFFER ==> |Offered(queue, dropped, line, received).queue| <= SUB_BUFFER
  {
    hide Expands;
    var o := Offered(queue, dropped, line, received);
    if dropped > 0 && |queue| >= SUB_BUFFER {
      assert before + [] == before;
      ExpandsLongerDrop(before + queue, lines, dropped, line);
    } else {
      var flushed := queue + Unflushed(dropped);
      assert before + flushed == before + queue + Unflushed(dropped);
      ExpandsLine(before + flushed, lines, line);
      ExpandsDrop(before + flushed, lines, line);
      assert o.queue + Unflushed(o.dropped) == flushed[|o.taken|..] + [if o.dropped == 0 then Line(line) else Dropped(1)];
      TakenApart(before, flushed, |o.taken|, o.queue, Unflushed(o.dropped), if o.dropped == 0 then Line(line) else Dropped(1));
    }
  }

  lemma TakenApart(before: seq<Item>, flushed: seq<Item>, k: nat, queue: seq<Item>, owed: seq<Item>, last: Item)
    requires k <= |flushed| && queue + owed == flushed[k..] + [last]
    ensures before + flushed[..k] + queue + owed == before + flushed + [last]
  {
    assert before + flushed[..k] + queue + owed == before + (flushed[..k] + (queue + owed));
    assert flushed[..k] + (flushed[k..] + [last]) == flushed + [last];
  }

  /** The copy has no gaps. */
  predicate NoGap(items: seq<Item>) {
    forall i <- items :: i.Line?
  }

  lemma NoGapParts(a: seq<Item>, b: seq<Item>)
    ensures NoGap(a + b) <==> NoGap(a) && NoGap(b)
  {
    assert forall i <- a :: i in a + b;
    assert forall i <- b :: i in a + b;
  }

  lemma {:induction false} NoGapIsWhole(items: seq<Item>, lines: seq<string>)
    requires Expands(items, lines) && NoGap(items)
    ensures items == Lines(lines)
  {
    if items != [] {
      var k := |items| - 1;
      assert items[k] in items;
      NoGapIsWhole(items[..k], lines[..|lines| - 1]);
      assert items == items[..k] + [items[k]];
    }
  }

  class Subscriber {
    var queue: seq<Item>         // the buffered channel
    var closed: bool
    var dropped: nat
    var pendingDrop: nat
    ghost var written: seq<Item> // replay and everything the client has taken so far
    ghost const start: nat       // index of the first replayed line among all published
    ghost var upTo: nat          // lines published while it was subscribed end here
    ghost var over: bool         // the client has written the end event
    ghost var keptUp: bool       // no line was published while its buffer was full

    constructor (ghost replay: seq<Item>, ghost start: nat, ghost published: seq<string>)
      requires start <= |published| && Expands(replay, published[start..]) && NoGap(replay)
      ensures queue == [] && !closed && !over && dropped == 0
      ensures written == replay && this.start == start && upTo == |published| && Follows(published)
      ensures keptUp
    {
      queue, closed, dropped, pendingDrop := [], false, 0, 0;
      written, this.start, upTo, over, keptUp := replay, start, |published|, false, true;
      new;
      assert View() == replay && published[start..] == published[start..upTo];
    }

    /** Replay, received, queued, and the drop not flushed yet. */
    ghost function View(): seq<Item>
      reads this
    {
      if over then written else written + queue + Unflushed(dropped)
    }

    ghost predicate Follows(published: seq<string>)
      reads this
    {
      && start <= upTo <= |published| && |queue| <= SUB_BUFFER
      && Expands(View(), published[start..upTo])
      && (over ==> closed && queue == [])
      && (closed ==> pendingDrop == dropped)
      && (keptUp ==> dropped == 0 && NoGap(written) && NoGap(queue))
    }

    /** A channel send; a closed or full channel never gets one. */
    method Send(item: Item)
      requires !closed && |queue| < SUB_BUFFER
      modifies this`queue
      ensures queue == old(queue) + [item]
    {
      queue := queue + [item];
    }

    /** The client takes up to `n` queued items. */
    method Receive(n: nat)
      modifies this`queue, this`written
      ensures var k := if n <= |old(queue)| then n else |old(queue)|;
        queue == old(queue)[k..] && written == old(written) + old(queue)[..k]
    {
      var k := if n <= |queue| then n else |queue|;
      written := written + queue[..k];
      queue := queue[k..];
    }

    /**
     Whether the sends of one offer were made exactly when there was room for them: the marker for
     earlier drops when the buffer was not full, the line when it was not full then, after what the
     client received in between. Otherwise the line is counted, and nothing else is.
     */
    twostate predicate SentWhatFits(line: string)
      reads this
    {
      var flushes := old(dropped) > 0 && |old(queue)| < SUB_BUFFER;
      var marker := if flushes then [Dropped(old(dropped))] else [];
      var taken := |written| - |old(written)|;
      && old(written) <= written
      && written + queue == old(written) + old(queue) + marker + (if dropped == 0 then [Line(line)] else [])
      && (dropped == 0 <==> (old(dropped) == 0 || flushes) && |old(queue)| + |marker| - taken < SUB_BUFFER)
      && (dropped > 0 ==> |queue| == SUB_BUFFER && dropped == if flushes then 1 else old(dropped) + 1)
      && (dropped == 0 ==> queue != [] && queue[|queue| - 1] == Line(line))
    }

    /** Non-blocking delivery with drop accounting; the client may receive between the two sends. */
    method TrySend(line: string, received: nat)
      requires !closed && |queue| <= SUB_BUFFER
      modifies this`queue, this`dropped, this`written
      ensures SentWhatFits(line) && |written| <= |old(written)| + received
      ensures var o := Offered(old(queue), old(dropped), line, received);
        written == old(written) + o.taken && queue == o.queue && dropped == o.dropped
    {
      assert written + [] == written;
      if dropped > 0 {
        if |queue| < SUB_BUFFER {
          Send(Dropped(dropped));
          dropped := 0;
        } else {
          dropped := dropped + 1;
          return;
        }
      } else {
        assert queue + [] == queue;
      }
      Receive(received);
      if |queue| < SUB_BUFFER {
        Send(Line(line));
      } else {
        dropped := dropped + 1;
      }
    }

    /** The line was offered, the client receiving `received` items meanwhile. */
    twostate predicate Took(line: string, received: nat)
      reads this
    {
      !closed && !over &&
      var o := Offered(old(queue), old(dropped), line, received);
      written == old(written) + o.taken && queue == o.queue && dropped == o.dropped
    }

    /** A subscriber that has followed everything published also follows the next line. */
    method Deliver(line: string, received: nat, ghost published: seq<string>)
      requires Follows(published) && !closed && upTo == |published|
      modifies this
      ensures Follows(published + [line]) && upTo == |published| + 1 && Took(line, received)
      ensures SentWhatFits(line) && (keptUp <==> old(keptUp) && |old(queue)| < SUB_BUFFER)
    {
      hide Expands, Offered;
      OfferedExtends(written, queue, dropped, published[start..upTo], line, received);
      keptUp := keptUp && |queue| < SUB_BUFFER;
      TrySend(line, received);
      if keptUp {
        NoGapParts(old(written), old(queue));
        NoGapParts(old(written) + old(queue) + [], [Line(line)]);
        assert old(written) + old(queue) + [] == old(written) + old(queue);
        NoGapParts(written, queue);
      }
      upTo := upTo + 1;
      assert (published + [line])[start..upTo] == published[start..upTo - 1] + [line];
    }

    /** Lines that come after a subscriber left change nothing for it. */
    lemma StillFollows(published: seq<string>, line: string)
      requires Follows(published)
      ensures Follows(published + [line])
    {
      hide Expands;
      assert (published + [line])[start..upTo] == published[start..upTo];
    }

    twostate predicate Shut()
      reads this
    {
      closed && View() == old(View()) && upTo == old(upTo)
    }

    method CloseChannel(ghost published: seq<string>)
      requires Follows(published) && !closed
      modifies this
      ensures Follows(published) && Shut()
    {
      hide Expands;
      pendingDrop := dropped;
      closed := true;
    }
  }

  datatype Event = Wrote(item: Item) | Ended(data: string) | Blocked

  datatype Subscription = Live(replay: seq<string>, sub: Subscriber) | Finished(replay: seq<string>, endData: string)

  class Broker {
    var ring: seq<string>
    const maxRing: nat
    var subs: set<Subscriber>
    var done: bool
    var endData: string
    ghost var published: seq<string>
    ghost var clients: set<Subscriber>

    ghost predicate RingValid()
      reads this`ring, this`published
    {
      && |ring| == (if |published| < maxRing then |published| else maxRing)
      && ring == published[|published| - |ring|..]
    }

    /** Every client, gone or connected, holds an exact gapped copy; connected ones are current. */
    ghost predicate Valid()
      reads this, clients
    {
      && RingValid() && subs <= clients && (done ==> subs == {})
      && (forall s <- clients :: s.Follows(published))
      && (forall s <- subs :: !s.closed && s.upTo == |published|)
      && (forall s <- clients :: s.closed ==> done && s.upTo == |published|)
    }

    constructor (maxRing: nat)
      ensures Valid() && published == [] && clients == {} && !done && this.maxRing == maxRing
    {
      this.maxRing := maxRing;
      ring, subs, done, endData := [], {}, false, "";
      published, clients := [], {};
    }

    method Append(line: string)
      requires RingValid()
      modifies this`ring, this`published
      ensures RingValid() && published == old(published) + [line]
    {
      ring := ring + [line];
      if |ring| > maxRing {
        ring := ring[|ring| - maxRing..];
      }
      published := published + [line];
    }

    method Publish(line: string) returns (ghost received: map<Subscriber, nat>)
      requires Valid()
      modifies this`ring, this`published, subs
      ensures Valid()
      ensures published == if done then old(published) else old(published) + [line]
      ensures !done ==> forall s <- subs :: s in received && s.Took(line, received[s])
      ensures !done ==> forall s <- subs ::
        s.SentWhatFits(line) && (s.keptUp <==> old(s.keptUp) && |old(s.queue)| < SUB_BUFFER)
    {
      hide Subscriber.Follows, Expands, Offered, RingValid;
      received := map[];
      if done {
        return;
      }
      ghost var before := published;
      Append(line);
      forall s <- clients - subs ensures s.Follows(published) && !s.closed {
        s.StillFollows(before, line);
      }
      var todo := subs;
      while todo != {}
        invariant todo <= subs && RingValid()
        invariant forall s <- clients - subs :: s.Follows(published) && !s.closed
        invariant forall s <- subs - todo :: s in received && s.Follows(published) && s.Took(line, received[s])
        invariant forall s <- subs - todo ::
          s.SentWhatFits(line) && (s.keptUp <==> old(s.keptUp) && |old(s.queue)| < SUB_BUFFER)
        invariant forall s <- subs - todo :: !s.closed && s.upTo == |published|
        invariant forall s <- todo :: unchanged(s)
        modifies subs
        decreases todo
      {
        var s :| s in todo;
        var k: nat := *;
        s.Deliver(line, k, before);
        received := received[s := k];
        todo := todo - {s};
      }
    }

    lemma ReplayIsASuffix()
      requires RingValid()
      ensures |ring| <= |published| && Expands(Lines(ring), published[|published| - |ring|..])
      ensures NoGap(Lines(ring)) && ring == published[if |published| <= maxRing then 0 else |published| - maxRing..]
    {
      LinesExpand(ring);
    }

    /** Snapshot of the ring and registration in one step; a finished action only replays. */
    method Subscribe() returns (r: Subscription)
      requires Valid()
      modifies this`subs, this`clients
      ensures Valid()
      ensures r.replay == published[if |published| <= maxRing then 0 else |published| - maxRing..]
      ensures r.Finished? <==> done
      ensures r.Finished? ==> r.endData == endData && subs == old(subs) && clients == old(clients)
      ensures r.Live? ==> fresh(r.sub) && subs == old(subs) + {r.sub} && clients == old(clients) + {r.sub}
      ensures r.Live? ==> r.sub.written == Lines(r.replay) && r.sub.queue == [] && r.sub.dropped == 0 && r.sub.keptUp
    {
      hide Subscriber.Follows, Expands, RingValid, Lines, NoGap;
      ReplayIsASuffix();
      if done {
        return Finished(ring, endData);
      }
      var s := new Subscriber(Lines(ring), |published| - |ring|, published);
      subs, clients := subs + {s}, clients + {s};
      return Live(ring, s);
    }

    method Unsubscribe(s: Subscriber)
      requires Valid()
      modifies this`subs
      ensures Valid() && subs == old(subs) - {s}
    {
      hide Subscriber.Follows, Expands, RingValid;
      subs := subs - {s};
    }

    /** Marks the action finished and closes every channel, stashing unflushed drops. */
    method Close(data: string)
      requires Valid()
      modifies this`done, this`endData, this`subs, subs
      ensures Valid() && done && subs == {}
      ensures endData == if old(done) then old(endData) else data
      ensures forall s <- old(subs) :: s.Shut()
    {
      hide Subscriber.Follows, Subscriber.View, Expands, RingValid;
      if done {
        return;
      }
      done, endData := true, data;
      var todo := subs;
      while todo != {}
        invariant todo <= subs && RingValid()
        invariant forall s <- clients - subs :: s.Follows(published) && !s.closed
        invariant forall s <- subs - todo :: s.Follows(published) && s.upTo == |published| && s.Shut()
        invariant forall s <- todo :: unchanged(s)
        modifies subs
        decreases todo
      {
        var s :| s in todo;
        s.CloseChannel(published);
        todo := todo - {s};
      }
      subs := {};
    }

    /**
     One turn of a client's loop: take a queued item; on a closed and drained channel write the
     last drop marker, if any, and the end event; otherwise wait.
     */
    method Turn(s: Subscriber) returns (ev: Event)
      requires Valid() && s in clients && !s.over
      modifies s
      ensures Valid()
      ensures ev.Wrote? <==> old(s.queue) != []
      ensures ev.Wrote? ==> old(s.queue) == [ev.item] + s.queue && s.written == old(s.written) + [ev.item]
      ensures ev.Ended? <==> old(s.queue) == [] && old(s.closed)
      ensures ev.Ended? ==> ev.data == (if endData == "" then FAILED_END else endData) && s.over
      ensures ev.Ended? ==> s.written == old(s.written) + if old(s.dropped) > 0 then [Dropped(old(s.dropped))] else []
      ensures ev.Blocked? ==> unchanged(s)
    {
      hide Subscriber.Follows, Subscriber.View, Expands, RingValid;
      if s.queue != [] {
        var item := Take(s, published);
        return Wrote(item);
      }
      if s.closed {
        Finish(s, published);
        return Ended(EndBody(endData));
      }
      return Blocked;
    }

    method Take(s: Subscriber, ghost published: seq<string>) returns (item: Item)
      requires s.Follows(published) && s.queue != [] && !s.over
      modifies s`queue, s`written
      ensures s.Follows(published) && s.View() == old(s.View())
      ensures old(s.queue) == [item] + s.queue && s.written == old(s.written) + [item]
    {
      hide Expands;
      item := s.queue[0];
      assert s.written + s.queue == s.written + [item] + s.queue[1..];
      s.written := s.written + [item];
      s.queue := s.queue[1..];
    }

    method Finish(s: Subscriber, ghost published: seq<string>)
      requires s.Follows(published) && s.queue == [] && s.closed && !s.over
      modifies s`written, s`over
      ensures s.Follows(published) && s.over
      ensures s.written == old(s.written) + if old(s.dropped) > 0 then [Dropped(old(s.dropped))] else []
    {
      hide Expands;
      assert s.written + [] == s.written;
      if s.pendingDrop > 0 {
        s.written := s.written + [Dropped(s.pendingDrop)];
      }
      s.over := true;
    }

    /** What a client that saw the end event has written stands for a suffix of everything published. */
    lemma EndedSawASuffix(s: Subscriber)
      requires Valid() && s in clients && s.over
      ensures s.start <= |published| && ExactCopy(s.written, published[s.start..])
    {
      hide Expands;
      assert s.Follows(published);
      assert published[s.start..s.upTo] == published[s.start..];
      ExpandsIsExactCopy(s.written, published[s.start..]);
    }

    /** A client whose buffer was never full when a line came has every line from the first replayed on. */
    lemma KeptUpSawEverything(s: Subscriber)
      requires Valid() && s in clients && s.keptUp && (s.over || s in subs)
      ensures s.start <= |published| && s.dropped == 0
      ensures s.written + s.queue == Lines(published[s.start..])
      ensures s.over ==> s.queue == []
    {
      hide Expands;
      assert s.Follows(published);
      assert published[s.start..s.upTo] == published[s.start..];
      NoGapParts(s.written, s.queue);
      assert s.View() == s.written + s.queue;
      NoGapIsWhole(s.View(), published[s.start..]);
    }

    /** So does what a connected client has written, still has queued, and is owed as a drop. */
    lemma ConnectedSeesASuffix(s: Subscriber)
      requires Valid() && s in subs
      ensures s.start <= |published|
      ensures ExactCopy(s.written + s.queue + Unflushed(s.dropped), published[s.start..])
    {
      hide Expands;
      assert s.Follows(published) && !s.over;
      assert published[s.start..s.upTo] == published[s.start..];
      ExpandsIsExactCopy(s.View(), published[s.start..]);
    }
  }
}
