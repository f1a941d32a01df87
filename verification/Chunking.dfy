/**
 Packing consecutive pieces of text into chunks of bounded size: the greedy chunker, which is
 optimal, and the unit packer, which is optimal but for the room it wastes in its first chunk.
 */
module Chunking {
  import opened Text

  /** Length of the pieces joined with a separator of `sep` characters. */
  function Cost(pieces: seq<string>, sep: nat): nat {
    if |pieces| == 0 then 0
    else if |pieces| == 1 then |pieces[0]|
    else Cost(pieces[..|pieces| - 1], sep) + sep + |pieces[|pieces| - 1]|
  }

  lemma CostAppend(pieces: seq<string>, p: string, sep: nat)
    ensures Cost(pieces + [p], sep) == if pieces == [] then |p| else Cost(pieces, sep) + sep + |p|
  {
    assert (pieces + [p])[..|pieces|] == pieces;
  }

  lemma {:induction false} CostPrepend(p: string, pieces: seq<string>, sep: nat)
    requires pieces != []
    ensures Cost([p] + pieces, sep) == |p| + sep + Cost(pieces, sep)
  {
    var n := |pieces| - 1;
    assert [p] + pieces == ([p] + pieces[..n]) + [pieces[n]];
    CostAppend([p] + pieces[..n], pieces[n], sep);
    if n > 0 {
      CostPrepend(p, pieces[..n], sep);
    } else {
      assert [p] + pieces[..0] == [p];
    }
  }

  lemma {:induction false} CostOfPrefix(pieces: seq<string>, n: nat, sep: nat)
    requires n <= |pieces|
    ensures Cost(pieces[..n], sep) <= Cost(pieces, sep)
  {
    if n < |pieces| {
      var m := |pieces| - 1;
      CostOfPrefix(pieces[..m], n, sep);
      assert pieces[..m][..n] == pieces[..n];
      assert pieces == pieces[..m] + [pieces[m]];
      CostAppend(pieces[..m], pieces[m], sep);
    } else {
      assert pieces[..n] == pieces;
    }
  }

  /** It is the length of the text that is put out. */
  lemma {:induction false} CostIsLength(sep: string, pieces: seq<string>)
    ensures |Join(sep, pieces)| == Cost(pieces, |sep|)
  {
    if |pieces| > 1 {
      CostIsLength(sep, pieces[1..]);
      CostPrepend(pieces[0], pieces[1..], |sep|);
      assert pieces == [pieces[0]] + pieces[1..];
    }
  }

  // ---- partitions ---------------------------------------------------------------------------

  function Flatten(groups: seq<seq<string>>): seq<string> {
    if groups == [] then [] else groups[0] + Flatten(groups[1..])
  }

  predicate Fits(group: seq<string>, sep: nat, max: int) {
    group != [] && (|group| == 1 || Cost(group, sep) <= max)
  }

  /** `groups` cut `pieces` in order into parts within `max`, oversized single pieces excepted. */
  ghost predicate Packs(groups: seq<seq<string>>, pieces: seq<string>, sep: nat, max: int) {
    Flatten(groups) == pieces && forall g <- groups :: Fits(g, sep, max)
  }

  /** How many of `rest` still go after `buf`. */
  function Fill(buf: seq<string>, rest: seq<string>, sep: nat, max: int): (n: nat)
    ensures n <= |rest|
    decreases |rest|
  {
    if rest != [] && Cost(buf, sep) + sep + |rest[0]| <= max then 1 + Fill(buf + [rest[0]], rest[1..], sep, max)
    else 0
  }

  /** The chunks of what is buffered and what is to come; later buffers are filled up to `max`. */
  function Stream(buf: seq<string>, rest: seq<string>, sep: nat, bound: int, max: int): seq<seq<string>>
    decreases |rest|
  {
    if rest == [] then (if buf == [] then [] else [buf])
    else if buf != [] && Cost(buf, sep) + sep + |rest[0]| > bound then
      [buf] + Stream([rest[0]], rest[1..], sep, max, max)
    else Stream(buf + [rest[0]], rest[1..], sep, bound, max)
  }

  function Greedy(pieces: seq<string>, sep: nat, max: int): seq<seq<string>> {
    Stream([], pieces, sep, max, max)
  }

  /** Length of the first chunk. */
  function First(pieces: seq<string>, sep: nat, max: int): (n: nat)
    requires pieces != []
    ensures 1 <= n <= |pieces|
  {
    1 + Fill([pieces[0]], pieces[1..], sep, max)
  }

  /** What the next piece does to the chunks to come. */
  lemma StreamStep(buf: seq<string>, rest: seq<string>, sep: nat, bound: int, max: int)
    requires rest != []
    ensures Stream(buf, rest, sep, bound, max) ==
      if buf != [] && Cost(buf, sep) + sep + |rest[0]| > bound then [buf] + Stream([rest[0]], rest[1..], sep, max, max)
      else Stream(buf + [rest[0]], rest[1..], sep, bound, max)
  {
  }

  lemma StreamEnds(buf: seq<string>, sep: nat, bound: int, max: int)
    ensures Stream(buf, [], sep, bound, max) == if buf == [] then [] else [buf]
  {
  }

  lemma FillStep(buf: seq<string>, rest: seq<string>, sep: nat, max: int)
    ensures Fill(buf, rest, sep, max) ==
      if rest != [] && Cost(buf, sep) + sep + |rest[0]| <= max then 1 + Fill(buf + [rest[0]], rest[1..], sep, max) else 0
  {
  }

  lemma {:induction false} StreamFills(buf: seq<string>, rest: seq<string>, sep: nat, bound: int, max: int)
    requires buf != []
    ensures var n := Fill(buf, rest, sep, bound);
      Stream(buf, rest, sep, bound, max) == [buf + rest[..n]] + Greedy(rest[n..], sep, max)
    decreases |rest|
  {
    hide Stream, Fill, Cost;
    FillStep(buf, rest, sep, bound);
    if rest == [] {
      StreamEnds(buf, sep, bound, max);
      StreamEnds([], sep, max, max);
      assert buf + rest[..0] == buf;
    } else {
      StreamStep(buf, rest, sep, bound, max);
      if Cost(buf, sep) + sep + |rest[0]| > bound {
        StreamStep([], rest, sep, max, max);
        assert buf + rest[..0] == buf && rest[0..] == rest && [] + [rest[0]] == [rest[0]];
      } else {
        var next := buf + [rest[0]];
        var n := Fill(next, rest[1..], sep, bound);
        StreamFills(next, rest[1..], sep, bound, max);
        assert next + rest[1..][..n] == buf + rest[..n + 1];
        assert rest[1..][n..] == rest[n + 1..];
      }
    }
  }

  lemma GreedyFirst(pieces: seq<string>, sep: nat, max: int)
    requires pieces != []
    ensures var n := First(pieces, sep, max);
      Greedy(pieces, sep, max) == [pieces[..n]] + Greedy(pieces[n..], sep, max)
  {
    var n := First(pieces, sep, max);
    assert [] + [pieces[0]] == [pieces[0]];
    StreamFills([pieces[0]], pieces[1..], sep, max, max);
    assert [pieces[0]] + pieces[1..][..n - 1] == pieces[..n];
    assert pieces[1..][n - 1..] == pieces[n..];
  }

  lemma {:induction false} FillFits(buf: seq<string>, rest: seq<string>, sep: nat, max: int)
    requires buf != []
    ensures var n := Fill(buf, rest, sep, max); n == 0 || Cost(buf + rest[..n], sep) <= max
    decreases |rest|
  {
    if rest != [] && Cost(buf, sep) + sep + |rest[0]| <= max {
      var next := buf + [rest[0]];
      var n := Fill(next, rest[1..], sep, max);
      CostAppend(buf, rest[0], sep);
      FillFits(next, rest[1..], sep, max);
      assert next + rest[1..][..n] == buf + rest[..n + 1];
      assert n == 0 ==> buf + rest[..1] == next;
    }
  }

  lemma {:induction false} FillIsLongest(buf: seq<string>, rest: seq<string>, sep: nat, max: int, m: nat)
    requires buf != [] && m <= |rest| && (m == 0 || Cost(buf + rest[..m], sep) <= max)
    ensures m <= Fill(buf, rest, sep, max)
    decreases |rest|
  {
    if m > 0 {
      var next := buf + [rest[0]];
      assert next + rest[1..][..m - 1] == buf + rest[..m];
      CostOfPrefix(buf + rest[..m], |buf| + 1, sep);
      assert (buf + rest[..m])[..|buf| + 1] == next;
      CostAppend(buf, rest[0], sep);
      FillIsLongest(next, rest[1..], sep, max, m - 1);
    }
  }

  /** The first greedy chunk fits, and no fitting first chunk is longer. */
  lemma FirstIsLongest(pieces: seq<string>, sep: nat, max: int, m: nat)
    requires pieces != [] && 1 <= m <= |pieces| && Fits(pieces[..m], sep, max)
    ensures m <= First(pieces, sep, max)
  {
    assert [pieces[0]] + pieces[1..][..m - 1] == pieces[..m];
    FillIsLongest([pieces[0]], pieces[1..], sep, max, m - 1);
  }

  lemma FirstFits(pieces: seq<string>, sep: nat, max: int)
    requires pieces != []
    ensures Fits(pieces[..First(pieces, sep, max)], sep, max)
  {
    var n := First(pieces, sep, max);
    FillFits([pieces[0]], pieces[1..], sep, max);
    assert [pieces[0]] + pieces[1..][..n - 1] == pieces[..n];
  }

  // ---- optimality -----------------------------------------------------------------------------

  /** Fewer pieces never need more chunks: dropping the first one. */
  lemma {:induction false} GreedyShrinks(pieces: seq<string>, sep: nat, max: int)
    requires pieces != []
    ensures |Greedy(pieces[1..], sep, max)| <= |Greedy(pieces, sep, max)|
    decreases |pieces|, 0
  {
    hide Stream, Greedy, Fill;
    var n := First(pieces, sep, max);
    GreedyFirst(pieces, sep, max);
    if n > 1 {
      var tail := pieces[1..];
      FirstFits(pieces, sep, max);
      assert pieces[..n] == [pieces[0]] + tail[..n - 1];
      CostPrepend(pieces[0], tail[..n - 1], sep);
      FirstIsLongest(tail, sep, max, n - 1);
      var k := First(tail, sep, max);
      GreedyFirst(tail, sep, max);
      GreedyShrinksBy(pieces[n..], sep, max, k + 1 - n);
      assert pieces[n..][k + 1 - n..] == tail[k..];
    }
  }

  lemma {:induction false} GreedyShrinksBy(pieces: seq<string>, sep: nat, max: int, n: nat)
    requires n <= |pieces|
    ensures |Greedy(pieces[n..], sep, max)| <= |Greedy(pieces, sep, max)|
    decreases |pieces|, 1
  {
    hide Stream, Greedy;
    if n == 0 {
      assert pieces[0..] == pieces;
    } else {
      GreedyShrinks(pieces, sep, max);
      GreedyShrinksBy(pieces[1..], sep, max, n - 1);
      assert pieces[1..][n - 1..] == pieces[n..];
    }
  }

  /** No way of cutting the pieces in order within the bound has fewer chunks than greedy. */
  lemma {:induction false} GreedyIsOptimal(pieces: seq<string>, sep: nat, max: int, other: seq<seq<string>>)
    requires Packs(other, pieces, sep, max)
    ensures |Greedy(pieces, sep, max)| <= |other|
    decreases |other|
  {
    if pieces != [] {
      var m, n := |other[0]|, First(pieces, sep, max);
      hide Stream, Greedy, First;
      assert other[0] in other && pieces[..m] == other[0] && pieces[m..] == Flatten(other[1..]);
      GreedyIsOptimal(pieces[m..], sep, max, other[1..]);
      FirstIsLongest(pieces, sep, max, m);
      GreedyFirst(pieces, sep, max);
      GreedyShrinksBy(pieces[m..], sep, max, n - m);
      assert pieces[m..][n - m..] == pieces[n..];
    }
  }

  /** And greedy is such a way. */
  lemma {:induction false} GreedyPacks(pieces: seq<string>, sep: nat, max: int)
    ensures Packs(Greedy(pieces, sep, max), pieces, sep, max)
    decreases |pieces|
  {
    if pieces != [] {
      hide Stream, Greedy, First, Fits;
      var n := First(pieces, sep, max);
      GreedyFirst(pieces, sep, max);
      FirstFits(pieces, sep, max);
      GreedyPacks(pieces[n..], sep, max);
      assert pieces == pieces[..n] + pieces[n..];
    }
  }

  // ---- the packer whose first buffer counts two characters too many ------------------------------

  const GAP: nat := 2

  function PackedGroups(units: seq<string>, target: int): seq<seq<string>> {
    Stream([], units, GAP, target - GAP, target)
  }

  lemma PackedFirst(units: seq<string>, target: int)
    requires units != []
    ensures var n := First(units, GAP, target - GAP);
      PackedGroups(units, target) == [units[..n]] + Greedy(units[n..], GAP, target)
  {
    var n := First(units, GAP, target - GAP);
    assert [] + [units[0]] == [units[0]];
    StreamFills([units[0]], units[1..], GAP, target - GAP, target);
    assert [units[0]] + units[1..][..n - 1] == units[..n];
    assert units[1..][n - 1..] == units[n..];
  }

  lemma PackedPacks(units: seq<string>, target: int)
    ensures Packs(PackedGroups(units, target), units, GAP, target)
  {
    if units != [] {
      var n := First(units, GAP, target - GAP);
      PackedFirst(units, target);
      FirstFits(units, GAP, target - GAP);
      GreedyPacks(units[n..], GAP, target);
      assert units == units[..n] + units[n..];
    }
  }

  /** The first chunk falls short of the longest possible one by at most one unit. */
  lemma MarginIsOneUnit(units: seq<string>, target: int)
    requires units != []
    ensures First(units, GAP, target - GAP) <= First(units, GAP, target) <= First(units, GAP, target - GAP) + 1
  {
    var n, k := First(units, GAP, target - GAP), First(units, GAP, target);
    FirstFits(units, GAP, target - GAP);
    FirstFits(units, GAP, target);
    FirstIsLongest(units, GAP, target, n);
    if k > 1 {
      assert units[..k] == units[..k - 1] + [units[k - 1]];
      CostAppend(units[..k - 1], units[k - 1], GAP);
      FirstIsLongest(units, GAP, target - GAP, k - 1);
    }
  }

  /** The first chunk leaves out a unit that would fill it to within the last two characters. */
  predicate InMargin(units: seq<string>, target: int) {
    units != [] &&
    var n := First(units, GAP, target - GAP);
    n < |units| && target - GAP < Cost(units[..n + 1], GAP) <= target
  }

  lemma MarginIsLeftOut(units: seq<string>, target: int)
    requires units != []
    ensures First(units, GAP, target)
         == First(units, GAP, target - GAP) + if InMargin(units, target) then 1 else 0
  {
    var n, k := First(units, GAP, target - GAP), First(units, GAP, target);
    MarginIsOneUnit(units, target);
    if k == n + 1 {
      FirstFits(units, GAP, target);
      if Cost(units[..k], GAP) <= target - GAP {
        FirstIsLongest(units, GAP, target - GAP, k);
      }
    } else if InMargin(units, target) {
      FirstIsLongest(units, GAP, target, n + 1);
    }
  }

  /** In every way of cutting the units the packer uses at most one chunk more. */
  lemma PackedWithinOne(units: seq<string>, target: int, other: seq<seq<string>>)
    requires Packs(other, units, GAP, target)
    ensures |PackedGroups(units, target)| <= |other| + 1
  {
    GreedyIsOptimal(units, GAP, target, other);
    if units != [] {
      PackedAgainstGreedy(units, target);
    }
  }

  /** Outside the margin it is as good as any. */
  lemma PackedIsOptimalOutsideMargin(units: seq<string>, target: int, other: seq<seq<string>>)
    requires Packs(other, units, GAP, target) && !InMargin(units, target)
    ensures |PackedGroups(units, target)| <= |other|
  {
    GreedyIsOptimal(units, GAP, target, other);
    if units != [] {
      PackedAgainstGreedy(units, target);
    }
  }

  /**
   Two greedy cuttings of one list go on side by side, the second `lead` pieces ahead. It stays
   ahead if it is at the end before the two stand at the same piece after as many chunks.
   */
  predicate StaysAhead(pieces: seq<string>, lead: int, sep: nat, max: int)
    decreases |pieces|
  {
    0 < lead &&
    (lead >= |pieces| ||
     var n := First(pieces, sep, max);
     StaysAhead(pieces[n..], lead + First(pieces[lead..], sep, max) - n, sep, max))
  }

  lemma {:induction false} CostOfSuffix(pieces: seq<string>, k: nat, sep: nat)
    requires k <= |pieces|
    ensures Cost(pieces[k..], sep) <= Cost(pieces, sep)
  {
    if 0 < k < |pieces| {
      CostOfSuffix(pieces[1..], k - 1, sep);
      assert pieces[1..][k - 1..] == pieces[k..] && pieces == [pieces[0]] + pieces[1..];
      CostPrepend(pieces[0], pieces[1..], sep);
    } else {
      assert pieces[k..] == if k == 0 then pieces else [];
    }
  }

  /** The tail of a chunk that fits, fits at the front of what it starts. */
  lemma TailFits(pieces: seq<string>, i: nat, j: nat, sep: nat, max: int)
    requires i < j <= |pieces| && Fits(pieces[..j], sep, max)
    ensures j - i <= First(pieces[i..], sep, max)
  {
    CostOfSuffix(pieces[..j], i, sep);
    assert pieces[..j][i..] == pieces[i..][..j - i];
    FirstIsLongest(pieces[i..], sep, max, j - i);
  }

  /** After one more chunk on each side the later cutting is level or ahead, within one chunk. */
  lemma LeadGoesOn(pieces: seq<string>, lead: nat, sep: nat, max: int)
    requires lead < |pieces| && 1 <= lead <= First(pieces, sep, max)
    ensures var n, m := First(pieces, sep, max), First(pieces[lead..], sep, max);
      && n <= lead + m <= |pieces|
      && (n < lead + m ==> lead + m - n <= First(pieces[n..], sep, max))
  {
    var n, m := First(pieces, sep, max), First(pieces[lead..], sep, max);
    FirstFits(pieces, sep, max);
    FirstFits(pieces[lead..], sep, max);
    hide First, Fits;
    if lead < n {
      TailFits(pieces, lead, n, sep, max);
    }
    if n < lead + m {
      assert pieces[lead..][n - lead..] == pieces[n..];
      TailFits(pieces[lead..], n - lead, m, sep, max);
    }
  }

  /** A cutting that starts `lead` pieces later, within the first chunk, saves a chunk exactly when it stays ahead. */
  lemma {:induction false} LeadSavesAChunk(pieces: seq<string>, lead: nat, sep: nat, max: int)
    requires lead == 0 || (pieces != [] && lead <= First(pieces, sep, max))
    ensures lead <= |pieces|
    ensures |Greedy(pieces, sep, max)|
         == |Greedy(pieces[lead..], sep, max)| + if StaysAhead(pieces, lead, sep, max) then 1 else 0
    decreases |pieces|
  {
    hide Greedy, First, Fits, Cost;
    if lead == 0 {
      assert pieces[0..] == pieces;
    } else {
      var n := First(pieces, sep, max);
      GreedyFirst(pieces, sep, max);
      if lead < |pieces| {
        var later := pieces[lead..];
        var m := First(later, sep, max);
        GreedyFirst(later, sep, max);
        LeadGoesOn(pieces, lead, sep, max);
        LeadSavesAChunk(pieces[n..], lead + m - n, sep, max);
        assert pieces[n..][lead + m - n..] == later[m..];
      }
    }
  }

  lemma PackedAgainstGreedy(units: seq<string>, target: int)
    requires units != []
    ensures var n := First(units, GAP, target - GAP);
      |PackedGroups(units, target)| == |Greedy(units, GAP, target)|
        + if InMargin(units, target) && StaysAhead(units[n..], 1, GAP, target) then 1 else 0
  {
    var n := First(units, GAP, target - GAP);
    PackedFirst(units, target);
    GreedyFirst(units, GAP, target);
    MarginIsLeftOut(units, target);
    if InMargin(units, target) {
      LeadSavesAChunk(units[n..], 1, GAP, target);
      assert units[n..][1..] == units[n + 1..];
    }
  }

  /**
   Of all ways of cutting the units in order within the target the packer's has the fewest chunks,
   unless a unit is left out in the margin and a cutting one unit further on stays ahead to the end.
   */
  lemma PackedIsOptimalIff(units: seq<string>, target: int)
    ensures (forall other :: Packs(other, units, GAP, target) ==> |PackedGroups(units, target)| <= |other|)
       <==> !(InMargin(units, target) && StaysAhead(units[First(units, GAP, target - GAP)..], 1, GAP, target))
  {
    var greedy := Greedy(units, GAP, target);
    GreedyPacks(units, GAP, target);
    if units != [] {
      PackedAgainstGreedy(units, target);
    }
    forall other | Packs(other, units, GAP, target) ensures |greedy| <= |other| {
      GreedyIsOptimal(units, GAP, target, other);
    }
    assert Packs(greedy, units, GAP, target);
  }

  /** It does happen: two chunks where one of exactly the target size would do. */
  lemma PackedIsNotOptimal()
    ensures PackedGroups(["aa", "b"], 5) == [["aa"], ["b"]]
    ensures Packs([["aa", "b"]], ["aa", "b"], GAP, 5)
  {
    var units := ["aa", "b"];
    assert Cost(["aa"], GAP) == 2;
    assert units[1..] == ["b"] && [] + ["aa"] == ["aa"];
    assert Stream(["b"], [], GAP, 5, 5) == [["b"]];
    assert ["aa", "b"][..1] == ["aa"];
    assert Flatten([units]) == units + Flatten([]);
  }

  // ---- the loops -------------------------------------------------------------------------------

  function Joined(sep: string, groups: seq<seq<string>>): seq<string> {
    seq(|groups|, i requires 0 <= i < |groups| => Join(sep, groups[i]))
  }

  lemma {:induction false} JoinAppend(sep: string, a: seq<string>, b: seq<string>)
    requires a != [] && b != []
    ensures Join(sep, a + b) == Join(sep, a) + sep + Join(sep, b)
  {
    if |a| == 1 {
      assert (a + b)[1..] == b;
    } else {
      assert (a + b)[1..] == a[1..] + b;
      JoinAppend(sep, a[1..], b);
    }
  }

  /** Joining the chunks again gives the text of the pieces. */
  lemma {:induction false} JoinedAgain(sep: string, groups: seq<seq<string>>)
    requires forall g <- groups :: g != []
    ensures Join(sep, Joined(sep, groups)) == Join(sep, Flatten(groups))
  {
    if groups != [] {
      var rest := groups[1..];
      assert groups[0] in groups && forall g <- rest :: g in groups;
      JoinedAgain(sep, rest);
      assert Joined(sep, groups)[1..] == Joined(sep, rest);
      if rest == [] {
        assert groups[0] + [] == groups[0];
      } else {
        assert rest[0] in rest && Flatten(rest) == rest[0] + Flatten(rest[1..]);
        JoinAppend(sep, groups[0], Flatten(rest));
      }
    }
  }

  lemma JoinedOneMore(sep: string, groups: seq<seq<string>>, g: seq<string>)
    ensures Joined(sep, groups + [g]) == Joined(sep, groups) + [Join(sep, g)]
  {
  }

  lemma NothingYet(sep: string)
    ensures Joined(sep, []) == [] && Cost([], |sep|) == 0
  {
  }

  /** What a packing comes to once its groups are joined: the same text, in parts that keep the bound or are one piece. */
  lemma JoinedPacks(sep: string, groups: seq<seq<string>>, pieces: seq<string>, max: int)
    requires Packs(groups, pieces, |sep|, max)
    ensures Join(sep, Joined(sep, groups)) == Join(sep, pieces)
    ensures forall c <- Joined(sep, groups) :: |c| <= max || c in pieces
  {
    JoinedAgain(sep, groups);
    forall k | 0 <= k < |groups| ensures |Join(sep, groups[k])| <= max || Join(sep, groups[k]) in pieces {
      assert groups[k] in groups;
      CostIsLength(sep, groups[k]);
      InFlatten(groups, k);
    }
  }

  lemma {:induction false} InFlatten(groups: seq<seq<string>>, k: nat)
    requires k < |groups|
    ensures forall p <- groups[k] :: p in Flatten(groups)
  {
    if k > 0 {
      InFlatten(groups[1..], k - 1);
    }
  }

  /** The greedy loop of `_chunk_text_for_llmlingua`, from the pieces its splitting yields. */
  method Chunk(paras: seq<string>, maxChars: int) returns (chunks: seq<string>)
    requires forall p <- paras :: p != ""
    ensures chunks == Joined("\n", Greedy(paras, 1, maxChars))
    ensures Join("\n", chunks) == Join("\n", paras)
    ensures forall c <- chunks :: |c| <= maxChars || c in paras
    ensures forall other :: Packs(other, paras, 1, maxChars) ==> |chunks| <= |other|
  {
    hide Stream, Cost, Join, Joined;
    NothingYet("\n");
    chunks := [];
    var buf: seq<string> := [];
    var acc := 0;
    ghost var groups: seq<seq<string>> := [];
    assert paras[0..] == paras;
    for i := 0 to |paras|
      invariant Greedy(paras, 1, maxChars) == groups + Stream(buf, paras[i..], 1, maxChars, maxChars)
      invariant chunks == Joined("\n", groups)
      invariant acc == Cost(buf, 1) && (buf == [] <==> acc == 0)
    {
      var p := paras[i];
      assert p in paras && paras[i..][0] == p && paras[i..][1..] == paras[i + 1..];
      StreamStep(buf, paras[i..], 1, maxChars, maxChars);
      CostAppend(buf, p, 1);
      CostAppend([], p, 1);
      JoinedOneMore("\n", groups, buf);
      assert [] + [p] == [p];
      if acc != 0 && acc + 1 + |p| > maxChars {
        chunks := chunks + [Join("\n", buf)];
        groups := groups + [buf];
        buf := [p];
        acc := |p|;
      } else if buf != [] {
        buf := buf + [p];
        acc := acc + 1 + |p|;
      } else {
        buf := [p];
        acc := |p|;
      }
    }
    StreamEnds(buf, 1, maxChars, maxChars);
    JoinedOneMore("\n", groups, buf);
    assert paras[|paras|..] == [] && groups + [] == groups;
    if buf != [] {
      chunks := chunks + [Join("\n", buf)];
    }
    ChunksAre(paras, maxChars);
  }

  lemma ChunksAre(paras: seq<string>, maxChars: int)
    ensures var chunks := Joined("\n", Greedy(paras, 1, maxChars));
      && Join("\n", chunks) == Join("\n", paras)
      && (forall c <- chunks :: |c| <= maxChars || c in paras)
      && forall other :: Packs(other, paras, 1, maxChars) ==> |chunks| <= |other|
  {
    GreedyPacks(paras, 1, maxChars);
    JoinedPacks("\n", Greedy(paras, 1, maxChars), paras, maxChars);
    forall other | Packs(other, paras, 1, maxChars) ensures |Greedy(paras, 1, maxChars)| <= |other| {
      GreedyIsOptimal(paras, 1, maxChars, other);
    }
  }

  method PackUnits(units: seq<string>, targetChars: int) returns (packed: seq<string>)
    ensures packed == Joined("\n\n", PackedGroups(units, targetChars))
    ensures Join("\n\n", packed) == Join("\n\n", units)
    ensures forall c <- packed :: |c| <= targetChars || c in units
    ensures forall other :: Packs(other, units, 2, targetChars) ==> |packed| <= |other| + 1
  {
    hide Stream, Cost, Join, Joined;
    NothingYet("\n\n");
    packed := [];
    var buffer: seq<string> := [];
    var size := 0;
    ghost var groups: seq<seq<string>> := [];
    ghost var bound := targetChars - GAP;
    assert units[0..] == units;
    for i := 0 to |units|
      invariant PackedGroups(units, targetChars) == groups + Stream(buffer, units[i..], GAP, bound, targetChars)
      invariant packed == Joined("\n\n", groups)
      invariant groups == [] ==> bound == targetChars - GAP
      invariant groups != [] ==> bound == targetChars && buffer != [] && size == Cost(buffer, GAP)
      invariant buffer == [] ==> size == 0
      invariant groups == [] && buffer != [] ==>
        size == Cost(buffer, GAP) + GAP || (size == Cost(buffer, GAP) && size > bound)
    {
      var u := units[i];
      assert units[i..][0] == u && units[i..][1..] == units[i + 1..];
      StreamStep(buffer, units[i..], GAP, bound, targetChars);
      CostAppend(buffer, u, GAP);
      CostAppend([], u, GAP);
      JoinedOneMore("\n\n", groups, buffer);
      assert [] + [u] == [u];
      if size + |u| + 2 <= targetChars {
        buffer := buffer + [u];
        size := size + |u| + 2;
      } else {
        if buffer != [] {
          packed := packed + [Join("\n\n", buffer)];
          groups := groups + [buffer];
          bound := targetChars;
        }
        buffer := [u];
        size := |u|;
      }
    }
    StreamEnds(buffer, GAP, bound, targetChars);
    JoinedOneMore("\n\n", groups, buffer);
    assert units[|units|..] == [] && groups + [] == groups;
    if buffer != [] {
      packed := packed + [Join("\n\n", buffer)];
    }
    PackedAre(units, targetChars);
  }

  lemma PackedAre(units: seq<string>, target: int)
    ensures var packed := Joined("\n\n", PackedGroups(units, target));
      && Join("\n\n", packed) == Join("\n\n", units)
      && (forall c <- packed :: |c| <= target || c in units)
      && forall other :: Packs(other, units, 2, target) ==> |packed| <= |other| + 1
  {
    PackedPacks(units, target);
    JoinedPacks("\n\n", PackedGroups(units, target), units, target);
    forall other | Packs(other, units, 2, target) ensures |PackedGroups(units, target)| <= |other| + 1 {
      PackedWithinOne(units, target, other);
    }
  }
}
