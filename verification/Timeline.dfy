/**
 A session's timeline: what the run history and the event log have of it, in order of time, with
 equal times in the order of recording.
 */
module Timeline {
  import opened Sorting
  import opened SessionLog
  import opened Engine

  datatype Item =
    | ActionItem(at: int, rec: Record)
    | OutcomeItem(at: int, outcome: Remark)
    | NoteItem(at: int, note: Note)

  /** What the timeline is sorted by. */
  function TimeOf(item: Item): real {
    item.at as real
  }

  function InWindow(runs: seq<Record>, start: int, end: int): seq<Item> {
    if runs == [] then []
    else (if start <= runs[0].startedAt <= end then [ActionItem(runs[0].startedAt, runs[0])] else []) + InWindow(runs[1..], start, end)
  }

  function Outcomes(outcomes: seq<Remark>): seq<Item> {
    seq(|outcomes|, i requires 0 <= i < |outcomes| => OutcomeItem(outcomes[i].at, outcomes[i]))
  }

  function Notes(notes: seq<Note>): seq<Item> {
    seq(|notes|, i requires 0 <= i < |notes| => NoteItem(notes[i].at, notes[i]))
  }

  /** What a session's timeline is made of: actions in its window, its outcomes, its notes. */
  function Happened(s: Session, runs: seq<Record>, now: int): seq<Item> {
    InWindow(runs, s.startedAt, if s.endedAt.Some? then s.endedAt.value else now)
      + Outcomes(s.outcomes) + Notes(s.notes)
  }

  /** `all` put in order of time, ties left as they were. */
  ghost predicate IsTimeline(items: seq<Item>, all: seq<Item>) {
    && Ordered(items, TimeOf) && multiset(items) == multiset(all)
    && forall t :: AtKey(items, TimeOf, t) == AtKey(all, TimeOf, t)
  }

  /** There is one timeline only, whichever stable sort produces it. */
  lemma TimelineIsUnique(items: seq<Item>, items': seq<Item>, all: seq<Item>)
    requires IsTimeline(items, all) && IsTimeline(items', all)
    ensures items == items'
  {
    StableSortUnique(items, items', TimeOf);
  }

  lemma {:induction false} InWindowAppend(runs: seq<Record>, rec: Record, start: int, end: int)
    ensures InWindow(runs + [rec], start, end)
         == InWindow(runs, start, end) + if start <= rec.startedAt <= end then [ActionItem(rec.startedAt, rec)] else []
  {
    if runs == [] {
      assert [] + [rec] == [rec];
    } else {
      assert (runs + [rec])[1..] == runs[1..] + [rec];
      InWindowAppend(runs[1..], rec, start, end);
    }
  }

  // ---- what the timeline says, in terms of the log --------------------------------------------

  /** One thing recorded before another: actions come before outcomes, outcomes before notes. */
  ghost predicate Before(x: Item, y: Item, log: seq<Event>, id: string, runs: seq<Record>) {
    match (x, y)
    case (ActionItem(_, r), ActionItem(_, r')) => exists p, q :: 0 <= p < q < |runs| && runs[p] == r && runs[q] == r'
    case (OutcomeItem(_, o), OutcomeItem(_, o')) =>
      exists p, q :: 0 <= p < q < |log| && log[p] == OutcomeRecorded(id, o.at, o.exp, o.result, o.notes)
                     && log[q] == OutcomeRecorded(id, o'.at, o'.exp, o'.result, o'.notes)
    case (NoteItem(_, n), NoteItem(_, n')) =>
      exists p, q :: 0 <= p < q < |log| && log[p] == NoteAdded(id, n.at, n.text) && log[q] == NoteAdded(id, n'.at, n'.text)
    case _ => x.ActionItem? || (x.OutcomeItem? && y.NoteItem?)
  }

  lemma {:induction false} NotesInOrder(log: seq<Event>, id: string, i: nat, j: nat) returns (p: nat, q: nat)
    requires i < j < |NotesOf(log, id)|
    ensures var notes := NotesOf(log, id);
      && p < q < |log| && log[p] == NoteAdded(id, notes[i].at, notes[i].text)
      && log[q] == NoteAdded(id, notes[j].at, notes[j].text)
  {
    var n := |log| - 1;
    if j < |NotesOf(log[..n], id)| {
      p, q := NotesInOrder(log[..n], id, i, j);
    } else {
      p := NoteLogged(log[..n], id, i);
      q := n;
    }
  }

  lemma {:induction false} NoteLogged(log: seq<Event>, id: string, i: nat) returns (p: nat)
    requires i < |NotesOf(log, id)|
    ensures p < |log| && log[p] == NoteAdded(id, NotesOf(log, id)[i].at, NotesOf(log, id)[i].text)
  {
    var n := |log| - 1;
    if i < |NotesOf(log[..n], id)| {
      p := NoteLogged(log[..n], id, i);
    } else {
      p := n;
    }
  }

  lemma {:induction false} OutcomesInOrder(log: seq<Event>, id: string, i: nat, j: nat) returns (p: nat, q: nat)
    requires i < j < |OutcomesOf(log, id)|
    ensures var xs := OutcomesOf(log, id);
      && p < q < |log| && log[p] == OutcomeRecorded(id, xs[i].at, xs[i].exp, xs[i].result, xs[i].notes)
      && log[q] == OutcomeRecorded(id, xs[j].at, xs[j].exp, xs[j].result, xs[j].notes)
  {
    var n := |log| - 1;
    if j < |OutcomesOf(log[..n], id)| {
      p, q := OutcomesInOrder(log[..n], id, i, j);
    } else {
      p := OutcomeLogged(log[..n], id, i);
      q := n;
    }
  }

  lemma {:induction false} OutcomeLogged(log: seq<Event>, id: string, i: nat) returns (p: nat)
    requires i < |OutcomesOf(log, id)|
    ensures var x := OutcomesOf(log, id)[i];
      p < |log| && log[p] == OutcomeRecorded(id, x.at, x.exp, x.result, x.notes)
  {
    var n := |log| - 1;
    if i < |OutcomesOf(log[..n], id)| {
      p := OutcomeLogged(log[..n], id, i);
    } else {
      p := n;
    }
  }

  lemma {:induction false} InWindowIs(runs: seq<Record>, start: int, end: int)
    ensures forall x <- InWindow(runs, start, end) :: x.ActionItem? && x.at == x.rec.startedAt && x.rec in runs
    ensures forall r: Record :: multiset(InWindow(runs, start, end))[ActionItem(r.startedAt, r)]
                             == if start <= r.startedAt <= end then multiset(runs)[r] else 0
  {
    if runs != [] {
      InWindowIs(runs[1..], start, end);
      assert runs == [runs[0]] + runs[1..];
    }
  }

  lemma {:induction false} RunsInOrder(runs: seq<Record>, start: int, end: int, i: nat, j: nat) returns (p: nat, q: nat)
    requires i < j < |InWindow(runs, start, end)|
    ensures var items := InWindow(runs, start, end);
      && p < q < |runs| && items[i] == ActionItem(runs[p].startedAt, runs[p])
      && items[j] == ActionItem(runs[q].startedAt, runs[q])
  {
    var d := |InWindow(runs, start, end)| - |InWindow(runs[1..], start, end)|;
    if i >= d {
      p, q := RunsInOrder(runs[1..], start, end, i - d, j - d);
      p, q := p + 1, q + 1;
    } else {
      p := 0;
      q := RunListed(runs[1..], start, end, j - d);
      q := q + 1;
    }
  }

  lemma {:induction false} RunListed(runs: seq<Record>, start: int, end: int, i: nat) returns (p: nat)
    requires i < |InWindow(runs, start, end)|
    ensures p < |runs| && InWindow(runs, start, end)[i] == ActionItem(runs[p].startedAt, runs[p])
  {
    var d := |InWindow(runs, start, end)| - |InWindow(runs[1..], start, end)|;
    if i >= d {
      p := RunListed(runs[1..], start, end, i - d);
      p := p + 1;
    } else {
      p := 0;
    }
  }

  /** A session's items come in the order they were recorded, kind by kind. */
  lemma HappenedInOrder(log: seq<Event>, id: string, runs: seq<Record>, start: int, end: int, i: nat, j: nat)
    requires var all := InWindow(runs, start, end) + Outcomes(OutcomesOf(log, id)) + Notes(NotesOf(log, id)); i < j < |all|
    ensures var all := InWindow(runs, start, end) + Outcomes(OutcomesOf(log, id)) + Notes(NotesOf(log, id));
      Before(all[i], all[j], log, id, runs)
  {
    hide OutcomesOf, NotesOf, InWindow;
    InWindowIs(runs, start, end);
    var a, b := |InWindow(runs, start, end)|, |OutcomesOf(log, id)|;
    if j < a {
      var p, q := RunsInOrder(runs, start, end, i, j);
    } else if a <= i && j < a + b {
      var p, q := OutcomesInOrder(log, id, i - a, j - a);
    } else if a + b <= i {
      var p, q := NotesInOrder(log, id, i - a - b, j - a - b);
    } else if i < a {
      assert InWindow(runs, start, end)[i] in InWindow(runs, start, end);
    }
  }

  /** In order of time, and of recording where times are equal. */
  ghost predicate Chronological(items: seq<Item>, log: seq<Event>, id: string, runs: seq<Record>) {
    forall i, j :: 0 <= i < j < |items| ==>
      items[i].at < items[j].at || (items[i].at == items[j].at && Before(items[i], items[j], log, id, runs))
  }

  /** Each item as often as the run history or the log has it, and nothing else. */
  ghost predicate Complete(items: seq<Item>, log: seq<Event>, id: string, runs: seq<Record>, start: int, end: int) {
    && (forall r: Record :: multiset(items)[ActionItem(r.startedAt, r)]
                         == if start <= r.startedAt <= end then multiset(runs)[r] else 0)
    && (forall x: Remark :: multiset(items)[OutcomeItem(x.at, x)]
                         == multiset(log)[OutcomeRecorded(id, x.at, x.exp, x.result, x.notes)])
    && (forall n: Note :: multiset(items)[NoteItem(n.at, n)] == multiset(log)[NoteAdded(id, n.at, n.text)])
    && forall x <- items :: match x
                            case ActionItem(at, r) => at == r.startedAt
                            case OutcomeItem(at, o) => at == o.at
                            case NoteItem(at, n) => at == n.at
  }

  lemma {:induction false} OutcomeItemsCount(xs: seq<Remark>)
    ensures forall x: Remark :: multiset(Outcomes(xs))[OutcomeItem(x.at, x)] == multiset(xs)[x]
    ensures forall i <- Outcomes(xs) :: i.OutcomeItem? && i.at == i.outcome.at
  {
    if xs != [] {
      OutcomeItemsCount(xs[1..]);
      assert xs == [xs[0]] + xs[1..];
      assert Outcomes(xs) == [OutcomeItem(xs[0].at, xs[0])] + Outcomes(xs[1..]);
    }
  }

  lemma {:induction false} NoteItemsCount(xs: seq<Note>)
    ensures forall x: Note :: multiset(Notes(xs))[NoteItem(x.at, x)] == multiset(xs)[x]
    ensures forall i <- Notes(xs) :: i.NoteItem? && i.at == i.note.at
  {
    if xs != [] {
      NoteItemsCount(xs[1..]);
      assert xs == [xs[0]] + xs[1..];
      assert Notes(xs) == [NoteItem(xs[0].at, xs[0])] + Notes(xs[1..]);
    }
  }

  lemma HappenedIsComplete(log: seq<Event>, id: string, runs: seq<Record>, start: int, end: int)
    ensures var all := InWindow(runs, start, end) + Outcomes(OutcomesOf(log, id)) + Notes(NotesOf(log, id));
      Complete(all, log, id, runs, start, end)
  {
    hide OutcomesOf, NotesOf, InWindow, Outcomes, Notes;
    var acts, outs, notes := InWindow(runs, start, end), Outcomes(OutcomesOf(log, id)), Notes(NotesOf(log, id));
    InWindowIs(runs, start, end);
    OutcomeItemsCount(OutcomesOf(log, id));
    NoteItemsCount(NotesOf(log, id));
    forall x: Remark ensures multiset(acts + outs + notes)[OutcomeItem(x.at, x)]
      == multiset(log)[OutcomeRecorded(id, x.at, x.exp, x.result, x.notes)]
    {
      OutcomesCount(log, id, x);
      assert OutcomeItem(x.at, x) !in acts && OutcomeItem(x.at, x) !in notes;
    }
    forall n: Note ensures multiset(acts + outs + notes)[NoteItem(n.at, n)] == multiset(log)[NoteAdded(id, n.at, n.text)] {
      NotesCount(log, id, n.at, n.text);
      assert NoteItem(n.at, n) !in acts && NoteItem(n.at, n) !in outs;
    }
    forall r: Record ensures multiset(acts + outs + notes)[ActionItem(r.startedAt, r)]
      == if start <= r.startedAt <= end then multiset(runs)[r] else 0
    {
      assert ActionItem(r.startedAt, r) !in outs && ActionItem(r.startedAt, r) !in notes;
    }
  }

  /** A timeline of what happened is in order and complete, as the log and the run history have it. */
  lemma TimelineTells(log: seq<Event>, id: string, runs: seq<Record>, now: int, items: seq<Item>)
    requires WellFormed(log) && Story(log, id).Some? && IsTimeline(items, Happened(Story(log, id).value, runs, now))
    ensures var s := Story(log, id).value;
      && Chronological(items, log, id, runs)
      && Complete(items, log, id, runs, s.startedAt, if s.endedAt.Some? then s.endedAt.value else now)
  {
    hide Story, WellFormed, InWindow, OutcomesOf, NotesOf, Outcomes, Notes, Before, Complete, AtKey, StableSort;
    StoryTells(log, id);
    var s := Story(log, id).value;
    var end := if s.endedAt.Some? then s.endedAt.value else now;
    var all := Happened(s, runs, now);
    StableSortSorts(all, TimeOf);
    TimelineIsUnique(items, StableSort(all, TimeOf), all);
    var from := StableSortFrom(all, TimeOf);
    forall i, j | 0 <= i < j < |items|
      ensures items[i].at < items[j].at || (items[i].at == items[j].at && Before(items[i], items[j], log, id, runs))
    {
      if from[i] < from[j] {
        HappenedInOrder(log, id, runs, s.startedAt, end, from[i], from[j]);
      }
    }
    HappenedIsComplete(log, id, runs, s.startedAt, end);
    SameItemsComplete(all, items, log, id, runs, s.startedAt, end);
  }

  lemma InOrderOfTime(items: seq<Item>, log: seq<Event>, id: string, runs: seq<Record>)
    requires Chronological(items, log, id, runs)
    ensures forall i, j :: 0 <= i < j < |items| ==> items[i].at <= items[j].at
  {
  }

  lemma SameItemsComplete(all: seq<Item>, items: seq<Item>, log: seq<Event>, id: string, runs: seq<Record>, start: int, end: int)
    requires Complete(all, log, id, runs, start, end) && multiset(items) == multiset(all)
    ensures Complete(items, log, id, runs, start, end)
  {
    forall x <- items ensures x in all {
      assert x in multiset(items);
    }
  }
}
