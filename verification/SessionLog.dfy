/**
 The session recorder's event log: folded with the cap on closed sessions it is the recorder's
 memory, and read one session at a time it is that session's story.
 */
module SessionLog {
  import opened Options
  import opened Fifo

  datatype Note = Note(at: int, text: string)
  datatype Remark = Remark(at: int, exp: string, result: string, notes: string)

  datatype Session = Session(id: string, title: string, startedAt: int, endedAt: Option<int>,
                             notes: seq<Note>, outcomes: seq<Remark>)

  datatype Event =
    | Opened(session: string, at: int, title: string)
    | NoteAdded(session: string, at: int, note: string)
    | OutcomeRecorded(session: string, at: int, exp: string, result: string, note: string)
    | SessionClosed(session: string, at: int)

  datatype Memory = Memory(byID: map<string, Session>, open: Option<string>, closed: seq<string>)

  const EMPTY := Memory(map[], None, [])

  // ---- the log, folded --------------------------------------------------------------------

  function Amended(s: Session, e: Event): Session {
    match e
    case Opened(_, _, _) => s
    case NoteAdded(_, at, text) => s.(notes := s.notes + [Note(at, text)])
    case OutcomeRecorded(_, at, exp, result, notes) => s.(outcomes := s.outcomes + [Remark(at, exp, result, notes)])
    case SessionClosed(_, at) => s.(endedAt := Some(at))
  }

  /** One event applied to the memory, with the cap on closed sessions. */
  function Apply(m: Memory, e: Event, max: nat): Memory {
    if e.Opened? then
      m.(byID := m.byID[e.session := Session(e.session, e.title, e.at, None, [], [])], open := Some(e.session))
    else if e.session !in m.byID then m
    else
      var byID := m.byID[e.session := Amended(m.byID[e.session], e)];
      if e.SessionClosed? then
        var all := m.closed + [e.session];
        var closed := LastN(all, max);
        Memory(byID - Ids(all[..|all| - |closed|]), if m.open == Some(e.session) then None else m.open, closed)
      else m.(byID := byID)
  }

  lemma ApplyClosed(m: Memory, id: string, at: int, max: nat)
    requires id in m.byID
    ensures var all := m.closed + [id];
      var kept := LastN(all, max);
      Apply(m, SessionClosed(id, at), max)
        == Memory(m.byID[id := m.byID[id].(endedAt := Some(at))] - Ids(all[..|all| - |kept|]),
                  if m.open == Some(id) then None else m.open, kept)
  {
  }

  function Replay(log: seq<Event>, max: nat): Memory {
    if log == [] then EMPTY else Apply(Replay(log[..|log| - 1], max), log[|log| - 1], max)
  }

  // ---- the log, read one session at a time ----------------------------------------------------

  /** Everything the log says about `id`, with no cap. */
  function Story(log: seq<Event>, id: string): Option<Session> {
    if log == [] then None
    else
      var e, before := log[|log| - 1], Story(log[..|log| - 1], id);
      if e.session != id then before
      else if e.Opened? then Some(Session(id, e.title, e.at, None, [], []))
      else if before.None? then None
      else Some(Amended(before.value, e))
  }

  function ClosedIds(log: seq<Event>): seq<string> {
    if log == [] then []
    else
      var e := log[|log| - 1];
      ClosedIds(log[..|log| - 1]) + if e.SessionClosed? then [e.session] else []
  }

  function OpenId(log: seq<Event>): Option<string> {
    if log == [] then None
    else
      var e := log[|log| - 1];
      if e.Opened? then Some(e.session)
      else if e.SessionClosed? then None
      else OpenId(log[..|log| - 1])
  }

  /** `e` may follow `log`: sessions open one at a time, and everything else is about the open one. */
  predicate MayFollow(log: seq<Event>, e: Event) {
    if e.Opened? then OpenId(log).None? && Story(log, e.session).None? else OpenId(log) == Some(e.session)
  }

  ghost predicate WellFormed(log: seq<Event>) {
    forall k :: 0 <= k < |log| ==> MayFollow(log[..k], log[k])
  }

  lemma WellFormedPrefix(log: seq<Event>, n: nat)
    requires WellFormed(log) && n <= |log|
    ensures WellFormed(log[..n])
  {
    forall k | 0 <= k < n ensures MayFollow(log[..n][..k], log[..n][k]) {
      assert log[..n][..k] == log[..k];
    }
  }

  lemma LastMayFollow(log: seq<Event>)
    requires WellFormed(log) && log != []
    ensures MayFollow(log[..|log| - 1], log[|log| - 1])
  {
  }

  /** The memory holds the open session and the last `max` closed ones, each as the log tells it. */
  ghost predicate Matches(m: Memory, log: seq<Event>, max: nat) {
    && m.open == OpenId(log)
    && m.closed == LastN(ClosedIds(log), max)
    && (forall id :: id in m.byID <==> m.open == Some(id) || id in m.closed)
    && (forall id <- m.byID :: Story(log, id) == Some(m.byID[id]) && m.byID[id].id == id)
  }

  ghost predicate ClosedOk(log: seq<Event>) {
    && Distinct(ClosedIds(log))
    && (forall id <- ClosedIds(log) :: Story(log, id).Some? && Story(log, id).value.endedAt.Some?)
    && (OpenId(log).Some? ==> Story(log, OpenId(log).value).Some? && Story(log, OpenId(log).value).value.endedAt.None?)
  }

  lemma {:induction false} StoriesEnd(log: seq<Event>)
    requires WellFormed(log)
    ensures ClosedOk(log)
  {
    if log != [] {
      var n := |log| - 1;
      WellFormedPrefix(log, n);
      StoriesEnd(log[..n]);
      assert MayFollow(log[..n], log[n]);
    }
  }

  lemma LastReplayed(log: seq<Event>, max: nat)
    requires log != []
    ensures var n := |log| - 1;
      log == log[..n] + [log[n]] && Replay(log, max) == Apply(Replay(log[..n], max), log[n], max)
  {
    hide Apply;
  }

  /** Folding the log with the cap gives exactly the sessions to be retained, complete. */
  lemma {:induction false} ReplayMatches(log: seq<Event>, max: nat)
    requires WellFormed(log)
    ensures Matches(Replay(log, max), log, max)
  {
    if log != [] {
      hide Matches, Apply, ClosedOk, WellFormed, MayFollow;
      var n := |log| - 1;
      WellFormedPrefix(log, n);
      ReplayMatches(log[..n], max);
      StoriesEnd(log[..n]);
      LastMayFollow(log);
      ApplyMatches(Replay(log[..n], max), log[..n], log[n], max);
      LastReplayed(log, max);
    }
  }

  lemma ApplyMatches(m: Memory, log: seq<Event>, e: Event, max: nat)
    requires Matches(m, log, max) && MayFollow(log, e) && ClosedOk(log)
    ensures Matches(Apply(m, e, max), log + [e], max)
  {
    assert (log + [e])[..|log|] == log;
    if e.SessionClosed? {
      CloseMatches(m, log, e, max);
    } else if e.Opened? {
      forall id <- m.closed ensures id != e.session {
        LastNInside(ClosedIds(log), max, id);
      }
    }
  }

  lemma ClosingStep(log: seq<Event>, e: Event)
    requires MayFollow(log, e) && ClosedOk(log) && e.SessionClosed?
    ensures OpenId(log + [e]).None? && ClosedIds(log + [e]) == ClosedIds(log) + [e.session]
    ensures forall id :: id != e.session ==> Story(log + [e], id) == Story(log, id)
    ensures Story(log, e.session).Some? && e.session !in ClosedIds(log)
    ensures Story(log + [e], e.session) == Some(Amended(Story(log, e.session).value, e))
  {
    assert (log + [e])[..|log|] == log;
  }

  /** The sessions that stay are the last `max` closed ones, with none left open. */
  lemma CloseKeepsIds(m: Memory, log: seq<Event>, id: string, max: nat)
    requires Matches(m, log, max) && ClosedOk(log) && m.open == Some(id) && id !in ClosedIds(log)
    ensures var all := m.closed + [id];
      var kept := LastN(all, max);
      && kept == LastN(ClosedIds(log) + [id], max)
      && forall x :: x in m.byID.Keys - Ids(all[..|all| - |kept|]) <==> x in kept
  {
    hide Story, ClosedIds, OpenId;
    LastNAppend(ClosedIds(log), id, max);
    LastNDistinct(ClosedIds(log), max, id);
    EvictSplits(m.closed + [id], max);
    hide LastN, Distinct;
  }

  lemma CloseRetains(m: Memory, log: seq<Event>, e: Event, max: nat)
    requires Matches(m, log, max) && MayFollow(log, e) && ClosedOk(log) && e.SessionClosed?
    ensures var m' := Apply(m, e, max);
      && m'.open.None? && m'.closed == LastN(ClosedIds(log) + [e.session], max)
      && (forall id :: id in m'.byID <==> id in m'.closed)
      && m'.byID.Keys <= m.byID.Keys
      && (forall id <- m'.byID :: m'.byID[id] == if id == e.session then Amended(m.byID[id], e) else m.byID[id])
  {
    ClosingStep(log, e);
    CloseKeepsIds(m, log, e.session, max);
    ApplyClosed(m, e.session, e.at, max);
    hide Apply, LastN, Distinct, Story, ClosedIds, OpenId, ClosedOk, Ids;
  }

  lemma AmendedKeepsId(s: Session, e: Event)
    ensures Amended(s, e).id == s.id
  {
  }

  lemma CloseStories(m: Memory, log: seq<Event>, e: Event, max: nat, id: string)
    requires Matches(m, log, max) && MayFollow(log, e) && ClosedOk(log) && e.SessionClosed?
    requires id in m.byID
    ensures Story(log + [e], id) == Some(if id == e.session then Amended(m.byID[id], e) else m.byID[id])
    ensures m.byID[id].id == id
  {
    ClosingStep(log, e);
    hide LastN, ClosedIds, OpenId, ClosedOk, Amended, MayFollow;
  }

  lemma CloseKeepsStories(m: Memory, log: seq<Event>, e: Event, max: nat)
    requires Matches(m, log, max) && MayFollow(log, e) && ClosedOk(log) && e.SessionClosed?
    ensures var m' := Apply(m, e, max);
      forall id <- m'.byID :: Story(log + [e], id) == Some(m'.byID[id]) && m'.byID[id].id == id
  {
    hide LastN, Story, ClosedIds, OpenId, ClosedOk, Amended, MayFollow, Apply;
    CloseRetains(m, log, e, max);
    var m' := Apply(m, e, max);
    forall id <- m'.byID ensures Story(log + [e], id) == Some(m'.byID[id]) && m'.byID[id].id == id {
      CloseStories(m, log, e, max, id);
      AmendedKeepsId(m.byID[id], e);
    }
  }

  lemma CloseMatches(m: Memory, log: seq<Event>, e: Event, max: nat)
    requires Matches(m, log, max) && MayFollow(log, e) && ClosedOk(log) && e.SessionClosed?
    ensures Matches(Apply(m, e, max), log + [e], max)
  {
    hide Apply, LastN, Story, ClosedIds, OpenId, ClosedOk, Amended, MayFollow;
    ClosingStep(log, e);
    CloseRetains(m, log, e, max);
    CloseKeepsStories(m, log, e, max);
  }

  /** At most one retained session is open, and it is the one the recorder calls open. */
  lemma AtMostOneOpen(log: seq<Event>, max: nat, a: string, b: string)
    requires WellFormed(log)
    requires var m := Replay(log, max); a in m.byID && b in m.byID
    requires var m := Replay(log, max); m.byID[a].endedAt.None? && m.byID[b].endedAt.None?
    ensures a == b && Replay(log, max).open == Some(a)
  {
    ReplayMatches(log, max);
    StoriesEnd(log);
    forall id <- Replay(log, max).closed ensures Story(log, id).value.endedAt.Some? {
      LastNInside(ClosedIds(log), max, id);
    }
  }

  // ---- a story told by its events ---------------------------------------------------------------

  function NotesOf(log: seq<Event>, id: string): seq<Note> {
    if log == [] then []
    else
      var n := |log| - 1;
      NotesOf(log[..n], id)
        + if log[n].NoteAdded? && log[n].session == id then [Note(log[n].at, log[n].note)] else []
  }

  function OutcomesOf(log: seq<Event>, id: string): seq<Remark> {
    if log == [] then []
    else
      var n := |log| - 1;
      OutcomesOf(log[..n], id)
        + if log[n].OutcomeRecorded? && log[n].session == id
          then [Remark(log[n].at, log[n].exp, log[n].result, log[n].note)] else []
  }

  /** What one more event adds to a story. */
  lemma OneMoreEvent(log: seq<Event>, e: Event, id: string)
    ensures e.session != id ==> Story(log + [e], id) == Story(log, id)
    ensures e.session == id && e.Opened? ==> Story(log + [e], id) == Some(Session(id, e.title, e.at, None, [], []))
    ensures e.session == id && !e.Opened? && Story(log, id).Some? ==>
      Story(log + [e], id) == Some(Amended(Story(log, id).value, e))
    ensures NotesOf(log + [e], id)
         == NotesOf(log, id) + if e.NoteAdded? && e.session == id then [Note(e.at, e.note)] else []
    ensures OutcomesOf(log + [e], id)
         == OutcomesOf(log, id)
            + if e.OutcomeRecorded? && e.session == id then [Remark(e.at, e.exp, e.result, e.note)] else []
  {
    assert (log + [e])[..|log|] == log;
  }

  lemma {:induction false} NothingToldBefore(log: seq<Event>, id: string)
    requires WellFormed(log) && Story(log, id).None?
    ensures forall e <- log :: e.session != id
    ensures NotesOf(log, id) == [] && OutcomesOf(log, id) == []
  {
    if log != [] {
      var n := |log| - 1;
      var before, e := log[..n], log[n];
      assert log == before + [e];
      WellFormedPrefix(log, n);
      StoriesEnd(before);
      LastMayFollow(log);
      OneMoreEvent(before, e, id);
      hide Story, NotesOf, OutcomesOf, WellFormed, OpenId, ClosedIds, Amended;
      assert e.session != id;
      NothingToldBefore(before, id);
    }
  }

  /** The story `s` is the events of `id`: how it was opened and closed, its notes and its outcomes, in order. */
  ghost predicate IsTold(s: Session, log: seq<Event>, id: string) {
    && s.id == id && Opened(id, s.startedAt, s.title) in log
    && s.notes == NotesOf(log, id) && s.outcomes == OutcomesOf(log, id)
    && (s.endedAt.Some? ==> SessionClosed(id, s.endedAt.value) in log)
    && (s.endedAt.None? ==> forall e <- log :: !(e.SessionClosed? && e.session == id))
  }

  lemma ToldOn(s: Session, log: seq<Event>, e: Event, id: string)
    requires IsTold(s, log, id) && (e.session == id ==> !e.Opened? && s.endedAt.None?)
    ensures IsTold(if e.session == id then Amended(s, e) else s, log + [e], id)
  {
    OneMoreEvent(log, e, id);
    hide NotesOf, OutcomesOf, Story;
  }

  lemma {:induction false} StoryTells(log: seq<Event>, id: string)
    requires WellFormed(log) && Story(log, id).Some?
    ensures IsTold(Story(log, id).value, log, id)
  {
    var n := |log| - 1;
    var before, e := log[..n], log[n];
    assert log == before + [e];
    WellFormedPrefix(log, n);
    LastMayFollow(log);
    StoriesEnd(before);
    OneMoreEvent(before, e, id);
    if Story(before, id).Some? {
      StoryTells(before, id);
      hide Story, NotesOf, OutcomesOf, WellFormed, IsTold, Amended;
      ToldOn(Story(before, id).value, before, e, id);
    } else {
      NothingToldBefore(before, id);
      hide Story, NotesOf, OutcomesOf, WellFormed;
    }
  }

  lemma {:induction false} NotesCount(log: seq<Event>, id: string, at: int, text: string)
    ensures multiset(NotesOf(log, id))[Note(at, text)] == multiset(log)[NoteAdded(id, at, text)]
  {
    if log != [] {
      var n := |log| - 1;
      assert log == log[..n] + [log[n]];
      NotesCount(log[..n], id, at, text);
    }
  }

  lemma {:induction false} OutcomesCount(log: seq<Event>, id: string, x: Remark)
    ensures multiset(OutcomesOf(log, id))[x] == multiset(log)[OutcomeRecorded(id, x.at, x.exp, x.result, x.notes)]
  {
    if log != [] {
      var n := |log| - 1;
      assert log == log[..n] + [log[n]];
      OutcomesCount(log[..n], id, x);
    }
  }

  /** There is an opening of `id` and no closing. */
  ghost predicate StillOpen(log: seq<Event>, id: string) {
    && (exists e <- log :: e.Opened? && e.session == id)
    && forall e <- log :: !(e.SessionClosed? && e.session == id)
  }

  /** The open session is the one opened and not closed since. */
  lemma OpenIsUnclosed(log: seq<Event>, id: string)
    requires WellFormed(log)
    ensures OpenId(log) == Some(id) <==> StillOpen(log, id)
  {
    StoriesEnd(log);
    if OpenId(log) == Some(id) {
      StoryTells(log, id);
    }
    if StillOpen(log, id) {
      UnclosedIsOpen(log, id);
    }
  }

  lemma {:induction false} UnclosedIsOpen(log: seq<Event>, id: string)
    requires WellFormed(log) && StillOpen(log, id)
    ensures OpenId(log) == Some(id)
  {
    var n := |log| - 1;
    var before, e := log[..n], log[n];
    assert log == before + [e];
    WellFormedPrefix(log, n);
    LastMayFollow(log);
    if !(e.Opened? && e.session == id) {
      assert forall x <- before :: x in log;
      assert StillOpen(before, id);
      UnclosedIsOpen(before, id);
    }
  }

  /** The closed ids are the closings, in the order they happened. */
  lemma {:induction false} ClosedInOrder(log: seq<Event>, i: nat, j: nat) returns (p: nat, q: nat)
    requires i < j < |ClosedIds(log)|
    ensures p < q < |log| && log[p].SessionClosed? && log[p].session == ClosedIds(log)[i]
    ensures log[q].SessionClosed? && log[q].session == ClosedIds(log)[j]
  {
    var n := |log| - 1;
    if j < |ClosedIds(log[..n])| {
      p, q := ClosedInOrder(log[..n], i, j);
    } else {
      p := ClosingOf(log[..n], i);
      q := n;
    }
  }

  lemma {:induction false} ClosingOf(log: seq<Event>, i: nat) returns (p: nat)
    requires i < |ClosedIds(log)|
    ensures p < |log| && log[p].SessionClosed? && log[p].session == ClosedIds(log)[i]
  {
    var n := |log| - 1;
    if i < |ClosedIds(log[..n])| {
      p := ClosingOf(log[..n], i);
    } else {
      p := n;
    }
  }

  lemma {:induction false} ClosingsAreClosed(log: seq<Event>)
    ensures forall e <- log :: e.SessionClosed? ==> e.session in ClosedIds(log)
  {
    if log != [] {
      var n := |log| - 1;
      ClosingsAreClosed(log[..n]);
      assert log == log[..n] + [log[n]];
    }
  }
}
