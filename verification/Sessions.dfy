/**
 Mission Control's session recorder: what it keeps in memory is what its event log says, and a
 session's summary lists what happened in it, in order.
 */
module Sessions {
  import opened Text
  import opened Options
  import opened Fifo
  import opened Sorting
  import opened Engine
  import opened SessionLog
  import opened Timeline

  const TITLE_MAX: nat := 200
  const SESSIONS_MAX: nat := 200

  /** Bytes a character takes in UTF-8. */
  function Utf8Width(c: char): nat {
    if c < '\U{80}' then 1 else if c < '\U{800}' then 2 else if c < '\U{10000}' then 3 else 4
  }

  function Utf8Length(s: string): nat {
    if s == "" then 0 else Utf8Width(s[0]) + Utf8Length(s[1..])
  }

  /** The bytes of a title are those of its characters: one each in ASCII, more further on. */
  lemma {:induction false} Utf8LengthAdds(s: string, t: string)
    ensures Utf8Length(s + t) == Utf8Length(s) + Utf8Length(t)
    ensures (forall c <- s :: c < '\U{80}') ==> Utf8Length(s) == |s|
    ensures |s| <= Utf8Length(s) <= 4 * |s|
  {
    if s == "" {
      assert s + t == t;
    } else {
      Utf8LengthAdds(s[1..], t);
      assert (s + t)[1..] == s[1..] + t;
      assert s[0] in s && forall c <- s[1..] :: c in s;
    }
  }

  /** Where the widths change. */
  lemma Utf8Widths()
    ensures Utf8Length("\U{7F}") == 1 && Utf8Length("\U{80}") == 2 && Utf8Length("\U{7FF}") == 2
    ensures Utf8Length("\U{800}") == 3 && Utf8Length("\U{FFFF}") == 3 && Utf8Length("\U{10000}") == 4
  {
    assert forall c: char :: [c][1..] == "";
    assert forall c: char :: Utf8Length([c]) == Utf8Width(c) + Utf8Length([c][1..]);
  }

  datatype View = View(id: string, title: string, startedAt: int, endedAt: Option<int>)

  datatype Reply = Ok(view: View) | BadRequest | NotFound | AlreadyOpen(openId: string) | AlreadyClosed

  function ViewOf(s: Session): View {
    View(s.id, s.title, s.startedAt, s.endedAt)
  }

  predicate IsNote(note: Option<string>) {
    note.Some? && TrimSpace(note.value) != ""
  }

  class Recorder {
    var byID: map<string, Session>
    var open: Option<string>
    var closed: seq<string>
    var log: seq<Event>          // the event file
    const closedMax: nat

    ghost function Now(): Memory
      reads this
    {
      Memory(byID, open, closed)
    }

    /** Memory is the fold of the event file. */
    ghost predicate Valid()
      reads this
    {
      WellFormed(log) && Now() == Replay(log, closedMax)
    }

    constructor (closedMax: nat)
      ensures Valid() && log == [] && this.closedMax == closedMax
    {
      this.closedMax := closedMax;
      byID, open, closed, log := map[], None, [], [];
    }

    lemma Held()
      requires Valid()
      ensures open.Some? ==> open.value in byID
      ensures forall id <- byID :: byID[id].id == id && (byID[id].endedAt.None? <==> open == Some(id))
      ensures open == OpenId(log)
    {
      ReplayMatches(log, closedMax);
      StoriesEnd(log);
      forall id <- closed ensures byID[id].endedAt.Some? {
        LastNInside(ClosedIds(log), closedMax, id);
      }
    }

    lemma Follows(before: seq<Event>, e: Event)
      requires WellFormed(before) && MayFollow(before, e)
      ensures WellFormed(before + [e]) && Replay(before + [e], closedMax) == Apply(Replay(before, closedMax), e, closedMax)
    {
      assert (before + [e])[..|before|] == before;
      forall k | 0 <= k < |before| + 1 ensures MayFollow((before + [e])[..k], (before + [e])[k]) {
        assert (before + [e])[..k] == before[..k];
      }
    }

    method Open(title: string, newId: string, now: int) returns (r: Reply)
      requires Valid() && Story(log, newId).None?
      modifies this
      ensures Valid()
      ensures r.BadRequest? <==> TrimSpace(title) == "" || Utf8Length(TrimSpace(title)) > 200
      ensures r.AlreadyOpen? <==> !r.BadRequest? && old(open).Some?
      ensures r.AlreadyOpen? ==> old(open) == Some(r.openId)
      ensures r.Ok? ==> r.view == View(newId, TrimSpace(title), now, None) && open == Some(newId)
      ensures r.Ok? ==> log == old(log) + [Opened(newId, now, TrimSpace(title))]
      ensures !r.Ok? ==> Now() == old(Now()) && log == old(log)
      ensures !r.NotFound? && !r.AlreadyClosed?
    {
      hide TrimSpace, Utf8Length;
      var trimmed := TrimSpace(title);
      if trimmed == "" || Utf8Length(trimmed) > TITLE_MAX {
        return BadRequest;
      }
      if open.Some? {
        return AlreadyOpen(open.value);
      }
      Held();
      Follows(log, Opened(newId, now, trimmed));
      var s := Session(newId, trimmed, now, None, [], []);
      open := Some(newId);
      byID := byID[newId := s];
      log := log + [Opened(newId, now, trimmed)];
      return Ok(ViewOf(s));
    }

    method Current() returns (r: Option<View>)
      requires Valid()
      ensures r.Some? <==> OpenId(log).Some?
      ensures r.Some? ==> Story(log, OpenId(log).value).Some?
      ensures r.Some? ==> var s := Story(log, OpenId(log).value).value;
        r.value == View(OpenId(log).value, s.title, s.startedAt, None)
    {
      Held();
      ReplayMatches(log, closedMax);
      if open.None? {
        return None;
      }
      return Some(ViewOf(byID[open.value]));
    }

    /** A note and a close on one session; a rejected call changes nothing. */
    method Patch(id: string, note: Option<string>, doClose: bool, noteAt: int, closeAt: int) returns (r: Reply)
      requires Valid()
      modifies this
      ensures Valid()
      ensures r.NotFound? <==> id !in old(byID)
      ensures r.AlreadyClosed? <==> id in old(byID) && old(byID)[id].endedAt.Some?
                                    && (doClose || (note.Some? && TrimSpace(note.value) != ""))
      ensures !r.Ok? ==> Now() == old(Now()) && log == old(log)
      ensures r.Ok? ==> log == old(log)
                                + (if note.Some? && TrimSpace(note.value) != "" then [NoteAdded(id, noteAt, note.value)] else [])
                                + (if doClose then [SessionClosed(id, closeAt)] else [])
      ensures r.Ok? ==> var s := old(byID)[id];
        r.view == View(id, s.title, s.startedAt, if doClose then Some(closeAt) else s.endedAt)
      ensures !r.BadRequest? && !r.AlreadyOpen?
    {
      hide TrimSpace, Replay, WellFormed;
      Held();
      if id !in byID {
        return NotFound;
      }
      if IsNote(note) {
        if byID[id].endedAt.Some? {
          return AlreadyClosed;
        }
        AddNote(id, note.value, noteAt);
      }
      var view := ViewOf(byID[id]);
      if doClose {
        if byID[id].endedAt.Some? {
          return AlreadyClosed;
        }
        view := CloseSession(id, closeAt);
      }
      return Ok(view);
    }

    method AddNote(id: string, note: string, at: int)
      requires Valid() && id in byID && byID[id].endedAt.None?
      modifies this`byID, this`log
      ensures Valid() && id in byID
      ensures byID[id] == old(byID)[id].(notes := old(byID)[id].notes + [Note(at, note)])
      ensures log == old(log) + [NoteAdded(id, at, note)]
    {
      Held();
      Follows(log, NoteAdded(id, at, note));
      byID := byID[id := byID[id].(notes := byID[id].notes + [Note(at, note)])];
      log := log + [NoteAdded(id, at, note)];
    }

    method CloseSession(id: string, at: int) returns (view: View)
      requires Valid() && id in byID && byID[id].endedAt.None?
      modifies this
      ensures Valid() && open.None?
      ensures view == ViewOf(old(byID)[id]).(endedAt := Some(at))
      ensures log == old(log) + [SessionClosed(id, at)]
    {
      Held();
      Follows(log, SessionClosed(id, at));
      ApplyClosed(Now(), id, at, closedMax);
      hide Replay, WellFormed, LastN, MayFollow, Apply, Ids;
      byID := byID[id := byID[id].(endedAt := Some(at))];
      view := ViewOf(byID[id]);
      if open == Some(id) {
        open := None;
      }
      closed := closed + [id];
      Evict();
      log := log + [SessionClosed(id, at)];
    }

    method Evict()
      modifies this`byID, this`closed
      ensures closed == LastN(old(closed), closedMax)
      ensures byID == old(byID) - Ids(old(closed)[..|old(closed)| - |closed|])
    {
      ghost var all := closed;
      while |closed| > closedMax
        invariant |closed| <= |all| && closed == all[|all| - |closed|..]
        invariant |closed| >= |LastN(all, closedMax)|
        invariant byID == old(byID) - Ids(all[..|all| - |closed|])
      {
        ghost var cut := |all| - |closed|;
        assert all[..cut + 1] == all[..cut] + [closed[0]];
        byID := byID - {closed[0]};
        closed := closed[1..];
      }
    }

    /** Outcomes go to the open session, if there is one. */
    method RecordOutcome(exp: string, result: string, notes: string, at: int)
      requires Valid()
      modifies this`byID, this`log
      ensures Valid()
      ensures old(open).None? ==> Now() == old(Now()) && log == old(log)
      ensures old(open).Some? ==> log == old(log) + [OutcomeRecorded(open.value, at, exp, result, notes)]
    {
      Held();
      if open.None? {
        return;
      }
      var id := open.value;
      Follows(log, OutcomeRecorded(id, at, exp, result, notes));
      byID := byID[id := byID[id].(outcomes := byID[id].outcomes + [Remark(at, exp, result, notes)])];
      log := log + [OutcomeRecorded(id, at, exp, result, notes)];
    }

    /** The timeline of a retained session; the window of an open one ends now. */
    method Summary(id: string, runs: seq<Record>, now: int) returns (r: Option<seq<Item>>)
      requires Valid()
      ensures r.Some? <==> OpenId(log) == Some(id) || id in LastN(ClosedIds(log), closedMax)
      ensures r.Some? ==> Story(log, id).Some? && IsTimeline(r.value, Happened(Story(log, id).value, runs, now))
      ensures r.Some? ==> var s := Story(log, id).value;
        && (forall i, j :: 0 <= i < j < |r.value| ==> r.value[i].at <= r.value[j].at)
        && Chronological(r.value, log, id, runs)
        && Complete(r.value, log, id, runs, s.startedAt, if s.endedAt.Some? then s.endedAt.value else now)
        && Opened(id, s.startedAt, s.title) in log
        && (s.endedAt.Some? ==> SessionClosed(id, s.endedAt.value) in log)
        && (s.endedAt.None? ==> forall e <- log :: !(e.SessionClosed? && e.session == id))
    {
      hide Story, Complete, Chronological, IsTimeline, Happened, LastN;
      ReplayMatches(log, closedMax);
      if id !in byID {
        return None;
      }
      var s := byID[id];
      var items := Render(s, runs, now);
      StoryTells(log, id);
      TimelineTells(log, id, runs, now, items);
      InOrderOfTime(items, log, id, runs);
      return Some(items);
    }

    method Render(s: Session, runs: seq<Record>, now: int) returns (items: seq<Item>)
      ensures IsTimeline(items, Happened(s, runs, now))
    {
      var end := if s.endedAt.Some? then s.endedAt.value else now;
      items := [];
      for i := 0 to |runs|
        invariant items == InWindow(runs[..i], s.startedAt, end)
      {
        InWindowAppend(runs[..i], runs[i], s.startedAt, end);
        assert runs[..i + 1] == runs[..i] + [runs[i]];
        if !(runs[i].startedAt < s.startedAt || end < runs[i].startedAt) {
          items := items + [ActionItem(runs[i].startedAt, runs[i])];
        }
      }
      assert runs[..|runs|] == runs;
      items := items + Outcomes(s.outcomes) + Notes(s.notes);
      StableSortSorts(items, TimeOf);
      items := StableSort(items, TimeOf);
    }
  }
}
