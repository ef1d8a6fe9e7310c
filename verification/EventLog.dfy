/** The event table shared by all runs, and readers that follow one run with a cursor. */
module EventLog {

  datatype Event = Event(runId: string, sequence: int, message: string)

  /** `SELECT max(sequence) WHERE run_id = ...`, with 0 when there is no row. */
  function MaxSequence(table: seq<Event>, runId: string): (m: int)
    ensures m >= 0
    ensures forall i :: 0 <= i < |table| && table[i].runId == runId ==> table[i].sequence <= m
  {
    if table == [] then 0
    else
      var front, last := table[..|table| - 1], table[|table| - 1];
      var m := MaxSequence(front, runId);
      if last.runId == runId && last.sequence > m then last.sequence else m
  }

  /** `append_event`: one atomic step under the event lock. */
  function Appended(table: seq<Event>, runId: string, message: string): seq<Event> {
    table + [Event(runId, MaxSequence(table, runId) + 1, message)]
  }

  /** The events of one run, in table order. */
  function LogOf(table: seq<Event>, runId: string): (events: seq<Event>)
    ensures forall e :: e in events <==> e in table && e.runId == runId
  {
    if table == [] then []
    else
      var front, last := table[..|table| - 1], table[|table| - 1];
      assert forall e :: e in table <==> e in front || e == last;
      LogOf(front, runId) + if last.runId == runId then [last] else []
  }

  /** The sequences of every run are 1, 2, ... n without a gap. */
  ghost predicate Gapless(table: seq<Event>) {
    forall runId, i :: 0 <= i < |LogOf(table, runId)| ==> LogOf(table, runId)[i].sequence == i + 1
  }

  /** Tables that some appends, to any runs, lead to. */
  ghost predicate Reaches(before: seq<Event>, after: seq<Event>, appends: seq<(string, string)>)
    decreases |appends|
  {
    if appends == [] then before == after
    else Reaches(Appended(before, appends[0].0, appends[0].1), after, appends[1..])
  }

  lemma LogOfAppended(table: seq<Event>, runId: string, message: string, other: string)
    ensures var e := Event(runId, MaxSequence(table, runId) + 1, message);
            LogOf(Appended(table, runId, message), other) == LogOf(table, other) + if other == runId then [e] else []
  {
    var after := Appended(table, runId, message);
    assert after[..|after| - 1] == table;
  }

  lemma {:induction false} MaxIsLength(table: seq<Event>, runId: string)
    requires forall i :: 0 <= i < |LogOf(table, runId)| ==> LogOf(table, runId)[i].sequence == i + 1
    ensures MaxSequence(table, runId) == |LogOf(table, runId)|
  {
    if table != [] {
      var front, last := table[..|table| - 1], table[|table| - 1];
      assert forall i :: 0 <= i < |LogOf(front, runId)| ==> LogOf(front, runId)[i] == LogOf(table, runId)[i];
      MaxIsLength(front, runId);
      if last.runId == runId {
        assert LogOf(table, runId)[|LogOf(front, runId)|] == last;
      }
    }
  }

  lemma AppendKeepsGapless(table: seq<Event>, runId: string, message: string)
    requires Gapless(table)
    ensures Gapless(Appended(table, runId, message))
  {
    var after := Appended(table, runId, message);
    forall other, i | 0 <= i < |LogOf(after, other)|
      ensures LogOf(after, other)[i].sequence == i + 1
    {
      LogOfAppended(table, runId, message, other);
      if other == runId { MaxIsLength(table, runId); }
    }
  }

  /** Any interleaving of appends keeps every run's log gapless and only extends it. */
  lemma {:induction false} AppendsKeepLogs(before: seq<Event>, after: seq<Event>, appends: seq<(string, string)>)
    requires Gapless(before) && Reaches(before, after, appends)
    ensures Gapless(after) && forall runId :: LogOf(before, runId) <= LogOf(after, runId)
    decreases |appends|
  {
    if appends != [] {
      var (runId, message) := appends[0];
      var next := Appended(before, runId, message);
      AppendKeepsGapless(before, runId, message);
      AppendsKeepLogs(next, after, appends[1..]);
      forall other
        ensures LogOf(before, other) <= LogOf(after, other)
      {
        LogOfAppended(before, runId, message, other);
      }
    }
  }

  /** `ORDER BY sequence`: a row goes behind those of no greater sequence. */
  function InOrder(events: seq<Event>, e: Event): seq<Event> {
    if events == [] || events[|events| - 1].sequence <= e.sequence then events + [e]
    else InOrder(events[..|events| - 1], e) + [events[|events| - 1]]
  }

  /** `SELECT ... WHERE run_id = ... AND sequence > after ORDER BY sequence`. */
  function Listing(table: seq<Event>, runId: string, after: int): seq<Event> {
    if table == [] then []
    else
      var rows, last := Listing(table[..|table| - 1], runId, after), table[|table| - 1];
      if last.runId == runId && last.sequence > after then InOrder(rows, last) else rows
  }

  /** The part of a log after a cursor. */
  function Rest(log: seq<Event>, after: nat): seq<Event> {
    if after <= |log| then log[after..] else []
  }

  /** Of a gapless run the query lists the log from the cursor on, already in order. */
  lemma {:induction false} ListingIsRest(table: seq<Event>, runId: string, after: nat)
    requires forall i :: 0 <= i < |LogOf(table, runId)| ==> LogOf(table, runId)[i].sequence == i + 1
    ensures Listing(table, runId, after) == Rest(LogOf(table, runId), after)
  {
    if table != [] {
      var front, last := table[..|table| - 1], table[|table| - 1];
      var log, shorter := LogOf(table, runId), LogOf(front, runId);
      assert forall i :: 0 <= i < |shorter| ==> shorter[i] == log[i];
      ListingIsRest(front, runId, after);
      if last.runId == runId {
        assert log == shorter + [last] && log[|shorter|] == last;
        RestGrows(shorter, last, after);
      }
    }
  }

  lemma RestGrows(log: seq<Event>, e: Event, after: nat)
    requires e.sequence == |log| + 1 && forall i :: 0 <= i < |log| ==> log[i].sequence == i + 1
    ensures Rest(log + [e], after) == if e.sequence > after then InOrder(Rest(log, after), e) else Rest(log, after)
  {
    var rows := Rest(log, after);
    if rows != [] { assert rows[|rows| - 1] == log[|log| - 1]; }
    if e.sequence > after { assert (log + [e])[after..] == rows + [e]; }
  }

  /** The events table; an append holds the event lock and one session. */
  class Database {
    var events: seq<Event>

    constructor ()
      ensures events == [] && Gapless(events)
    {
      events := [];
    }

    /** Gives the event the next sequence of its run, whatever the other runs hold. */
    method AppendEvent(runId: string, message: string) returns (e: Event)
      requires Gapless(events)
      modifies this
      ensures events == Appended(old(events), runId, message) && Gapless(events)
      ensures e == Event(runId, |LogOf(old(events), runId)| + 1, message)
      ensures forall other :: LogOf(events, other) == LogOf(old(events), other) + if other == runId then [e] else []
    {
      MaxIsLength(events, runId);
      AppendKeepsGapless(events, runId, message);
      e := Event(runId, MaxSequence(events, runId) + 1, message);
      forall other
        ensures LogOf(events + [e], other) == LogOf(events, other) + if other == runId then [e] else []
      {
        LogOfAppended(events, runId, message, other);
      }
      events := events + [e];
    }
  }

  // ---------------------------------------------------------------- a reader

  /**
   * One round of the stream: the table when it lists, and the table when it then checks the
   * status, which may have grown in between; and what the check finds.
   */
  datatype Poll = Poll(listed: seq<Event>, checked: seq<Event>, runExists: bool, runTerminal: bool, taskRunning: bool)

  /** Between a listing and a check and between two rounds, other activities append. */
  ghost predicate Follows(polls: seq<Poll>) {
    && (forall i :: 0 <= i < |polls| ==> Grows(polls[i].listed, polls[i].checked))
    && (forall i :: 0 < i < |polls| ==> Grows(polls[i - 1].checked, polls[i].listed))
  }

  ghost predicate Grows(before: seq<Event>, after: seq<Event>) {
    exists appends :: Reaches(before, after, appends)
  }

  class Reader {
    var sequence: int
    var yielded: seq<Event>

    constructor ()
      ensures sequence == 0 && yielded == []
    {
      sequence := 0;
      yielded := [];
    }

    /** One poll: yield what the query lists one by one, moving the cursor along. */
    method Drain(table: seq<Event>, runId: string) returns (listed: nat)
      requires Gapless(table) && 0 <= sequence <= |LogOf(table, runId)|
      requires yielded == LogOf(table, runId)[..sequence]
      modifies this
      ensures yielded == LogOf(table, runId) && sequence == |LogOf(table, runId)|
      ensures listed == |yielded| - |old(yielded)|
    {
      ghost var log := LogOf(table, runId);
      ghost var start := sequence;
      ListingIsRest(table, runId, start);
      var events := Listing(table, runId, sequence);
      for i := 0 to |events|
        invariant sequence == start + i && yielded == log[..start + i] && events == log[start..]
      {
        assert events[i] == log[start + i];
        sequence := events[i].sequence;
        yielded := yielded + [events[i]];
      }
      assert log[..|log|] == log;
      listed := |events|;
    }
  }

  /** Rounds after which a stream may stop. */
  predicate Stopped(p: Poll) { !p.runExists || p.runTerminal }

  /** The loop ends when the run is gone, or terminal with nothing new listed. */
  predicate Ends(p: Poll, nothingNew: bool) {
    !p.runExists || (p.runTerminal && nothingNew)
  }

  /** The round of the last listing: that in which the loop ends, or one more when its task was still running. */
  function LastListing(polls: seq<Poll>, runId: string, i: nat, cursor: nat): (last: nat)
    requires i < |polls|
    ensures i <= last < |polls|
    ensures last + 1 < |polls| ==> Stopped(polls[last]) || (last > i && Stopped(polls[last - 1]))
    decreases |polls| - i
  {
    var size := |LogOf(polls[i].listed, runId)|;
    if i + 1 == |polls| then i
    else if !Ends(polls[i], size <= cursor) then LastListing(polls, runId, i + 1, size)
    else if polls[i].runExists && polls[i].taskRunning then i + 1
    else i
  }

  /** What the listing of a round adds to that of the round before. */
  predicate NothingNew(polls: seq<Poll>, runId: string, i: nat)
    requires i < |polls|
  {
    LogOf(polls[i].listed, runId) == if i == 0 then [] else LogOf(polls[i - 1].listed, runId)
  }

  /** Round `e` is the first in which the run is gone, or is terminal and nothing new was listed, or the last observed. */
  predicate LoopEndsIn(polls: seq<Poll>, runId: string, e: nat)
    requires e < |polls|
  {
    && (forall i :: 0 <= i < e ==> polls[i].runExists && (polls[i].runTerminal ==> !NothingNew(polls, runId, i)))
    && (e + 1 == |polls| || !polls[e].runExists || (polls[e].runTerminal && NothingNew(polls, runId, e)))
  }

  /** With no end before round `i`, its cursor is where the listing before it stopped. */
  lemma {:induction false} LastAfterEnd(polls: seq<Poll>, runId: string, i: nat, cursor: nat, e: nat)
    requires Follows(polls) && i <= e < |polls| && Gapless(polls[i].listed) && LoopEndsIn(polls, runId, e)
    requires NothingNew(polls, runId, i) <==> |LogOf(polls[i].listed, runId)| <= cursor
    ensures LastListing(polls, runId, i, cursor)
         == if e + 1 < |polls| && polls[e].runExists && polls[e].taskRunning then e + 1 else e
    decreases e - i
  {
    hide Follows, Gapless, LogOf;
    if i < e {
      CatchUp(polls, i, runId);
      LastAfterEnd(polls, runId, i + 1, |LogOf(polls[i].listed, runId)|, e);
    }
  }

  /** When the loop ends in a round in which the run's task is still running, one more listing follows, and none otherwise. */
  lemma LastListingExactly(polls: seq<Poll>, runId: string)
    requires polls != [] && Gapless(polls[0].listed) && Follows(polls)
    ensures exists e :: 0 <= e < |polls| && LoopEndsIn(polls, runId, e)
    ensures forall e :: 0 <= e < |polls| && LoopEndsIn(polls, runId, e) ==>
              LastListing(polls, runId, 0, 0) == if e + 1 < |polls| && polls[e].runExists && polls[e].taskRunning then e + 1 else e
  {
    forall e | 0 <= e < |polls| && LoopEndsIn(polls, runId, e)
      ensures LastListing(polls, runId, 0, 0) == if e + 1 < |polls| && polls[e].runExists && polls[e].taskRunning then e + 1 else e
    {
      LastAfterEnd(polls, runId, 0, 0, e);
    }
    var _ := EndRound(polls, runId, 0);
  }

  lemma {:induction false} EndRound(polls: seq<Poll>, runId: string, i: nat) returns (e: nat)
    requires i < |polls|
    requires forall k :: 0 <= k < i ==> polls[k].runExists && (polls[k].runTerminal ==> !NothingNew(polls, runId, k))
    ensures e < |polls| && LoopEndsIn(polls, runId, e)
    decreases |polls| - i
  {
    hide NothingNew;
    if i + 1 == |polls| || !polls[i].runExists || (polls[i].runTerminal && NothingNew(polls, runId, i)) {
      e := i;
    } else {
      e := EndRound(polls, runId, i + 1);
    }
  }

  /** None of these appends is to the run. */
  predicate NoneTo(appends: seq<(string, string)>, runId: string) {
    forall i :: 0 <= i < |appends| ==> appends[i].0 != runId
  }

  /** A run's log is the same after some appends exactly when none of them was to the run. */
  lemma {:induction false} SameLogExactly(before: seq<Event>, after: seq<Event>, appends: seq<(string, string)>, runId: string)
    requires Gapless(before) && Reaches(before, after, appends)
    ensures LogOf(after, runId) == LogOf(before, runId) <==> NoneTo(appends, runId)
    decreases |appends|
  {
    if appends != [] {
      var (other, message) := appends[0];
      var next, rest := Appended(before, other, message), appends[1..];
      AppendKeepsGapless(before, other, message);
      LogOfAppended(before, other, message, runId);
      SameLogExactly(next, after, rest, runId);
      AppendsKeepLogs(next, after, rest);
      assert NoneTo(appends, runId) <==> other != runId && NoneTo(rest, runId) by {
        assert forall i :: 0 <= i < |rest| ==> rest[i] == appends[i + 1];
      }
      assert LogOf(next, runId) <= LogOf(after, runId);
    }
  }

  /**
   * `stream_events`: whatever is appended between its listings and checks, the events it yields
   * are those of the run's log up to its last listing - no gap, no duplicate, no reordering. It
   * has yielded the whole of a later log exactly when nothing was appended to the run since.
   */
  method StreamEvents(runId: string, polls: seq<Poll>) returns (yielded: seq<Event>)
    requires polls != [] && Gapless(polls[0].listed) && Follows(polls)
    ensures var last := polls[LastListing(polls, runId, 0, 0)].listed;
            && yielded == LogOf(last, runId)
            && forall later, appends :: Reaches(last, later, appends) ==>
                 yielded <= LogOf(later, runId) && (yielded == LogOf(later, runId) <==> NoneTo(appends, runId))
    ensures yielded <= LogOf(polls[|polls| - 1].checked, runId)
  {
    var reader := new Reader();
    var i := 0;
    ghost var cursor: nat := 0;
    var listed := reader.Drain(polls[0].listed, runId);
    while i + 1 < |polls| && !Ends(polls[i], listed == 0)
      invariant i < |polls| && fresh(reader) && Gapless(polls[i].listed)
      invariant reader.yielded == LogOf(polls[i].listed, runId) && reader.sequence == |reader.yielded|
      invariant cursor + listed == |reader.yielded|
      invariant LastListing(polls, runId, i, cursor) == LastListing(polls, runId, 0, 0)
      decreases |polls| - i
    {
      CatchUp(polls, i, runId);
      cursor := |reader.yielded|;
      listed := reader.Drain(polls[i + 1].listed, runId);
      i := i + 1;
    }
    if i + 1 < |polls| && polls[i].runExists && polls[i].taskRunning {
      CatchUp(polls, i, runId);
      listed := reader.Drain(polls[i + 1].listed, runId);
      i := i + 1;
    }
    yielded := reader.yielded;
    LastExtends(polls, i, runId);
    forall later, appends | Reaches(polls[i].listed, later, appends)
      ensures yielded <= LogOf(later, runId) && (yielded == LogOf(later, runId) <==> NoneTo(appends, runId))
    {
      AppendsKeepLogs(polls[i].listed, later, appends);
      SameLogExactly(polls[i].listed, later, appends, runId);
    }
  }

  lemma GrowthKeeps(before: seq<Event>, after: seq<Event>, runId: string)
    requires Gapless(before) && Grows(before, after)
    ensures Gapless(after) && LogOf(before, runId) <= LogOf(after, runId)
  {
    var appends :| Reaches(before, after, appends);
    AppendsKeepLogs(before, after, appends);
  }

  /** The next listing is gapless and extends what was yielded so far. */
  lemma CatchUp(polls: seq<Poll>, i: nat, runId: string)
    requires i + 1 < |polls| && Follows(polls) && Gapless(polls[i].listed)
    ensures Gapless(polls[i + 1].listed)
    ensures LogOf(polls[i].listed, runId) <= LogOf(polls[i + 1].listed, runId)
  {
    GrowthKeeps(polls[i].listed, polls[i].checked, runId);
    assert Grows(polls[i + 1 - 1].checked, polls[i + 1].listed);
    GrowthKeeps(polls[i].checked, polls[i + 1].listed, runId);
  }

  lemma {:induction false} LastExtends(polls: seq<Poll>, i: nat, runId: string)
    requires i < |polls| && Follows(polls) && Gapless(polls[i].listed)
    ensures LogOf(polls[i].listed, runId) <= LogOf(polls[|polls| - 1].checked, runId)
    decreases |polls| - i
  {
    if i + 1 < |polls| {
      CatchUp(polls, i, runId);
      LastExtends(polls, i + 1, runId);
    } else {
      GrowthKeeps(polls[i].listed, polls[i].checked, runId);
    }
  }

  /**
   * A listing and the status check after it are two steps: when the last event is appended and the
   * run's task finishes between them, the stream stops without that event.
   */
  lemma LastEventMissed(table: seq<Event>, runId: string, message: string)
    requires Gapless(table)
    ensures var after := Appended(table, runId, message);
            var polls := [Poll(table, table, true, false, true), Poll(table, after, true, true, false),
                          Poll(after, after, true, true, false)];
            && Follows(polls) && LastListing(polls, runId, 0, 0) == 1
            && |LogOf(polls[1].listed, runId)| + 1 == |LogOf(polls[2].checked, runId)|
  {
    var after := Appended(table, runId, message);
    LogOfAppended(table, runId, message, runId);
    hide LogOf, Appended, MaxSequence;
    assert Reaches(table, table, []) && Reaches(after, after, []);
    assert Reaches(table, after, [(runId, message)]) by {
      assert [(runId, message)][1..] == [];
    }
    hide Reaches;
    ThreeRounds(table, after, runId);
  }

  lemma ThreeRounds(table: seq<Event>, after: seq<Event>, runId: string)
    requires Grows(table, table) && Grows(table, after) && Grows(after, after)
    requires |LogOf(after, runId)| == |LogOf(table, runId)| + 1
    ensures var polls := [Poll(table, table, true, false, true), Poll(table, after, true, true, false),
                          Poll(after, after, true, true, false)];
            Follows(polls) && LastListing(polls, runId, 0, 0) == 1
  {
    hide LogOf, Grows;
    var polls := [Poll(table, table, true, false, true), Poll(table, after, true, true, false),
                  Poll(after, after, true, true, false)];
    assert LastListing(polls, runId, 1, |LogOf(table, runId)|) == 1;
  }
}
