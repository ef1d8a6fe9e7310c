/** Which rows an acknowledging transport drains, and which of them a restart recovers. */
module DeliveryRecovery {
  import opened DeliveryOutbox
  import opened DeliveryWorker
  import opened DeliveryProtocol
  import opened DeliveryBounds

  /** Waiting rows that may not be sent any more and come before this one. */
  function OlderExhausted(t: Table, id: string, maxAttempts: nat): set<string>
    requires id in t
  {
    set x | x in ExhaustedIds(t, maxAttempts) && SequenceOf(t, x) < SequenceOf(t, id)
  }

  /** Waiting rows that may be sent and come before this one. */
  function OlderFresh(t: Table, id: string, maxAttempts: nat): set<string>
    requires id in t
  {
    set x | x in FreshIds(t, maxAttempts) && SequenceOf(t, x) < SequenceOf(t, id)
  }

  /** No other row has the sequence of this one. */
  ghost predicate OwnSequence(t: Table, id: string)
    requires id in t
  {
    forall x :: x in t && x != id ==> SequenceOf(t, x) != SequenceOf(t, id)
  }

  // ---------------------------------------------------------------- one flush

  lemma BatchIds(t: Table, batch: seq<Row>, limit: nat, maxAttempts: nat)
    requires IsBatch(t, batch, limit)
    ensures |IdsOf(batch)| <= limit && IdsOf(batch) <= WaitingIds(t)
    ensures IdsOf(batch) != WaitingIds(t) ==> |IdsOf(batch)| == limit
    ensures forall x, y :: x in IdsOf(batch) && y in WaitingIds(t) - IdsOf(batch) ==> SequenceOf(t, x) <= SequenceOf(t, y)
  {
    IdsCount(batch);
    if |IdsOf(batch)| == |WaitingIds(t)| { SubsetEqual(IdsOf(batch), WaitingIds(t)); }
  }

  /** A row with `limit` exhausted rows before it is not selected. */
  lemma NotSelected(t: Table, id: string, ids: set<string>, limit: nat, maxAttempts: nat)
    requires id in t && |ids| <= limit <= |OlderExhausted(t, id, maxAttempts)| && ids <= WaitingIds(t)
    requires forall x, y :: x in ids && y in WaitingIds(t) - ids ==> SequenceOf(t, x) <= SequenceOf(t, y)
    ensures id !in ids
  {
    if id in ids {
      var older := OlderExhausted(t, id, maxAttempts);
      forall x | x in older
        ensures x in ids - {id}
      {
        assert x in WaitingIds(t);
      }
      SubsetSize(older, ids - {id});
    }
  }

  /** A row that a flush passes over although fewer exhausted rows than slots come before it: an older fresh row is selected. */
  lemma OlderSelected(t: Table, id: string, ids: set<string>, limit: nat, maxAttempts: nat)
    requires id in t && OwnSequence(t, id) && |ids| == limit && ids <= WaitingIds(t) && id in WaitingIds(t) - ids
    requires forall x, y :: x in ids && y in WaitingIds(t) - ids ==> SequenceOf(t, x) <= SequenceOf(t, y)
    requires |OlderExhausted(t, id, maxAttempts)| < limit
    ensures exists x :: x in ids && x in OlderFresh(t, id, maxAttempts)
  {
    var older := OlderExhausted(t, id, maxAttempts);
    if ids <= older { SubsetSize(ids, older); }
    var x :| x in ids && x !in older;
    assert SequenceOf(t, x) < SequenceOf(t, id);
    assert x in OlderFresh(t, id, maxAttempts);
  }

  /** A flush leaves a row's place among the others alone. */
  lemma PlaceKept(t: Table, after: Table, ids: set<string>, id: string, maxAttempts: nat)
    requires FreshTaken(t, after, ids, maxAttempts) && id in after && OwnSequence(t, id)
    requires FreshIds(after, maxAttempts) == FreshIds(t, maxAttempts) - ids
    requires ExhaustedIds(after, maxAttempts) == ExhaustedIds(t, maxAttempts)
    ensures OwnSequence(after, id) && OlderExhausted(after, id, maxAttempts) == OlderExhausted(t, id, maxAttempts)
    ensures OlderFresh(after, id, maxAttempts) == OlderFresh(t, id, maxAttempts) - ids
    ensures id in FreshIds(after, maxAttempts) <==> id in FreshIds(t, maxAttempts)
  {
    assert forall x :: x in ExhaustedIds(after, maxAttempts) ==> x in after;
    assert forall x :: x in FreshIds(after, maxAttempts) ==> x in after;
    assert forall x :: x in after ==> SequenceOf(after, x) == SequenceOf(t, x);
    hide FreshIds, ExhaustedIds;
  }

  /** One acknowledged flush, seen from one row. */
  lemma FlushMeets(t: Table, after: Table, limit: nat, maxAttempts: nat, id: string)
    requires TableOk(t) && Drains(t, after, limit, maxAttempts) && id in t && OwnSequence(t, id)
    ensures id !in after ==> id in FreshIds(t, maxAttempts) && |OlderExhausted(t, id, maxAttempts)| < limit
    ensures id in after ==>
              && OwnSequence(after, id) && OlderExhausted(after, id, maxAttempts) == OlderExhausted(t, id, maxAttempts)
              && (id in FreshIds(after, maxAttempts) <==> id in FreshIds(t, maxAttempts))
              && (id in FreshIds(t, maxAttempts) && |OlderExhausted(t, id, maxAttempts)| < limit ==>
                    OlderFresh(after, id, maxAttempts) < OlderFresh(t, id, maxAttempts))
  {
    hide TableOk, IsBatch, FlushRows, AllAcknowledged, FreshTaken, FreshIds, ExhaustedIds, OwnSequence, WaitingIds;
    hide OlderExhausted, OlderFresh;
    var batch, answers: seq<Answer> :| IsBatch(t, batch, limit) && |answers| >= |batch| && AllAcknowledged(answers)
      && after == FlushRows(t, batch, answers, maxAttempts);
    var ids := IdsOf(batch);
    BatchRemoves(t, batch, answers, limit, maxAttempts);
    BatchIds(t, batch, limit, maxAttempts);
    hide IdsOf;
    TakenExactly(t, after, ids, id, maxAttempts);
    if id !in after {
      if limit <= |OlderExhausted(t, id, maxAttempts)| { NotSelected(t, id, ids, limit, maxAttempts); }
    } else {
      PlaceKept(t, after, ids, id, maxAttempts);
      if id in FreshIds(t, maxAttempts) && |OlderExhausted(t, id, maxAttempts)| < limit {
        OlderSelected(t, id, ids, limit, maxAttempts);
      }
    }
  }

  lemma TakenExactly(t: Table, after: Table, ids: set<string>, id: string, maxAttempts: nat)
    requires FreshTaken(t, after, ids, maxAttempts) && id in t
    ensures id !in after <==> id in ids && id in FreshIds(t, maxAttempts)
    ensures id in FreshIds(t, maxAttempts) ==> id in WaitingIds(t)
  {
  }

  // ---------------------------------------------------------------- a run of flushes

  /** A row that is not fresh, or has `limit` exhausted rows before it, is never drained. */
  lemma {:induction false} Starves(ts: seq<Table>, limit: nat, maxAttempts: nat, id: string)
    requires DrainRun(ts, limit, maxAttempts) && id in ts[0] && OwnSequence(ts[0], id)
    requires id !in FreshIds(ts[0], maxAttempts) || |OlderExhausted(ts[0], id, maxAttempts)| >= limit
    ensures id in ts[|ts| - 1]
    decreases |ts|
  {
    if |ts| > 1 {
      hide TableOk, FreshIds, OlderExhausted, OlderFresh, OwnSequence, Drains;
      RestDrains(ts, limit, maxAttempts);
      DrainStep(ts[0], ts[1], limit, maxAttempts);
      FlushMeets(ts[0], ts[1], limit, maxAttempts, id);
      Starves(ts[1..], limit, maxAttempts, id);
    }
  }

  lemma {:induction false} StaysGone(ts: seq<Table>, limit: nat, maxAttempts: nat, id: string)
    requires DrainRun(ts, limit, maxAttempts) && id !in ts[0]
    ensures id !in ts[|ts| - 1]
    decreases |ts|
  {
    if |ts| > 1 {
      RestDrains(ts, limit, maxAttempts);
      DrainStep(ts[0], ts[1], limit, maxAttempts);
      DrainShrinks(ts[0], ts[1], limit, maxAttempts);
      hide TableOk, Drains;
      StaysGone(ts[1..], limit, maxAttempts, id);
    }
  }

  lemma DrainShrinks(t: Table, after: Table, limit: nat, maxAttempts: nat)
    requires TableOk(t) && Drains(t, after, limit, maxAttempts)
    ensures after.Keys <= t.Keys
  {
    hide TableOk, IsBatch, FlushRows, AllAcknowledged;
    var batch, answers: seq<Answer> :| IsBatch(t, batch, limit) && |answers| >= |batch| && AllAcknowledged(answers)
      && after == FlushRows(t, batch, answers, maxAttempts);
    BatchRemoves(t, batch, answers, limit, maxAttempts);
  }

  /** Otherwise it is drained once every older fresh row may have been. */
  lemma {:induction false} Drained(ts: seq<Table>, limit: nat, maxAttempts: nat, id: string)
    requires DrainRun(ts, limit, maxAttempts) && id in ts[0] && OwnSequence(ts[0], id)
    requires id in FreshIds(ts[0], maxAttempts) && |OlderExhausted(ts[0], id, maxAttempts)| < limit
    requires |OlderFresh(ts[0], id, maxAttempts)| + 1 < |ts|
    ensures id !in ts[|ts| - 1]
    decreases |ts|
  {
    hide TableOk, FreshIds, OlderExhausted, OlderFresh, OwnSequence, Drains;
    RestDrains(ts, limit, maxAttempts);
    DrainStep(ts[0], ts[1], limit, maxAttempts);
    FlushMeets(ts[0], ts[1], limit, maxAttempts, id);
    if id in ts[1] {
      SmallerSet(OlderFresh(ts[1], id, maxAttempts), OlderFresh(ts[0], id, maxAttempts));
      Drained(ts[1..], limit, maxAttempts, id);
    } else {
      StaysGone(ts[1..], limit, maxAttempts, id);
    }
  }

  /**
   * Acknowledged flushes, as many as there are fresh rows, drain a row exactly when it is fresh
   * and fewer exhausted rows than slots come before it.
   */
  lemma DrainedExactly(ts: seq<Table>, limit: nat, maxAttempts: nat, id: string)
    requires DrainRun(ts, limit, maxAttempts) && |FreshIds(ts[0], maxAttempts)| < |ts|
    requires id in ts[0] && OwnSequence(ts[0], id)
    ensures id !in ts[|ts| - 1] <==>
              id in FreshIds(ts[0], maxAttempts) && |OlderExhausted(ts[0], id, maxAttempts)| < limit
  {
    if id in FreshIds(ts[0], maxAttempts) && |OlderExhausted(ts[0], id, maxAttempts)| < limit {
      var older, live := OlderFresh(ts[0], id, maxAttempts), FreshIds(ts[0], maxAttempts);
      assert older < live by { assert id in live && id !in older; }
      SmallerSet(older, live);
      hide DrainRun, OwnSequence;
      Drained(ts, limit, maxAttempts, id);
    } else {
      hide DrainRun, OwnSequence;
      Starves(ts, limit, maxAttempts, id);
    }
  }

  // ---------------------------------------------------------------- after a restart

  lemma RowsOwnSequences(w: World, id: string)
    requires RowsOk(w) && SequencesOk(w) && id in w.rows
    ensures OwnSequence(w.rows, id)
  {
    forall x | x in w.rows && x != id
      ensures SequenceOf(w.rows, x) != SequenceOf(w.rows, id)
    {
      assert w.rows[x].envelope in w.appended && w.rows[id].envelope in w.appended;
      assert w.rows[x].envelope.id == x && w.rows[id].envelope.id == id;
    }
  }

  /**
   * After a crash in any reachable state, flushes with a transport that acknowledges everything
   * recover a row exactly when it was waiting, not exhausted, and fewer than `batchSize`
   * exhausted rows come before it. Rows that were SENT are not among them.
   */
  lemma RecoveredExactly(c: Config, steps: seq<Step>, ts: seq<Table>, id: string)
    requires Legal(c, Start, steps) && id in Run(c, Start, steps).rows
    requires DrainRun(ts, c.batchSize, c.maxAttempts) && ts[0] == Apply(c, Run(c, Start, steps), Crash).rows
    requires |FreshIds(ts[0], c.maxAttempts)| < |ts|
    ensures var rows := Run(c, Start, steps).rows;
            id !in ts[|ts| - 1] <==>
              && Waiting(rows[id]) && !Exhausted(rows[id], c.maxAttempts)
              && |OlderExhausted(rows, id, c.maxAttempts)| < c.batchSize
  {
    hide *;
    StartSequences();
    RunKeepsInv(c, Start, steps);
    RunKeepsSequences(c, Start, steps);
    DrainedAfterCrash(c, Run(c, Start, steps), ts, id);
  }

  lemma StartSequences()
    ensures Inv(Start) && SequencesOk(Start)
  {
  }

  lemma DrainedAfterCrash(c: Config, w: World, ts: seq<Table>, id: string)
    requires Inv(w) && SequencesOk(w) && id in w.rows
    requires DrainRun(ts, c.batchSize, c.maxAttempts) && ts[0] == Apply(c, w, Crash).rows
    requires |FreshIds(ts[0], c.maxAttempts)| < |ts|
    ensures id !in ts[|ts| - 1] <==>
              && Waiting(w.rows[id]) && !Exhausted(w.rows[id], c.maxAttempts)
              && |OlderExhausted(w.rows, id, c.maxAttempts)| < c.batchSize
  {
    assert ts[0] == w.rows && RowsOk(w);
    hide Inv, RowsOk, SequencesOk, DrainRun, OwnSequence, OlderExhausted, Apply;
    RowsOwnSequences(w, id);
    DrainedExactly(ts, c.batchSize, c.maxAttempts, id);
  }

  /** With fewer exhausted rows than slots, these are all waiting rows that are not exhausted. */
  lemma AllFreshRecovered(c: Config, steps: seq<Step>, ts: seq<Table>)
    requires Legal(c, Start, steps) && |ExhaustedIds(Run(c, Start, steps).rows, c.maxAttempts)| < c.batchSize
    requires DrainRun(ts, c.batchSize, c.maxAttempts) && ts[0] == Apply(c, Run(c, Start, steps), Crash).rows
    requires |FreshIds(ts[0], c.maxAttempts)| < |ts|
    ensures ts[|ts| - 1].Keys == Run(c, Start, steps).rows.Keys - FreshIds(Run(c, Start, steps).rows, c.maxAttempts)
  {
    assert ts[0] == Run(c, Start, steps).rows;
    hide Legal, Run, Apply, DrainRun, FreshIds, ExhaustedIds;
    DrainsEmpty(ts, c.batchSize, c.maxAttempts);
  }
}
