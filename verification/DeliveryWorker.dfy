/** The worker that drains the outbox: one flush, and what repeated flushes achieve. */
module DeliveryWorker {
  import opened DeliveryOutbox

  /** What became of one transmission. */
  datatype Answer = Acknowledged | Refused | Raised

  predicate Exhausted(row: Row, maxAttempts: nat) {
    row.attempts >= maxAttempts
  }

  /** The table after the worker has dealt with one selected row. */
  function FlushRow(t: Table, row: Row, answer: Answer, maxAttempts: nat): Table {
    var id := row.envelope.id;
    if Exhausted(row, maxAttempts) then Mark(t, id, Failed)
    else if answer == Acknowledged then Mark(t, id, Sent) - {id}
    else Mark(Mark(t, id, Sent), id, Failed)
  }

  function FlushRows(t: Table, batch: seq<Row>, answers: seq<Answer>, maxAttempts: nat): Table
    requires |answers| >= |batch|
  {
    if batch == [] then t
    else FlushRows(FlushRow(t, batch[0], answers[0], maxAttempts), batch[1..], answers[1..], maxAttempts)
  }

  function DrainedCount(batch: seq<Row>, answers: seq<Answer>, maxAttempts: nat): nat
    requires |answers| >= |batch|
  {
    if batch == [] then 0
    else (if !Exhausted(batch[0], maxAttempts) && answers[0] == Acknowledged then 1 else 0)
         + DrainedCount(batch[1..], answers[1..], maxAttempts)
  }

  function SentCount(batch: seq<Row>, maxAttempts: nat): nat {
    if batch == [] then 0 else (if Exhausted(batch[0], maxAttempts) then 0 else 1) + SentCount(batch[1..], maxAttempts)
  }

  /** Transmissions of rows that were attempted before. */
  function ReplayCount(batch: seq<Row>, maxAttempts: nat): nat {
    if batch == [] then 0
    else (if !Exhausted(batch[0], maxAttempts) && batch[0].attempts > 0 then 1 else 0) + ReplayCount(batch[1..], maxAttempts)
  }

  /** What one row adds to the counters. */
  lemma RowCounts(row: Row, answer: Answer, maxAttempts: nat)
    ensures SentCount([row], maxAttempts) == if row.attempts < maxAttempts then 1 else 0
    ensures ReplayCount([row], maxAttempts) == if 0 < row.attempts < maxAttempts then 1 else 0
    ensures DrainedCount([row], [answer], maxAttempts) == if row.attempts < maxAttempts && answer == Acknowledged then 1 else 0
  {
    assert [row][1..] == [] && [answer][1..] == [];
  }

  /** The counters of a batch are the sums over its rows, however it is divided. */
  lemma {:induction false} CountsAdd(a: seq<Row>, b: seq<Row>, answersA: seq<Answer>, answersB: seq<Answer>, maxAttempts: nat)
    requires |answersA| == |a| && |answersB| == |b|
    ensures SentCount(a + b, maxAttempts) == SentCount(a, maxAttempts) + SentCount(b, maxAttempts)
    ensures ReplayCount(a + b, maxAttempts) == ReplayCount(a, maxAttempts) + ReplayCount(b, maxAttempts)
    ensures DrainedCount(a + b, answersA + answersB, maxAttempts)
         == DrainedCount(a, answersA, maxAttempts) + DrainedCount(b, answersB, maxAttempts)
    decreases |a|
  {
    if a == [] {
      assert a + b == b && answersA + answersB == answersB;
    } else {
      assert (a + b)[1..] == a[1..] + b && (answersA + answersB)[1..] == answersA[1..] + answersB;
      CountsAdd(a[1..], b, answersA[1..], answersB, maxAttempts);
    }
  }

  datatype Stats = Stats(published: nat, acked: nat, failed: nat, replays: nat, unavailable: nat)

  class Worker {
    const outbox: Outbox
    const batchSize: nat
    const maxAttempts: nat
    var stats: Stats

    constructor (outbox: Outbox, batchSize: int, maxAttempts: int)
      ensures this.outbox == outbox && stats == Stats(0, 0, 0, 0, 0)
      ensures this.batchSize == (if batchSize < 1 then 1 else batchSize)
      ensures this.maxAttempts == (if maxAttempts < 1 then 1 else maxAttempts)
    {
      this.outbox := outbox;
      this.batchSize := if batchSize < 1 then 1 else batchSize;
      this.maxAttempts := if maxAttempts < 1 then 1 else maxAttempts;
      stats := Stats(0, 0, 0, 0, 0);
    }

    /** One flush that nothing interrupts. `answers[i]` is the fate of the i-th selected row. */
    method FlushOnce(connected: bool, answers: seq<Answer>) returns (drained: nat, ghost batch: seq<Row>)
      requires TableOk(outbox.rows) && batchSize >= 1 && |answers| >= batchSize
      modifies this`stats, outbox`rows
      ensures !connected ==> outbox.rows == old(outbox.rows) && drained == 0
                             && stats == old(stats).(unavailable := old(stats).unavailable + 1)
      ensures connected ==> IsBatch(old(outbox.rows), batch, batchSize)
                            && outbox.rows == FlushRows(old(outbox.rows), batch, answers, maxAttempts)
                            && drained == DrainedCount(batch, answers, maxAttempts)
                            && stats.acked == old(stats).acked + drained
                            && stats.published == old(stats).published + SentCount(batch, maxAttempts)
                            && stats.replays == old(stats).replays + ReplayCount(batch, maxAttempts)
                            && stats.unavailable == old(stats).unavailable
                            && stats.acked + stats.failed == old(stats).acked + old(stats).failed + |batch|
    {
      drained, batch := 0, [];
      if !connected {
        stats := stats.(unavailable := stats.unavailable + 1);
        return;
      }
      var records := outbox.PendingRows(batchSize);
      batch := records;
      ghost var before, rows0 := stats, outbox.rows;
      assert records[0..] == records && answers[0..] == answers;
      for i := 0 to |records|
        invariant FlushRows(outbox.rows, records[i..], answers[i..], maxAttempts) == FlushRows(rows0, records, answers, maxAttempts)
        invariant drained + DrainedCount(records[i..], answers[i..], maxAttempts) == DrainedCount(records, answers, maxAttempts)
        invariant stats.published + SentCount(records[i..], maxAttempts) == before.published + SentCount(records, maxAttempts)
        invariant stats.replays + ReplayCount(records[i..], maxAttempts) == before.replays + ReplayCount(records, maxAttempts)
        invariant stats.unavailable == before.unavailable && stats.acked == before.acked + drained
        invariant stats.acked + stats.failed == before.acked + before.failed + i
      {
        var record := records[i];
        assert records[i..][1..] == records[i + 1..] && answers[i..][1..] == answers[i + 1..];
        var id := record.envelope.id;
        if record.attempts >= maxAttempts {
          outbox.MarkFailed(id);
          stats := stats.(failed := stats.failed + 1);
        } else {
          if record.attempts > 0 {
            stats := stats.(replays := stats.replays + 1);
          }
          outbox.MarkSent(id);
          stats := stats.(published := stats.published + 1);
          if answers[i] == Acknowledged {
            outbox.MarkAcked(id);
            stats := stats.(acked := stats.acked + 1);
            drained := drained + 1;
          } else {
            outbox.MarkFailed(id);
            stats := stats.(failed := stats.failed + 1);
          }
        }
      }
    }
  }

  // ---------------------------------------------------------------- draining

  /** Waiting rows that may still be sent, and waiting rows that may not. */
  function FreshIds(t: Table, maxAttempts: nat): set<string> {
    set id | id in t && Waiting(t[id]) && !Exhausted(t[id], maxAttempts)
  }

  function ExhaustedIds(t: Table, maxAttempts: nat): set<string> {
    set id | id in t && Waiting(t[id]) && Exhausted(t[id], maxAttempts)
  }

  ghost predicate AllAcknowledged(answers: seq<Answer>) {
    forall i :: 0 <= i < |answers| ==> answers[i] == Acknowledged
  }

  /** The rows of `t` without those that were selected fresh; those selected exhausted book one more attempt. */
  ghost predicate FreshTaken(t: Table, after: Table, ids: set<string>, maxAttempts: nat) {
    && after.Keys == t.Keys - ids * FreshIds(t, maxAttempts)
    && forall id :: id in after ==>
         after[id] == if id in ids then t[id].(status := Failed, attempts := t[id].attempts + 1) else t[id]
  }

  lemma FreshTakenTwice(t: Table, mid: Table, after: Table, id: string, ids: set<string>, maxAttempts: nat)
    requires FreshTaken(t, mid, {id}, maxAttempts) && FreshTaken(mid, after, ids, maxAttempts) && id !in ids
    requires FreshIds(mid, maxAttempts) == FreshIds(t, maxAttempts) - {id}
    ensures FreshTaken(t, after, {id} + ids, maxAttempts)
  {
    assert after.Keys == t.Keys - ({id} + ids) * FreshIds(t, maxAttempts);
  }

  /** When every transmission is acknowledged, a flush removes exactly the fresh rows it selected. */
  lemma {:induction false} FlushRemoves(t: Table, batch: seq<Row>, answers: seq<Answer>, maxAttempts: nat)
    requires TableOk(t) && Distinct(batch) && RowsOf(t, batch) && IdsOf(batch) <= WaitingIds(t)
    requires |answers| >= |batch| && AllAcknowledged(answers)
    ensures var after := FlushRows(t, batch, answers, maxAttempts);
            && TableOk(after)
            && FreshTaken(t, after, IdsOf(batch), maxAttempts)
            && FreshIds(after, maxAttempts) == FreshIds(t, maxAttempts) - IdsOf(batch)
            && ExhaustedIds(after, maxAttempts) == ExhaustedIds(t, maxAttempts)
    decreases |batch|
  {
    if batch != [] {
      var rest := batch[1..];
      var next := FlushRow(t, batch[0], answers[0], maxAttempts);
      HeadApart(batch);
      FlushRemovesOne(t, batch[0], answers[0], maxAttempts);
      StillRows(t, batch, answers[0], maxAttempts);
      hide TableOk, FreshTaken, FreshIds, ExhaustedIds, WaitingIds, Distinct, RowsOf, IdsOf, FlushRow;
      FlushRemoves(next, rest, answers[1..], maxAttempts);
      FreshTakenTwice(t, next, FlushRows(next, rest, answers[1..], maxAttempts), batch[0].envelope.id, IdsOf(rest), maxAttempts);
    }
  }

  lemma HeadApart(batch: seq<Row>)
    requires Distinct(batch) && batch != []
    ensures Distinct(batch[1..]) && IdsOf(batch) == {batch[0].envelope.id} + IdsOf(batch[1..])
    ensures batch[0].envelope.id !in IdsOf(batch[1..])
  {
    var rest := batch[1..];
    forall id | id in IdsOf(batch)
      ensures id in {batch[0].envelope.id} + IdsOf(rest)
    {
      var i :| 0 <= i < |batch| && batch[i].envelope.id == id;
      if i > 0 { assert rest[i - 1] == batch[i]; }
    }
    forall id | id in IdsOf(rest)
      ensures id in IdsOf(batch) && id != batch[0].envelope.id
    {
      var i :| 0 <= i < |rest| && rest[i].envelope.id == id;
      assert batch[i + 1] == rest[i];
    }
  }

  lemma FlushRemovesOne(t: Table, row: Row, answer: Answer, maxAttempts: nat)
    requires TableOk(t) && row.envelope.id in WaitingIds(t) && t[row.envelope.id] == row && answer == Acknowledged
    ensures var after := FlushRow(t, row, answer, maxAttempts);
            && TableOk(after) && FreshTaken(t, after, {row.envelope.id}, maxAttempts)
            && FreshIds(after, maxAttempts) == FreshIds(t, maxAttempts) - {row.envelope.id}
            && ExhaustedIds(after, maxAttempts) == ExhaustedIds(t, maxAttempts)
            && WaitingIds(after) >= WaitingIds(t) - {row.envelope.id}
            && (forall id :: id in t && id != row.envelope.id ==> id in after && after[id] == t[id])
  {
  }

  lemma StillRows(t: Table, batch: seq<Row>, answer: Answer, maxAttempts: nat)
    requires TableOk(t) && Distinct(batch) && RowsOf(t, batch) && IdsOf(batch) <= WaitingIds(t) && batch != []
    requires answer == Acknowledged
    ensures var next := FlushRow(t, batch[0], answer, maxAttempts);
            RowsOf(next, batch[1..]) && IdsOf(batch[1..]) <= WaitingIds(next)
  {
    HeadApart(batch);
    FlushRemovesOne(t, batch[0], answer, maxAttempts);
    var rest := batch[1..];
    var next := FlushRow(t, batch[0], answer, maxAttempts);
    forall i | 0 <= i < |rest|
      ensures rest[i].envelope.id in next && next[rest[i].envelope.id] == rest[i]
    {
      assert rest[i] == batch[i + 1] && rest[i].envelope.id in IdsOf(rest);
    }
  }

  lemma {:induction false} IdsCount(batch: seq<Row>)
    requires Distinct(batch)
    ensures |IdsOf(batch)| == |batch|
    decreases |batch|
  {
    if batch != [] {
      HeadApart(batch);
      IdsCount(batch[1..]);
    } else {
      assert IdsOf(batch) == {};
    }
  }

  /**
   * With a transport that always acknowledges, a flush makes progress exactly when its batch
   * holds a fresh row, and it does when fewer than `limit` exhausted rows are waiting.
   */
  lemma DrainProgress(t: Table, batch: seq<Row>, limit: nat, answers: seq<Answer>, maxAttempts: nat)
    requires TableOk(t) && IsBatch(t, batch, limit) && |answers| >= |batch| && AllAcknowledged(answers)
    ensures var after := FlushRows(t, batch, answers, maxAttempts);
            && TableOk(after)
            && ExhaustedIds(after, maxAttempts) == ExhaustedIds(t, maxAttempts)
            && FreshIds(after, maxAttempts) <= FreshIds(t, maxAttempts)
            && (FreshIds(after, maxAttempts) < FreshIds(t, maxAttempts) <==> !(IdsOf(batch) <= ExhaustedIds(t, maxAttempts)))
            && (|ExhaustedIds(t, maxAttempts)| < limit && FreshIds(t, maxAttempts) != {}
                ==> FreshIds(after, maxAttempts) < FreshIds(t, maxAttempts))
  {
    FlushRemoves(t, batch, answers, maxAttempts);
    IdsCount(batch);
    assert WaitingIds(t) == FreshIds(t, maxAttempts) + ExhaustedIds(t, maxAttempts);
    assert FreshIds(t, maxAttempts) !! ExhaustedIds(t, maxAttempts);
    hide FlushRows, FreshIds, ExhaustedIds, WaitingIds, IdsOf, NotNewer, Ordered, Distinct, RowsOf, TableOk;
    RemovalProgress(FreshIds(t, maxAttempts), ExhaustedIds(t, maxAttempts), IdsOf(batch), limit);
  }

  lemma RemovalProgress(live: set<string>, exhausted: set<string>, taken: set<string>, limit: nat)
    requires live !! exhausted && taken <= live + exhausted
    requires |taken| == if |live + exhausted| <= limit then |live + exhausted| else limit
    ensures live - taken < live <==> !(taken <= exhausted)
    ensures |exhausted| < limit && live != {} ==> live - taken < live
  {
    if taken <= exhausted {
      assert live - taken == live;
      SubsetSize(taken, exhausted);
      assert |live + exhausted| == |live| + |exhausted|;
    } else {
      var id :| id in taken && id !in exhausted;
      assert id in live && id !in live - taken;
    }
  }

  /** A run of acknowledged flushes: each table comes from the one before by a flush. */
  ghost predicate DrainRun(ts: seq<Table>, limit: nat, maxAttempts: nat) {
    && ts != [] && TableOk(ts[0])
    && forall k :: 0 < k < |ts| ==> Drains(ts[k - 1], ts[k], limit, maxAttempts)
  }

  ghost predicate Drains(t: Table, after: Table, limit: nat, maxAttempts: nat) {
    exists batch, answers: seq<Answer> :: IsBatch(t, batch, limit) && |answers| >= |batch| && AllAcknowledged(answers)
      && after == FlushRows(t, batch, answers, maxAttempts)
  }

  /** The rows that no acknowledged flush removes. */
  function SparedIds(t: Table, maxAttempts: nat): set<string> {
    t.Keys - FreshIds(t, maxAttempts)
  }

  lemma SparedAfter(t: Table, after: Table, ids: set<string>, maxAttempts: nat)
    requires FreshTaken(t, after, ids, maxAttempts) && FreshIds(after, maxAttempts) == FreshIds(t, maxAttempts) - ids
    ensures SparedIds(after, maxAttempts) == SparedIds(t, maxAttempts)
  {
    hide FreshIds;
  }

  lemma FewerFresh(before: set<string>, left: set<string>)
    requires left <= before
    ensures |left| <= |before| && (left < before ==> |left| < |before|)
  {
    SubsetSize(left, before);
    if left < before { SmallerSet(left, before); }
  }

  lemma DrainStep(t: Table, after: Table, limit: nat, maxAttempts: nat)
    requires TableOk(t) && Drains(t, after, limit, maxAttempts)
    ensures TableOk(after) && ExhaustedIds(after, maxAttempts) == ExhaustedIds(t, maxAttempts)
    ensures SparedIds(after, maxAttempts) == SparedIds(t, maxAttempts)
    ensures |FreshIds(after, maxAttempts)| <= |FreshIds(t, maxAttempts)|
    ensures |ExhaustedIds(t, maxAttempts)| < limit && FreshIds(t, maxAttempts) != {} ==>
              |FreshIds(after, maxAttempts)| < |FreshIds(t, maxAttempts)|
  {
    hide TableOk, IsBatch, FlushRows, FreshIds, ExhaustedIds, SparedIds, AllAcknowledged, FreshTaken;
    var batch, answers: seq<Answer> :| IsBatch(t, batch, limit) && |answers| >= |batch| && AllAcknowledged(answers)
      && after == FlushRows(t, batch, answers, maxAttempts);
    BatchRemoves(t, batch, answers, limit, maxAttempts);
    DrainProgress(t, batch, limit, answers, maxAttempts);
    SparedAfter(t, after, IdsOf(batch), maxAttempts);
    FewerFresh(FreshIds(t, maxAttempts), FreshIds(after, maxAttempts));
  }

  lemma BatchRemoves(t: Table, batch: seq<Row>, answers: seq<Answer>, limit: nat, maxAttempts: nat)
    requires TableOk(t) && IsBatch(t, batch, limit) && |answers| >= |batch| && AllAcknowledged(answers)
    ensures var after := FlushRows(t, batch, answers, maxAttempts);
            && TableOk(after)
            && FreshTaken(t, after, IdsOf(batch), maxAttempts)
            && FreshIds(after, maxAttempts) == FreshIds(t, maxAttempts) - IdsOf(batch)
            && ExhaustedIds(after, maxAttempts) == ExhaustedIds(t, maxAttempts)
  {
    assert Distinct(batch) && RowsOf(t, batch) && IdsOf(batch) <= WaitingIds(t);
    hide *;
    FlushRemoves(t, batch, answers, maxAttempts);
  }

  lemma RestDrains(ts: seq<Table>, limit: nat, maxAttempts: nat)
    requires DrainRun(ts, limit, maxAttempts) && |ts| > 1
    ensures Drains(ts[0], ts[1], limit, maxAttempts)
    ensures TableOk(ts[1]) ==> DrainRun(ts[1..], limit, maxAttempts)
  {
    var rest := ts[1..];
    forall k | 0 < k < |rest|
      ensures Drains(rest[k - 1], rest[k], limit, maxAttempts)
    {
      assert Drains(ts[k], ts[k + 1], limit, maxAttempts);
    }
  }

  /** As many flushes as there are fresh rows drain them all, and nothing else. */
  lemma {:induction false} DrainsEmpty(ts: seq<Table>, limit: nat, maxAttempts: nat)
    requires DrainRun(ts, limit, maxAttempts) && |ExhaustedIds(ts[0], maxAttempts)| < limit
    ensures SparedIds(ts[|ts| - 1], maxAttempts) == SparedIds(ts[0], maxAttempts)
    ensures |FreshIds(ts[0], maxAttempts)| < |ts| ==>
              FreshIds(ts[|ts| - 1], maxAttempts) == {} && ts[|ts| - 1].Keys == SparedIds(ts[0], maxAttempts)
    ensures TableOk(ts[|ts| - 1]) && ExhaustedIds(ts[|ts| - 1], maxAttempts) == ExhaustedIds(ts[0], maxAttempts)
    decreases |ts|
  {
    if |ts| > 1 {
      hide TableOk, FreshIds, ExhaustedIds, SparedIds, Drains;
      RestDrains(ts, limit, maxAttempts);
      DrainStep(ts[0], ts[1], limit, maxAttempts);
      DrainsEmpty(ts[1..], limit, maxAttempts);
    }
  }

  lemma SmallerSet(a: set<string>, b: set<string>)
    requires a < b
    ensures |a| < |b|
  {
    var x :| x in b && x !in a;
    SubsetSize(a, b - {x});
  }
}
