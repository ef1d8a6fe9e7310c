/** How often an envelope is transmitted at most, depending on how many flushes may run at the same time. */
module DeliveryRetries {
  import opened DeliveryOutbox
  import opened DeliveryIntake
  import opened DeliveryWorker
  import opened DeliveryProtocol

  /** A flush starts only when fewer than `k` are running. */
  ghost predicate AtMostOpen(c: Config, w: World, steps: seq<Step>, k: nat)
    requires Legal(c, w, steps)
    decreases |steps|
  {
    steps == [] || ((steps[0].StartFlush? ==> |w.flushes| < k) && AtMostOpen(c, Apply(c, w, steps[0]), steps[1..], k))
  }

  /** The largest number of transmissions of one envelope; for one flush at a time, half the attempts rounded up. */
  function MostSent(maxAttempts: nat, k: nat): nat {
    if maxAttempts == 0 then 0 else k + k * (maxAttempts - 1) / (k + 1)
  }

  // ---------------------------------------------------------------- copies that may still be sent

  /** The flush has yet to deal with a copy of the row that it may send. */
  predicate HoldsLive(flush: Flush, id: string, maxAttempts: nat) {
    exists i :: 0 <= i < |flush.queue| && flush.queue[i].envelope.id == id && !Exhausted(flush.queue[i], maxAttempts)
  }

  function Copies(w: World, id: string, maxAttempts: nat): (fs: set<nat>)
    ensures fs <= w.flushes.Keys
  {
    set f | f in w.flushes && HoldsLive(w.flushes[f], id, maxAttempts)
  }

  ghost predicate QueuesOk(w: World) {
    forall f :: f in w.flushes ==> Distinct(w.flushes[f].queue)
  }

  /**
   * Between two failures a row is SENT, so no flush takes a new copy, and each of at most `k`
   * copies is sent once. `sent` counts transmissions, `copies` those that may follow without a
   * new copy, and attempts beyond the transmissions are failures.
   */
  ghost predicate RowBudget(row: Row, sent: nat, copies: nat, k: nat) {
    && row.status in {Pending, Sent, Failed}
    && (Waiting(row) ==> sent <= k * (row.attempts - sent))
    && (row.status == Sent ==> sent + copies <= k * (row.attempts - sent + 1))
  }

  ghost predicate Budget(w: World, id: string, maxAttempts: nat, k: nat) {
    var sent, copies := SentTimes(w, id), |Copies(w, id, maxAttempts)|;
    && sent + copies <= MostSent(maxAttempts, k)
    && (id in w.rows ==> RowBudget(w.rows[id], sent, copies, k))
  }

  lemma SubsetCount(a: set<nat>, b: set<nat>)
    requires a <= b
    ensures |a| <= |b|
  {
    if a != b {
      var rest := b - a;
      assert b == a + rest && |b| == |a| + |rest|;
    }
  }

  // ---------------------------------------------------------------- arithmetic

  /** A waiting row that is not exhausted leaves room for `k` more transmissions. */
  lemma RoomForCopies(sent: nat, attempts: nat, maxAttempts: nat, copies: nat, k: nat)
    requires attempts < maxAttempts && copies <= k && sent <= k * (attempts - sent)
    ensures sent + copies <= MostSent(maxAttempts, k)
  {
    var n := maxAttempts - 1;
    assert k * (attempts - sent) == k * attempts - k * sent;
    assert (k + 1) * sent == k * sent + sent;
    assert k * attempts <= k * n by { Monotone(k, attempts, n); }
    QuotientAtLeast(sent, k * n, k + 1);
  }

  lemma Monotone(k: nat, a: int, b: int)
    requires a <= b
    ensures k * a <= k * b
  {
    assert k * b - k * a == k * (b - a) >= 0;
  }

  lemma QuotientAtLeast(x: nat, total: nat, d: nat)
    requires d > 0 && d * x <= total
    ensures x <= total / d
  {
    var q := total / d;
    assert total == d * q + total % d;
    assert d * (q + 1) == d * q + d > total;
    if q < x { Monotone(d, q + 1, x); }
  }

  /** A transmission uses up a copy; a failure makes room for at most `k` transmissions more. */
  lemma SendBooked(row: Row, sent: nat, copies: nat, k: nat)
    requires RowBudget(row, sent, copies, k) && 0 < copies <= k
    ensures RowBudget(row.(status := Sent, attempts := row.attempts + 1), sent + 1, copies - 1, k)
  {
    assert row.attempts + 1 - (sent + 1) + 1 == row.attempts - sent + 1;
    assert k * (row.attempts - sent + 1) == k * (row.attempts - sent) + k;
  }

  lemma FailBooked(row: Row, sent: nat, copies: nat, fewer: nat, k: nat)
    requires RowBudget(row, sent, copies, k)
    ensures RowBudget(row.(status := Failed, attempts := row.attempts + 1), sent, fewer, k)
  {
    assert row.attempts + 1 - sent == row.attempts - sent + 1;
    assert k * (row.attempts - sent + 1) == k * (row.attempts - sent) + k;
  }

  lemma FewerBooked(row: Row, sent: nat, copies: nat, fewer: nat, k: nat)
    requires RowBudget(row, sent, copies, k) && fewer <= copies
    ensures RowBudget(row, sent, fewer, k)
  {
  }

  // ---------------------------------------------------------------- steps

  /** The row of this id stays, goes, or is marked as failed. */
  predicate AtMostFails(before: Table, after: Table, id: string) {
    id in after ==>
      && id in before
      && (after[id] == before[id] || after[id] == before[id].(status := Failed, attempts := before[id].attempts + 1))
  }

  /** Steps that send nothing, take no new copy, and at most book a failure. */
  lemma QuietBudget(w: World, r: World, id: string, maxAttempts: nat, k: nat)
    requires Budget(w, id, maxAttempts, k) && SentTimes(r, id) == SentTimes(w, id)
    requires Copies(r, id, maxAttempts) <= Copies(w, id, maxAttempts)
    requires AtMostFails(w.rows, r.rows, id)
    ensures Budget(r, id, maxAttempts, k)
  {
    var sent, copies, fewer := SentTimes(w, id), |Copies(w, id, maxAttempts)|, |Copies(r, id, maxAttempts)|;
    SubsetCount(Copies(r, id, maxAttempts), Copies(w, id, maxAttempts));
    hide RowBudget, Copies, MostSent, SentTimes;
    if id in r.rows {
      if r.rows[id] == w.rows[id] {
        FewerBooked(w.rows[id], sent, copies, fewer, k);
      } else {
        FailBooked(w.rows[id], sent, copies, fewer, k);
      }
    }
  }

  lemma SameCopies(w: World, r: World, id: string, maxAttempts: nat)
    requires r.flushes.Keys <= w.flushes.Keys
    requires forall f :: f in r.flushes ==> HoldsLive(r.flushes[f], id, maxAttempts) ==> HoldsLive(w.flushes[f], id, maxAttempts)
    ensures Copies(r, id, maxAttempts) <= Copies(w, id, maxAttempts)
  {
    hide HoldsLive;
  }

  lemma StartCopies(w: World, f: nat, flush: Flush, id: string, maxAttempts: nat)
    requires f !in w.flushes
    ensures var r := w.(flushes := w.flushes[f := flush]);
            |Copies(r, id, maxAttempts)| <= |w.flushes| + 1
            && (!HoldsLive(flush, id, maxAttempts) ==> Copies(r, id, maxAttempts) == Copies(w, id, maxAttempts))
  {
    hide HoldsLive;
    var r := w.(flushes := w.flushes[f := flush]);
    assert r.flushes.Keys == w.flushes.Keys + {f} && |r.flushes| == |r.flushes.Keys| && |w.flushes| == |w.flushes.Keys|;
    SubsetCount(Copies(r, id, maxAttempts), r.flushes.Keys);
  }

  /** A flush takes a copy that it may send only of a waiting row. */
  lemma BatchLive(t: Table, batch: seq<Row>, limit: nat, id: string, maxAttempts: nat)
    requires IsBatch(t, batch, limit) && HoldsLive(Flush(batch, Idle), id, maxAttempts)
    ensures id in t && Waiting(t[id]) && !Exhausted(t[id], maxAttempts)
  {
    var i :| 0 <= i < |batch| && batch[i].envelope.id == id && !Exhausted(batch[i], maxAttempts);
    assert id in IdsOf(batch) && t[id] == batch[i];
  }

  lemma StartBudget(c: Config, w: World, f: nat, batch: seq<Row>, k: nat, id: string)
    requires Budget(w, id, c.maxAttempts, k) && f !in w.flushes && |w.flushes| < k && IsBatch(w.rows, batch, c.batchSize)
    ensures Budget(w.(flushes := w.flushes[f := Flush(batch, Idle)]), id, c.maxAttempts, k)
  {
    var m, flush, r := c.maxAttempts, Flush(batch, Idle), w.(flushes := w.flushes[f := Flush(batch, Idle)]);
    hide IsBatch, Copies, MostSent, HoldsLive;
    StartCopies(w, f, flush, id, m);
    if HoldsLive(flush, id, m) {
      BatchLive(w.rows, batch, c.batchSize, id, m);
      RoomForCopies(SentTimes(w, id), w.rows[id].attempts, m, |Copies(r, id, m)|, k);
    }
  }

  lemma TailHolds(flush: Flush, id: string, maxAttempts: nat, phase: Phase)
    requires flush.queue != [] && Distinct(flush.queue)
    ensures var tail := Flush(flush.queue[1..], phase);
            if flush.queue[0].envelope.id == id then !HoldsLive(tail, id, maxAttempts)
            else HoldsLive(tail, id, maxAttempts) == HoldsLive(flush, id, maxAttempts)
    ensures flush.queue[0].envelope.id == id ==> HoldsLive(flush, id, maxAttempts) == !Exhausted(flush.queue[0], maxAttempts)
  {
    var queue, tail := flush.queue, flush.queue[1..];
    if queue[0].envelope.id != id && HoldsLive(flush, id, maxAttempts) {
      var i :| 0 <= i < |queue| && queue[i].envelope.id == id && !Exhausted(queue[i], maxAttempts);
      assert tail[i - 1] == queue[i];
    }
    if HoldsLive(Flush(tail, phase), id, maxAttempts) {
      var i :| 0 <= i < |tail| && tail[i].envelope.id == id && !Exhausted(tail[i], maxAttempts);
      assert queue[i + 1] == tail[i];
    }
  }

  lemma SendCopies(w: World, f: nat, id: string, maxAttempts: nat)
    requires QueuesOk(w) && f in w.flushes && NextIs(w.flushes[f]) && !Exhausted(w.flushes[f].queue[0], maxAttempts)
    ensures var before, after := Copies(w, id, maxAttempts), Copies(Sending(w, f), id, maxAttempts);
            if w.flushes[f].queue[0].envelope.id == id then f in before && after == before - {f} else after == before
  {
    var flush := w.flushes[f];
    TailHolds(flush, id, maxAttempts, Transmitting(flush.queue[0]));
    hide HoldsLive, Mark, SentTimes;
  }

  lemma SendBudget(c: Config, w: World, f: nat, k: nat, id: string)
    requires Budget(w, id, c.maxAttempts, k) && QueuesOk(w) && |w.flushes| <= k
    requires f in w.flushes && NextIs(w.flushes[f]) && !Exhausted(w.flushes[f].queue[0], c.maxAttempts)
    ensures Budget(Sending(w, f), id, c.maxAttempts, k)
  {
    SendCopies(w, f, id, c.maxAttempts);
    var before := Copies(w, id, c.maxAttempts);
    SubsetCount(before, w.flushes.Keys);
    assert |w.flushes| == |w.flushes.Keys|;
    hide RowBudget, Copies, MostSent, QueuesOk;
    if w.flushes[f].queue[0].envelope.id == id && id in w.rows {
      SendBooked(w.rows[id], SentTimes(w, id), |before|, k);
    }
  }

  lemma SkipBudget(c: Config, w: World, f: nat, k: nat, id: string)
    requires Budget(w, id, c.maxAttempts, k) && QueuesOk(w)
    requires f in w.flushes && NextIs(w.flushes[f]) && Exhausted(w.flushes[f].queue[0], c.maxAttempts)
    ensures var flush := w.flushes[f];
            Budget(w.(rows := Mark(w.rows, flush.queue[0].envelope.id, Failed),
                      flushes := w.flushes[f := Flush(flush.queue[1..], Idle)]), id, c.maxAttempts, k)
  {
    var flush := w.flushes[f];
    var r := w.(rows := Mark(w.rows, flush.queue[0].envelope.id, Failed),
                flushes := w.flushes[f := Flush(flush.queue[1..], Idle)]);
    TailHolds(flush, id, c.maxAttempts, Idle);
    SameCopies(w, r, id, c.maxAttempts);
    QuietBudget(w, r, id, c.maxAttempts, k);
  }

  /** A flush that keeps its queue. */
  lemma PhaseBudget(w: World, r: World, f: nat, phase: Phase, id: string, maxAttempts: nat, k: nat)
    requires Budget(w, id, maxAttempts, k) && f in w.flushes && r.flushes == w.flushes[f := w.flushes[f].(phase := phase)]
    requires SentTimes(r, id) == SentTimes(w, id)
    requires AtMostFails(w.rows, r.rows, id)
    ensures Budget(r, id, maxAttempts, k)
  {
    assert HoldsLive(r.flushes[f], id, maxAttempts) ==> HoldsLive(w.flushes[f], id, maxAttempts);
    hide HoldsLive, RowBudget, MostSent;
    SameCopies(w, r, id, maxAttempts);
    QuietBudget(w, r, id, maxAttempts, k);
  }

  lemma NeverSent(w: World, e: Envelope)
    requires HistoryOk(w) && forall a :: a in w.appended ==> a.id != e.id
    ensures SentTimes(w, e.id) == 0
  {
    assert e.id !in IdsIn(w.appended);
  }

  lemma InsertBudget(w: World, e: Envelope, after: Table, maxEntries: nat, maxAttempts: nat, k: nat, id: string)
    requires Inv(w) && Budget(w, id, maxAttempts, k) && Inserts(w, e, after, maxEntries)
    ensures Budget(Inserted(w, e, after), id, maxAttempts, k)
  {
    var r, full := Inserted(w, e, after), w.rows[e.id := NewRow(e)];
    NeverSent(w, e);
    assert Copies(r, id, maxAttempts) == Copies(w, id, maxAttempts) && SentTimes(r, id) == SentTimes(w, id);
    assert id in after ==> id in full && after[id] == full[id];
    hide Inv, Inserts, Copies, MostSent;
    if id == e.id && id in r.rows {
      assert r.rows[id] == NewRow(e) && SentTimes(r, id) == 0;
      assert k * 0 == 0;
    }
  }

  lemma AppendBudget(c: Config, w: World, e: Envelope, after: Table, result: AppendResult, k: nat, id: string)
    requires Inv(w) && Budget(w, id, c.maxAttempts, k) && Enabled(c, w, AppendEnvelope(e, after, result))
    ensures Budget(Apply(c, w, AppendEnvelope(e, after, result)), id, c.maxAttempts, k)
  {
    AppendCases(c, w, e, after, result);
    hide Enabled, Apply, Inv, Inserts, HoldsLive;
    if result.Existing? || result.DuplicateId? {
      var r := w.(drawn := w.drawn - {e.sequence});
      SameCopies(w, r, id, c.maxAttempts);
      QuietBudget(w, r, id, c.maxAttempts, k);
    } else {
      InsertBudget(w, e, after, c.maxEntries, c.maxAttempts, k, id);
    }
  }

  lemma StepBudget(c: Config, w: World, step: Step, k: nat, id: string)
    requires Inv(w) && QueuesOk(w) && |w.flushes| <= k && Budget(w, id, c.maxAttempts, k)
    requires Enabled(c, w, step) && (step.StartFlush? ==> |w.flushes| < k)
    ensures Budget(Apply(c, w, step), id, c.maxAttempts, k)
  {
    hide Inv, QueuesOk, Budget, HoldsLive, IsBatch, AppendsTo, Accept;
    var m, r := c.maxAttempts, Apply(c, w, step);
    match step {
      case AppendEnvelope(e, after, result) => AppendBudget(c, w, e, after, result, k, id);
      case StartFlush(f, batch) => StartBudget(c, w, f, batch, k, id);
      case Skip(f) => SkipBudget(c, w, f, k, id);
      case Send(f) => SendBudget(c, w, f, k, id);
      case Deliver(f) => PhaseBudget(w, r, f, r.flushes[f].phase, id, m, k);
      case LoseRequest(f) => PhaseBudget(w, r, f, r.flushes[f].phase, id, m, k);
      case AnswerArrives(f) => PhaseBudget(w, r, f, r.flushes[f].phase, id, m, k);
      case LoseAnswer(f) => PhaseBudget(w, r, f, r.flushes[f].phase, id, m, k);
      case Settle(f) => PhaseBudget(w, r, f, Idle, id, m, k);
      case _ =>
        SameCopies(w, r, id, m);
        QuietBudget(w, r, id, m, k);
    }
  }

  lemma StepCount(c: Config, w: World, step: Step, k: nat)
    requires |w.flushes| <= k && Enabled(c, w, step) && (step.StartFlush? ==> |w.flushes| < k)
    ensures |Apply(c, w, step).flushes| <= k
  {
    hide AppendsTo, Accept, IsBatch, Mark, SentTimes;
    var r := Apply(c, w, step);
    if step.StartFlush? {
      assert r.flushes.Keys == w.flushes.Keys + {step.f};
    } else {
      assert r.flushes.Keys <= w.flushes.Keys;
      SubsetCount(r.flushes.Keys, w.flushes.Keys);
    }
    assert |r.flushes| == |r.flushes.Keys| && |w.flushes| == |w.flushes.Keys|;
  }

  /** A queue stays, loses its first row, or is a new batch. */
  lemma QueueFrom(c: Config, w: World, step: Step, f: nat)
    requires Enabled(c, w, step) && f in Apply(c, w, step).flushes
    ensures var queue := Apply(c, w, step).flushes[f].queue;
            if step.StartFlush? && step.f == f then Distinct(queue)
            else f in w.flushes && (queue == w.flushes[f].queue || (w.flushes[f].queue != [] && queue == w.flushes[f].queue[1..]))
  {
    hide AppendsTo, Accept, Mark, SentTimes, Ordered, RowsOf, NotNewer, IdsOf, WaitingIds, Distinct;
  }

  lemma StepOpens(c: Config, w: World, step: Step, k: nat)
    requires QueuesOk(w) && |w.flushes| <= k && Enabled(c, w, step) && (step.StartFlush? ==> |w.flushes| < k)
    ensures QueuesOk(Apply(c, w, step)) && |Apply(c, w, step).flushes| <= k
  {
    hide Enabled, Apply;
    var r := Apply(c, w, step);
    StepCount(c, w, step, k);
    forall f | f in r.flushes
      ensures Distinct(r.flushes[f].queue)
    {
      QueueFrom(c, w, step, f);
    }
  }

  lemma {:induction false} RunBudget(c: Config, w: World, steps: seq<Step>, k: nat, id: string)
    requires Inv(w) && QueuesOk(w) && |w.flushes| <= k && Budget(w, id, c.maxAttempts, k)
    requires Legal(c, w, steps) && AtMostOpen(c, w, steps, k)
    ensures Budget(Run(c, w, steps), id, c.maxAttempts, k)
    decreases |steps|
  {
    if steps != [] {
      hide Inv, QueuesOk, Budget, Enabled, Apply;
      StepKeepsInv(c, w, steps[0]);
      StepOpens(c, w, steps[0], k);
      StepBudget(c, w, steps[0], k, id);
      RunBudget(c, Apply(c, w, steps[0]), steps[1..], k, id);
    }
  }

  /** With at most `k` flushes at a time, no envelope is transmitted more than `MostSent` times, on any run. */
  lemma SentAtMost(c: Config, steps: seq<Step>, k: nat, id: string)
    requires Legal(c, Start, steps) && AtMostOpen(c, Start, steps, k)
    ensures SentTimes(Run(c, Start, steps), id) <= MostSent(c.maxAttempts, k)
  {
    assert Copies(Start, id, c.maxAttempts) == {};
    assert Budget(Start, id, c.maxAttempts, k);
    RunBudget(c, Start, steps, k, id);
  }

  /** With one flush at a time an envelope is transmitted at most half the allowed attempts, rounded up. */
  lemma LoneRetryBound(c: Config, steps: seq<Step>, id: string)
    requires Legal(c, Start, steps) && AtMostOpen(c, Start, steps, 1)
    ensures SentTimes(Run(c, Start, steps), id) <= (c.maxAttempts + 1) / 2
  {
    SentAtMost(c, steps, 1, id);
  }
}
