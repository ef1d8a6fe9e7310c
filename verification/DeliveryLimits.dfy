/** Rows that are left SENT, which the delivery protocol does not pick up again. */
module DeliveryLimits {
  import opened DeliveryOutbox
  import opened DeliveryIntake
  import opened DeliveryProtocol

  // ---------------------------------------------------------------- rows left SENT

  predicate Mentions(flush: Flush, id: string) {
    || (exists i :: 0 <= i < |flush.queue| && flush.queue[i].envelope.id == id)
    || (!flush.phase.Idle? && flush.phase.row.envelope.id == id)
  }

  ghost predicate Unheld(w: World, id: string) {
    forall f :: f in w.flushes ==> !Mentions(w.flushes[f], id)
  }

  /** A SENT row that no running flush holds. */
  ghost predicate Stranded(w: World, row: Row) {
    row.envelope.id in w.rows && w.rows[row.envelope.id] == row && row.status == Sent && Unheld(w, row.envelope.id)
  }

  /** Compaction has dropped the row, and no running flush holds a copy of it. */
  ghost predicate GoneForGood(w: World, row: Row) {
    row.envelope in w.dropped && row.envelope.id !in w.rows && Unheld(w, row.envelope.id)
  }

  /** No batch holds a row that is SENT or missing. */
  lemma BatchOmits(t: Table, batch: seq<Row>, limit: nat, id: string)
    requires IsBatch(t, batch, limit) && (id in t ==> t[id].status == Sent)
    ensures !Mentions(Flush(batch, Idle), id)
  {
    forall i | 0 <= i < |batch|
      ensures batch[i].envelope.id != id
    {
      assert batch[i].envelope.id in IdsOf(batch);
    }
  }

  lemma QueueShrinks(flush: Flush, id: string, phase: Phase)
    requires !Mentions(flush, id) && flush.queue != [] && (!phase.Idle? ==> phase.row == flush.queue[0])
    ensures !Mentions(Flush(flush.queue[1..], phase), id) && flush.queue[0].envelope.id != id
  {
  }

  lemma PhaseMovesOn(flush: Flush, id: string, phase: Phase)
    requires !Mentions(flush, id) && !flush.phase.Idle? && (phase.Idle? || phase.row == flush.phase.row)
    ensures !Mentions(flush.(phase := phase), id) && flush.phase.row.envelope.id != id
  {
  }

  /** What a step of one flush that does not hold the id leaves alone. */
  ghost predicate Untouched(w: World, r: World, id: string) {
    && (id in r.rows <==> id in w.rows) && (id in w.rows ==> r.rows[id] == w.rows[id])
    && SentTimes(r, id) == SentTimes(w, id) && r.dropped == w.dropped && Unheld(r, id)
  }

  lemma OneFlushMoves(w: World, r: World, f: nat, id: string)
    requires Unheld(w, id) && (f in r.flushes ==> !Mentions(r.flushes[f], id))
    requires forall g :: g in r.flushes && g != f ==> g in w.flushes && r.flushes[g] == w.flushes[g]
    ensures Unheld(r, id)
  {
    hide Mentions;
  }

  /** A row that no flush holds, and that is SENT or missing, is left alone by every step but an append. */
  lemma UnheldStep(c: Config, w: World, step: Step, id: string)
    requires Enabled(c, w, step) && !step.AppendEnvelope? && Unheld(w, id) && (id in w.rows ==> w.rows[id].status == Sent)
    ensures Untouched(w, Apply(c, w, step), id)
  {
    hide IsBatch, Accept, Mentions;
    var r := Apply(c, w, step);
    match step {
      case Draw =>
      case AppendEnvelope(e, after, result) =>
      case StartFlush(f, batch) =>
        BatchOmits(w.rows, batch, c.batchSize, id);
        OneFlushMoves(w, r, f, id);
      case Skip(f) =>
        QueueShrinks(w.flushes[f], id, Idle);
        OneFlushMoves(w, r, f, id);
      case Send(f) =>
        QueueShrinks(w.flushes[f], id, Transmitting(w.flushes[f].queue[0]));
        OneFlushMoves(w, r, f, id);
      case EndFlush(f) =>
      case Abandon(f) =>
      case Duplicate(e) =>
      case Crash =>
      case _ =>
        var f := step.f;
        PhaseMovesOn(w.flushes[f], id, r.flushes[f].phase);
        OneFlushMoves(w, r, f, id);
    }
  }

  lemma InsertStrands(w: World, e: Envelope, after: Table, maxEntries: nat, row: Row)
    requires RowsOk(w) && w.dropped <= w.appended && Inserts(w, e, after, maxEntries) && (Stranded(w, row) || GoneForGood(w, row))
    ensures Stranded(Inserted(w, e, after), row) || GoneForGood(Inserted(w, e, after), row)
  {
    var id, full := row.envelope.id, w.rows[e.id := NewRow(e)];
    assert row.envelope in w.appended;
    assert Unheld(Inserted(w, e, after), id);
    hide Mentions, HasKey, Unheld, TableOk;
    if Stranded(w, row) {
      assert id in full && full[id] == row;
      if id !in after { assert full[id].envelope in Inserted(w, e, after).dropped; }
    }
  }

  lemma AppendStrands(c: Config, w: World, e: Envelope, after: Table, result: AppendResult, row: Row)
    requires Inv(w) && Enabled(c, w, AppendEnvelope(e, after, result)) && (Stranded(w, row) || GoneForGood(w, row))
    ensures var r := Apply(c, w, AppendEnvelope(e, after, result));
            && (Stranded(r, row) || GoneForGood(r, row))
            && SentTimes(r, row.envelope.id) == SentTimes(w, row.envelope.id)
  {
    AppendCases(c, w, e, after, result);
    assert RowsOk(w) && w.dropped <= w.appended;
    hide Enabled, Apply, Inv, RowsOk, Inserts, Mentions;
    if !(result.Existing? || result.DuplicateId?) { InsertStrands(w, e, after, c.maxEntries, row); }
  }

  lemma StrandedStep(c: Config, w: World, step: Step, row: Row)
    requires Inv(w) && Enabled(c, w, step) && (Stranded(w, row) || GoneForGood(w, row))
    ensures var r := Apply(c, w, step);
            && (Stranded(r, row) || GoneForGood(r, row))
            && SentTimes(r, row.envelope.id) == SentTimes(w, row.envelope.id)
  {
    if step.AppendEnvelope? {
      AppendStrands(c, w, step.e, step.after, step.result, row);
    } else {
      UnheldStep(c, w, step, row.envelope.id);
    }
  }

  /**
   * A row left SENT is never transmitted again: it keeps its status and attempts for ever, or is
   * dropped by compaction. Only a copy that was already on the link may still reach the intake.
   */
  lemma {:induction false} StrandedForever(c: Config, w: World, steps: seq<Step>, row: Row)
    requires Inv(w) && Legal(c, w, steps) && (Stranded(w, row) || GoneForGood(w, row))
    ensures Stranded(Run(c, w, steps), row) || GoneForGood(Run(c, w, steps), row)
    ensures SentTimes(Run(c, w, steps), row.envelope.id) == SentTimes(w, row.envelope.id)
    decreases |steps|
  {
    if steps != [] {
      hide Inv, Stranded, GoneForGood, SentTimes, Enabled, Apply;
      StepKeepsInv(c, w, steps[0]);
      StrandedStep(c, w, steps[0], row);
      StrandedForever(c, Apply(c, w, steps[0]), steps[1..], row);
    }
  }

  /** A crash strands every row that was being transmitted. */
  lemma CrashStrands(c: Config, w: World, id: string)
    requires Inv(w) && id in w.rows && w.rows[id].status == Sent
    ensures Stranded(Apply(c, w, Crash), w.rows[id])
  {
  }
}
