/** A flush that runs alone takes the steps of the transition system, one row after the other. */
module DeliveryRefinement {
  import opened DeliveryOutbox
  import opened DeliveryIntake
  import opened DeliveryWorker
  import opened DeliveryProtocol

  /** What the link does with one transmission. */
  datatype Fate = RequestLost | AnswerLost | Answered

  /** The steps for the row at the head of flush `f`. */
  function RowSteps(f: nat, row: Row, fate: Fate, maxAttempts: nat): seq<Step> {
    if Exhausted(row, maxAttempts) then [Skip(f)]
    else
      match fate
      case RequestLost => [Send(f), LoseRequest(f), Settle(f)]
      case AnswerLost => [Send(f), Deliver(f), LoseAnswer(f), Settle(f)]
      case Answered => [Send(f), Deliver(f), AnswerArrives(f), Settle(f)]
  }

  function BatchSteps(f: nat, batch: seq<Row>, fates: seq<Fate>, maxAttempts: nat): seq<Step>
    requires |fates| >= |batch|
  {
    if batch == [] then []
    else RowSteps(f, batch[0], fates[0], maxAttempts) + BatchSteps(f, batch[1..], fates[1..], maxAttempts)
  }

  /** The intake after one row, and the answer that the worker sees. */
  function RowAnswer(c: Config, intake: IntakeTable, row: Row, fate: Fate): (IntakeTable, Answer) {
    if Exhausted(row, c.maxAttempts) then (intake, Refused)
    else if fate == RequestLost then (intake, Raised)
    else
      var (table, verdict) := Accept(intake, c.rules, row.envelope);
      (table, if fate == AnswerLost then Raised else if verdict == Accepted then Acknowledged else Refused)
  }

  function BatchAnswers(c: Config, intake: IntakeTable, batch: seq<Row>, fates: seq<Fate>): (answers: seq<Answer>)
    requires |fates| >= |batch|
    ensures |answers| == |batch|
    decreases |batch|
  {
    if batch == [] then []
    else
      var (table, answer) := RowAnswer(c, intake, batch[0], fates[0]);
      [answer] + BatchAnswers(c, table, batch[1..], fates[1..])
  }

  lemma {:induction false} RunsOn(c: Config, w: World, a: seq<Step>, b: seq<Step>)
    requires Legal(c, w, a) && Legal(c, Run(c, w, a), b)
    ensures Legal(c, w, a + b) && Run(c, w, a + b) == Run(c, Run(c, w, a), b)
    decreases |a|
  {
    if a == [] {
      assert a + b == b;
    } else {
      assert (a + b)[1..] == a[1..] + b;
      RunsOn(c, Apply(c, w, a[0]), a[1..], b);
    }
  }

  lemma OneStep(c: Config, w: World, step: Step)
    requires Enabled(c, w, step)
    ensures Legal(c, w, [step]) && Run(c, w, [step]) == Apply(c, w, step)
  {
    assert [step][1..] == [];
  }

  /** Send and whatever the link does next leave the flush settled, with the answer known. */
  lemma RowSends(c: Config, w: World, f: nat, fate: Fate) returns (steps: seq<Step>)
    requires f in w.flushes && NextIs(w.flushes[f]) && !Exhausted(w.flushes[f].queue[0], c.maxAttempts)
    ensures RowSteps(f, w.flushes[f].queue[0], fate, c.maxAttempts) == steps + [Settle(f)]
    ensures Legal(c, w, steps)
    ensures var row := w.flushes[f].queue[0];
            var (table, answer) := RowAnswer(c, w.intake, row, fate);
            var r := Run(c, w, steps);
            && r.rows == Mark(w.rows, row.envelope.id, Sent) && r.intake == table
            && r.flushes == w.flushes[f := Flush(w.flushes[f].queue[1..], Settled(row, answer == Acknowledged))]
  {
    var w1 := Apply(c, w, Send(f));
    OneStep(c, w, Send(f));
    if fate == RequestLost {
      OneStep(c, w1, LoseRequest(f));
      RunsOn(c, w, [Send(f)], [LoseRequest(f)]);
      steps := [Send(f)] + [LoseRequest(f)];
    } else {
      var w2 := Apply(c, w1, Deliver(f));
      OneStep(c, w1, Deliver(f));
      RunsOn(c, w, [Send(f)], [Deliver(f)]);
      var last := if fate == AnswerLost then LoseAnswer(f) else AnswerArrives(f);
      OneStep(c, w2, last);
      RunsOn(c, w, [Send(f)] + [Deliver(f)], [last]);
      steps := [Send(f)] + [Deliver(f)] + [last];
    }
  }

  /** One row: the steps change the outbox as the worker's loop body does. */
  lemma RowRefines(c: Config, w: World, f: nat, fate: Fate)
    requires f in w.flushes && NextIs(w.flushes[f])
    ensures var row := w.flushes[f].queue[0];
            var steps := RowSteps(f, row, fate, c.maxAttempts);
            var (table, answer) := RowAnswer(c, w.intake, row, fate);
            && Legal(c, w, steps)
            && var r := Run(c, w, steps);
               && r.rows == FlushRow(w.rows, row, answer, c.maxAttempts) && r.intake == table
               && r.flushes == w.flushes[f := Flush(w.flushes[f].queue[1..], Idle)]
  {
    var row := w.flushes[f].queue[0];
    if Exhausted(row, c.maxAttempts) {
      OneStep(c, w, Skip(f));
    } else {
      var steps := RowSends(c, w, f, fate);
      var settled := Run(c, w, steps);
      hide Legal, Run, RowSteps, Accept, NextIs;
      OneStep(c, settled, Settle(f));
      RunsOn(c, w, steps, [Settle(f)]);
    }
  }

  /** The intake after all rows of a batch. */
  function BatchIntake(c: Config, intake: IntakeTable, batch: seq<Row>, fates: seq<Fate>): IntakeTable
    requires |fates| >= |batch|
    decreases |batch|
  {
    if batch == [] then intake
    else BatchIntake(c, RowAnswer(c, intake, batch[0], fates[0]).0, batch[1..], fates[1..])
  }

  /** The rows of a flush, one after the other. */
  lemma {:induction false} BatchRefines(c: Config, w: World, f: nat, fates: seq<Fate>)
    requires f in w.flushes && w.flushes[f].phase == Idle && |fates| >= |w.flushes[f].queue|
    ensures var batch := w.flushes[f].queue;
            var steps := BatchSteps(f, batch, fates, c.maxAttempts);
            && Legal(c, w, steps)
            && var r := Run(c, w, steps);
               && r.rows == FlushRows(w.rows, batch, BatchAnswers(c, w.intake, batch, fates), c.maxAttempts)
               && r.intake == BatchIntake(c, w.intake, batch, fates)
               && r.flushes == w.flushes[f := Flush([], Idle)]
    decreases |w.flushes[f].queue|
  {
    var batch := w.flushes[f].queue;
    if batch != [] {
      RowRefines(c, w, f, fates[0]);
      var first := RowSteps(f, batch[0], fates[0], c.maxAttempts);
      var mid := Run(c, w, first);
      hide Legal, Run, RowSteps, RowAnswer, FlushRow;
      BatchRefines(c, mid, f, fates[1..]);
      RunsOn(c, w, first, BatchSteps(f, batch[1..], fates[1..], c.maxAttempts));
    } else {
      assert w.flushes[f := Flush([], Idle)] == w.flushes;
    }
  }

  /** A whole flush: selection, all rows, and the end. */
  function FlushSteps(f: nat, batch: seq<Row>, fates: seq<Fate>, maxAttempts: nat): seq<Step>
    requires |fates| >= |batch|
  {
    [StartFlush(f, batch)] + BatchSteps(f, batch, fates, maxAttempts) + [EndFlush(f)]
  }

  /** An undisturbed flush is a legal run to the table that `FlushOnce` is specified to leave. */
  lemma FlushRefines(c: Config, w: World, f: nat, batch: seq<Row>, fates: seq<Fate>)
    requires f !in w.flushes && IsBatch(w.rows, batch, c.batchSize) && |fates| >= |batch|
    ensures var steps := FlushSteps(f, batch, fates, c.maxAttempts);
            && Legal(c, w, steps)
            && var r := Run(c, w, steps);
               && r.rows == FlushRows(w.rows, batch, BatchAnswers(c, w.intake, batch, fates), c.maxAttempts)
               && r.intake == BatchIntake(c, w.intake, batch, fates) && r.flushes == w.flushes
  {
    var started := Apply(c, w, StartFlush(f, batch));
    OneStep(c, w, StartFlush(f, batch));
    BatchRefines(c, started, f, fates);
    var rows := BatchSteps(f, batch, fates, c.maxAttempts);
    var done := Run(c, started, rows);
    OneStep(c, done, EndFlush(f));
    assert w.flushes[f := Flush(batch, Idle)][f := Flush([], Idle)] - {f} == w.flushes;
    hide Legal, Run, BatchSteps, IsBatch, BatchAnswers, BatchIntake, FlushRows;
    RunsOn(c, w, [StartFlush(f, batch)], rows);
    RunsOn(c, w, [StartFlush(f, batch)] + rows, [EndFlush(f)]);
  }
}
