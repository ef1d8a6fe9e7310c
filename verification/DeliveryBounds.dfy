/** The size of the outbox, and which rows compaction takes from it. */
module DeliveryBounds {
  import opened DeliveryOutbox
  import opened DeliveryIntake
  import opened DeliveryProtocol
  import opened DeliveryRefinement

  // ---------------------------------------------------------------- size

  lemma RowsShrink(c: Config, w: World, step: Step)
    requires Enabled(c, w, step) && !step.AppendEnvelope?
    ensures var r := Apply(c, w, step);
            && r.appended == w.appended && r.dropped == w.dropped && r.rows.Keys <= w.rows.Keys
            && forall id :: id in r.rows ==> r.rows[id].envelope == w.rows[id].envelope
  {
    hide IsBatch, Compacted, HasKey;
  }

  lemma StepSize(c: Config, w: World, step: Step)
    requires Enabled(c, w, step) && |w.rows| <= c.maxEntries
    ensures |Apply(c, w, step).rows| <= c.maxEntries
  {
    if step.AppendEnvelope? {
      AppendCases(c, w, step.e, step.after, step.result);
      hide HasKey, OlderGone;
    } else {
      var r := Apply(c, w, step);
      RowsShrink(c, w, step);
      hide Apply, Enabled;
      SubsetSize(r.rows.Keys, w.rows.Keys);
      assert |r.rows| == |r.rows.Keys| && |w.rows| == |w.rows.Keys|;
    }
  }

  lemma {:induction false} RunSize(c: Config, w: World, steps: seq<Step>)
    requires Legal(c, w, steps) && |w.rows| <= c.maxEntries
    ensures |Run(c, w, steps).rows| <= c.maxEntries
    decreases |steps|
  {
    if steps != [] {
      hide Enabled, Apply;
      StepSize(c, w, steps[0]);
      RunSize(c, Apply(c, w, steps[0]), steps[1..]);
    }
  }

  /** On every run whatsoever the outbox stays within its bound. */
  lemma OutboxBounded(c: Config, steps: seq<Step>)
    requires Legal(c, Start, steps)
    ensures |Run(c, Start, steps).rows| <= c.maxEntries
  {
    RunSize(c, Start, steps);
  }

  // ---------------------------------------------------------------- appends that lose their own row

  /** No append met its own row missing after compaction. */
  ghost predicate NoneEvicted(steps: seq<Step>) {
    forall i :: 0 <= i < |steps| && steps[i].AppendEnvelope? ==> steps[i].result != Evicted
  }

  ghost predicate UniqueSequences(envelopes: set<Envelope>) {
    forall a, b :: a in envelopes && b in envelopes && a.sequence == b.sequence ==> a == b
  }

  /** Sequences are drawn once and used once. */
  ghost predicate SequencesOk(w: World) {
    && UniqueSequences(w.appended)
    && (forall a :: a in w.appended ==> a.sequence !in w.drawn && a.sequence <= w.sequence)
    && (forall n :: n in w.drawn ==> n <= w.sequence)
  }

  lemma SequenceUsed(w: World, r: World, e: Envelope)
    requires SequencesOk(w) && e.sequence in w.drawn && r.drawn == w.drawn - {e.sequence} && r.sequence == w.sequence
    requires r.appended == w.appended || r.appended == w.appended + {Stored(e)}
    ensures SequencesOk(r)
  {
    hide KeyOf;
  }

  lemma SequencesLeft(w: World, r: World)
    requires SequencesOk(w) && r.drawn <= w.drawn && r.sequence == w.sequence && r.appended == w.appended
    ensures SequencesOk(r)
  {
  }

  lemma StepKeepsSequences(c: Config, w: World, step: Step)
    requires SequencesOk(w) && Enabled(c, w, step)
    ensures SequencesOk(Apply(c, w, step))
  {
    hide AppendsTo, IsBatch, Accept, Mark;
    if step.AppendEnvelope? {
      AppendCases(c, w, step.e, step.after, step.result);
      hide SequencesOk;
      SequenceUsed(w, Apply(c, w, step), step.e);
    } else if !step.Draw? {
      hide SequencesOk;
      SequencesLeft(w, Apply(c, w, step));
    }
  }

  lemma {:induction false} RunKeepsSequences(c: Config, w: World, steps: seq<Step>)
    requires SequencesOk(w) && Legal(c, w, steps)
    ensures SequencesOk(Run(c, w, steps))
    decreases |steps|
  {
    if steps != [] {
      hide SequencesOk, Enabled, Apply;
      StepKeepsSequences(c, w, steps[0]);
      RunKeepsSequences(c, Apply(c, w, steps[0]), steps[1..]);
    }
  }

  /** The envelope is new, and the outbox is full of newer ones. */
  predicate Late(c: Config, t: Table, e: Envelope) {
    !HasKey(t, KeyOf(e)) && e.id !in t && |t| == c.maxEntries && forall id :: id in t ==> e.sequence < SequenceOf(t, id)
  }

  /** No envelope is appended late. */
  ghost predicate NoneLate(c: Config, w: World, steps: seq<Step>)
    requires Legal(c, w, steps)
    decreases |steps|
  {
    steps == [] || ((steps[0].AppendEnvelope? ==> !Late(c, w.rows, steps[0].e)) && NoneLate(c, Apply(c, w, steps[0]), steps[1..]))
  }

  lemma LateExactly(c: Config, w: World, e: Envelope, after: Table, result: AppendResult)
    requires RowsOk(w) && SequencesOk(w) && |w.rows| <= c.maxEntries && Enabled(c, w, AppendEnvelope(e, after, result))
    ensures result == Evicted <==> Late(c, w.rows, e)
  {
    forall id | id in w.rows
      ensures SequenceOf(w.rows, id) != e.sequence
    {
      assert w.rows[id].envelope in w.appended;
    }
    assert AppendsTo(w.rows, e, c.maxEntries, after, result);
    hide RowsOk, SequencesOk, Enabled, AppendsTo, HasKey;
    EvictedExactlyWhenOldest(w.rows, e, c.maxEntries, after, result);
  }

  lemma {:induction false} RunEvicts(c: Config, w: World, steps: seq<Step>)
    requires Inv(w) && SequencesOk(w) && |w.rows| <= c.maxEntries && Legal(c, w, steps)
    ensures NoneEvicted(steps) <==> NoneLate(c, w, steps)
    decreases |steps|
  {
    if steps != [] {
      var step, rest := steps[0], steps[1..];
      assert RowsOk(w);
      hide Inv, SequencesOk, RowsOk, Enabled, Apply, Late;
      StepKeepsInv(c, w, step);
      StepKeepsSequences(c, w, step);
      StepSize(c, w, step);
      RunEvicts(c, Apply(c, w, step), rest);
      if step.AppendEnvelope? { LateExactly(c, w, step.e, step.after, step.result); }
      NoneEvictedStep(steps);
    }
  }

  lemma NoneEvictedStep(steps: seq<Step>)
    requires steps != []
    ensures NoneEvicted(steps) <==> (steps[0].AppendEnvelope? ==> steps[0].result != Evicted) && NoneEvicted(steps[1..])
  {
    assert forall i :: 0 <= i < |steps[1..]| ==> steps[1..][i] == steps[i + 1];
    if NoneEvicted(steps[1..]) && (steps[0].AppendEnvelope? ==> steps[0].result != Evicted) {
      forall i | 0 <= i < |steps| && steps[i].AppendEnvelope?
        ensures steps[i].result != Evicted
      {
        if i > 0 { assert steps[1..][i - 1] == steps[i]; }
      }
    }
  }

  /** On every run, the assertion in an append fails exactly when an envelope is appended to an outbox full of newer ones. */
  lemma EvictedExactly(c: Config, steps: seq<Step>)
    requires Legal(c, Start, steps)
    ensures NoneEvicted(steps) <==> NoneLate(c, Start, steps)
  {
    RunEvicts(c, Start, steps);
  }

  // ---------------------------------------------------------------- appends in sequence order

  /** Every envelope is appended before the next sequence is used. */
  ghost predicate InOrder(c: Config, w: World, steps: seq<Step>)
    requires Legal(c, w, steps)
    decreases |steps|
  {
    steps == [] ||
    (&& (steps[0].AppendEnvelope? ==> forall a :: a in w.appended ==> a.sequence < steps[0].e.sequence)
     && InOrder(c, Apply(c, w, steps[0]), steps[1..]))
  }

  /** An envelope that left the table, and is older than everything in it. */
  ghost predicate Below(d: Envelope, t: Table) {
    d.id !in t && forall id :: id in t ==> d.sequence < SequenceOf(t, id)
  }

  ghost predicate RowsAmong(t: Table, envelopes: set<Envelope>) {
    forall id :: id in t ==> t[id].envelope.id == id && t[id].envelope in envelopes
  }

  /** Sequences tell envelopes apart, and what compaction dropped is older than all that is left. */
  ghost predicate Trimmed(w: World) {
    UniqueSequences(w.appended) && forall d :: d in w.dropped ==> Below(d, w.rows)
  }

  /** Rows may be marked or deleted without disturbing the order. */
  lemma StillTrimmed(w: World, r: World)
    requires Trimmed(w) && r.appended == w.appended && r.dropped == w.dropped && r.rows.Keys <= w.rows.Keys
    requires forall id :: id in r.rows ==> r.rows[id].envelope == w.rows[id].envelope
    ensures Trimmed(r)
  {
  }

  lemma CompactedBelow(full: Table, after: Table, envelopes: set<Envelope>, maxEntries: nat, gone: string)
    requires Compacted(full, after, maxEntries) && RowsAmong(full, envelopes) && UniqueSequences(envelopes)
    requires gone in full && gone !in after
    ensures Below(full[gone].envelope, after)
  {
    forall id | id in after
      ensures SequenceOf(full, gone) < SequenceOf(after, id)
    {
      assert id in full && after[id] == full[id];
      assert SequenceOf(full, gone) <= SequenceOf(full, id);
      assert full[gone].envelope.id != full[id].envelope.id;
    }
  }

  lemma FullTable(w: World, e: Envelope)
    requires RowsOk(w) && Trimmed(w) && w.dropped <= w.appended && forall a :: a in w.appended ==> a.sequence < e.sequence
    requires forall a :: a in w.appended ==> a.id != e.id
    ensures RowsAmong(w.rows[e.id := NewRow(e)], w.appended + {Stored(e)})
    ensures UniqueSequences(w.appended + {Stored(e)})
    ensures forall d :: d in w.dropped ==> Below(d, w.rows[e.id := NewRow(e)])
  {
    StoredTwice(e);
  }

  lemma InsertedTrimmed(w: World, e: Envelope, after: Table, maxEntries: nat)
    requires RowsOk(w) && w.dropped <= w.appended && Trimmed(w) && Inserts(w, e, after, maxEntries)
    requires forall a :: a in w.appended ==> a.sequence < e.sequence
    ensures Trimmed(Inserted(w, e, after))
  {
    var r, full := Inserted(w, e, after), w.rows[e.id := NewRow(e)];
    assert Compacted(full, after, maxEntries) && r.rows == after && r.appended == w.appended + {Stored(e)};
    FullTable(w, e);
    assert forall id :: id in after ==> id in full && after[id] == full[id];
    assert forall d :: d in r.dropped ==> d in w.dropped || exists id :: id in full && id !in after && full[id].envelope == d;
    hide Inserts, Inserted, HasKey, Compacted, RowsOk, NewRow, RowsAmong;
    forall d | d in r.dropped
      ensures Below(d, after)
    {
      if d in w.dropped {
        assert Below(d, full);
      } else {
        var gone :| gone in full && gone !in after && full[gone].envelope == d;
        CompactedBelow(full, after, r.appended, maxEntries, gone);
      }
    }
  }

  lemma AppendTrims(c: Config, w: World, e: Envelope, after: Table, result: AppendResult)
    requires Inv(w) && Trimmed(w) && Enabled(c, w, AppendEnvelope(e, after, result))
    requires forall a :: a in w.appended ==> a.sequence < e.sequence
    ensures Trimmed(Apply(c, w, AppendEnvelope(e, after, result)))
    ensures c.maxEntries >= 1 ==> !Late(c, w.rows, e)
  {
    AppendCases(c, w, e, after, result);
    forall id | id in w.rows
      ensures SequenceOf(w.rows, id) < e.sequence
    {
      assert w.rows[id].envelope in w.appended;
    }
    assert |w.rows| >= 1 ==> w.rows.Keys != {};
    if !(result.Existing? || result.DuplicateId?) { InsertedTrimmed(w, e, after, c.maxEntries); }
  }

  lemma StepTrims(c: Config, w: World, step: Step)
    requires Inv(w) && Trimmed(w) && Enabled(c, w, step)
    requires step.AppendEnvelope? ==> forall a :: a in w.appended ==> a.sequence < step.e.sequence
    ensures Trimmed(Apply(c, w, step))
    ensures step.AppendEnvelope? && c.maxEntries >= 1 ==> !Late(c, w.rows, step.e)
  {
    if step.AppendEnvelope? {
      AppendTrims(c, w, step.e, step.after, step.result);
    } else {
      RowsShrink(c, w, step);
      hide Apply, Enabled;
      StillTrimmed(w, Apply(c, w, step));
    }
  }

  lemma {:induction false} RunTrims(c: Config, w: World, steps: seq<Step>)
    requires Inv(w) && Trimmed(w) && Legal(c, w, steps) && InOrder(c, w, steps)
    ensures Trimmed(Run(c, w, steps)) && (c.maxEntries >= 1 ==> NoneLate(c, w, steps))
    decreases |steps|
  {
    if steps != [] {
      hide Inv, Trimmed, Enabled, Apply, Late;
      StepTrims(c, w, steps[0]);
      StepKeepsInv(c, w, steps[0]);
      RunTrims(c, Apply(c, w, steps[0]), steps[1..]);
    }
  }

  /**
   * On every run whose envelopes are appended in the order of their sequences, an append always
   * finds its row again, and everything that compaction dropped is older than everything left.
   */
  lemma InOrderKeepsNewest(c: Config, steps: seq<Step>)
    requires c.maxEntries >= 1 && Legal(c, Start, steps) && InOrder(c, Start, steps)
    ensures var w := Run(c, Start, steps);
            NoneEvicted(steps) && forall d, id :: d in w.dropped && id in w.rows ==> d.sequence < SequenceOf(w.rows, id)
  {
    assert UniqueSequences(Start.appended);
    RunTrims(c, Start, steps);
    EvictedExactly(c, steps);
  }

  // ---------------------------------------------------------------- a late append

  /** Publishers draw `n` sequences before any of them appends. */
  function Draws(n: nat): seq<Step> {
    if n == 0 then [] else Draws(n - 1) + [Draw]
  }

  function UpTo(n: nat): (numbers: set<int>)
    ensures forall i :: i in numbers <==> 1 <= i <= n
  {
    if n == 0 then {} else UpTo(n - 1) + {n}
  }

  function AllDrawn(n: nat): World {
    Start.(sequence := n, drawn := UpTo(n))
  }

  lemma {:induction false} DrawsLead(c: Config, n: nat)
    ensures Legal(c, Start, Draws(n)) && Run(c, Start, Draws(n)) == AllDrawn(n)
  {
    if n == 0 {
      assert AllDrawn(0).drawn == {};
    } else {
      DrawsLead(c, n - 1);
      assert Apply(c, AllDrawn(n - 1), Draw) == AllDrawn(n);
      OneStep(c, AllDrawn(n - 1), Draw);
      hide Enabled, Apply, AllDrawn;
      RunsOn(c, Start, Draws(n - 1), [Draw]);
    }
  }

  function Filled(t: Table, batch: seq<Envelope>): Table
    decreases |batch|
  {
    if batch == [] then t else Filled(t[batch[0].id := NewRow(batch[0])], batch[1..])
  }

  function FillSteps(t: Table, batch: seq<Envelope>): seq<Step>
    decreases |batch|
  {
    if batch == [] then []
    else
      var next := t[batch[0].id := NewRow(batch[0])];
      [AppendEnvelope(batch[0], next, Appended(NewRow(batch[0])))] + FillSteps(next, batch[1..])
  }

  ghost predicate Unused(w: World, e: Envelope) {
    && e.sequence in w.drawn && (forall a :: a in w.appended ==> a.id != e.id)
    && e.id !in w.rows && !HasKey(w.rows, KeyOf(e))
  }

  predicate Apart(a: Envelope, b: Envelope) {
    a.id != b.id && KeyOf(a) != KeyOf(b) && a.sequence != b.sequence
  }

  /** The world after one append that fits. */
  function Fitted(w: World, e: Envelope): World {
    w.(rows := w.rows[e.id := NewRow(e)], drawn := w.drawn - {e.sequence}, appended := w.appended + {Stored(e)})
  }

  lemma FitsStep(c: Config, w: World, e: Envelope)
    requires Unused(w, e) && |w.rows| < c.maxEntries
    ensures var step := AppendEnvelope(e, w.rows[e.id := NewRow(e)], Appended(NewRow(e)));
            Enabled(c, w, step) && Apply(c, w, step) == Fitted(w, e)
  {
    var t := w.rows[e.id := NewRow(e)];
    assert t.Keys == w.rows.Keys + {e.id} && |t| == |w.rows| + 1;
    assert Enabled(c, w, AppendEnvelope(e, t, Appended(NewRow(e))));
    assert Inserted(w, e, t).dropped == w.dropped;
  }

  lemma StillUnused(w: World, e: Envelope, x: Envelope)
    requires Unused(w, x) && Apart(x, e)
    ensures Unused(Fitted(w, e), x)
  {
    StoredTwice(e);
  }

  /** `batch` can be appended in order, and `late` is older than all of it and all that is stored. */
  ghost predicate Waits(w: World, batch: seq<Envelope>, late: Envelope) {
    && Unused(w, late)
    && (forall i :: 0 <= i < |batch| ==> Unused(w, batch[i]) && Apart(late, batch[i]) && late.sequence < batch[i].sequence)
    && (forall i, j :: 0 <= i < j < |batch| ==> Apart(batch[j], batch[i]))
    && (forall id :: id in w.rows ==> late.sequence < SequenceOf(w.rows, id))
  }

  lemma FittedRows(w: World, e: Envelope, late: Envelope)
    requires Unused(w, e) && late.sequence < e.sequence
    requires forall id :: id in w.rows ==> late.sequence < SequenceOf(w.rows, id)
    ensures |Fitted(w, e).rows| == |w.rows| + 1
    ensures forall id :: id in Fitted(w, e).rows ==> late.sequence < SequenceOf(Fitted(w, e).rows, id)
  {
    assert Fitted(w, e).rows.Keys == w.rows.Keys + {e.id};
  }

  lemma WaitsOn(w: World, batch: seq<Envelope>, late: Envelope)
    requires Waits(w, batch, late) && batch != []
    ensures Waits(Fitted(w, batch[0]), batch[1..], late) && |Fitted(w, batch[0]).rows| == |w.rows| + 1
  {
    var e, rest, next := batch[0], batch[1..], Fitted(w, batch[0]);
    hide Fitted, Unused, Apart, SequenceOf;
    StillUnused(w, e, late);
    FittedRows(w, e, late);
    forall i | 0 <= i < |rest|
      ensures Unused(next, rest[i]) && Apart(late, rest[i]) && late.sequence < rest[i].sequence
    {
      assert rest[i] == batch[i + 1];
      StillUnused(w, e, rest[i]);
    }
  }

  lemma NowWaits(w: World, late: Envelope)
    requires Waits(w, [], late)
    ensures Unused(w, late) && forall id :: id in w.rows ==> late.sequence < SequenceOf(w.rows, id)
  {
  }

  lemma {:induction false} Fills(c: Config, w: World, batch: seq<Envelope>, late: Envelope)
    requires |w.rows| + |batch| <= c.maxEntries && Waits(w, batch, late)
    ensures Legal(c, w, FillSteps(w.rows, batch))
    ensures var r := Run(c, w, FillSteps(w.rows, batch));
            r.rows == Filled(w.rows, batch) && |r.rows| == |w.rows| + |batch| && Waits(r, [], late)
    decreases |batch|
  {
    var steps := FillSteps(w.rows, batch);
    if batch != [] {
      var next := Fitted(w, batch[0]);
      WaitsOn(w, batch, late);
      FitsStep(c, w, batch[0]);
      assert steps[1..] == FillSteps(next.rows, batch[1..]);
      hide Enabled, Apply, Fitted, NewRow, Waits;
      Fills(c, next, batch[1..], late);
    }
  }

  lemma LateDoesNotFit(c: Config, w: World, e: Envelope)
    requires Unused(w, e) && |w.rows| == c.maxEntries
    requires forall id :: id in w.rows ==> e.sequence < SequenceOf(w.rows, id)
    ensures Enabled(c, w, AppendEnvelope(e, w.rows, Evicted))
  {
    var full := w.rows[e.id := NewRow(e)];
    assert full.Keys == w.rows.Keys + {e.id} && |full| == |w.rows| + 1;
  }

  /** All sequences are drawn first; then every envelope but the first is appended, and the first one last. */
  function LateAppend(es: seq<Envelope>): seq<Step>
    requires es != []
  {
    Draws(|es|) + FillSteps(map[], es[1..]) + [AppendEnvelope(es[0], Filled(map[], es[1..]), Evicted)]
  }

  lemma AllWait(es: seq<Envelope>)
    requires es != [] && forall i :: 0 <= i < |es| ==> es[i].sequence == i + 1
    requires forall i, j :: 0 <= i < j < |es| ==> es[i].id != es[j].id && KeyOf(es[i]) != KeyOf(es[j])
    ensures Waits(AllDrawn(|es|), es[1..], es[0])
  {
    assert forall i :: 0 <= i < |es[1..]| ==> es[1..][i] == es[i + 1];
    hide KeyOf;
  }

  /** For outboxes of every size: one publisher that appends too late does not find its row again. */
  lemma LateAppendEvicted(c: Config, es: seq<Envelope>)
    requires |es| == c.maxEntries + 1 && forall i :: 0 <= i < |es| ==> es[i].sequence == i + 1
    requires forall i, j :: 0 <= i < j < |es| ==> es[i].id != es[j].id && KeyOf(es[i]) != KeyOf(es[j])
    ensures Legal(c, Start, LateAppend(es)) && !NoneEvicted(LateAppend(es))
  {
    var w, batch := AllDrawn(|es|), es[1..];
    var fill, last := FillSteps(map[], batch), AppendEnvelope(es[0], Filled(map[], batch), Evicted);
    DrawsLead(c, |es|);
    AllWait(es);
    assert w.rows == map[];
    hide Waits, Unused, Legal, Run, FillSteps, Filled;
    Fills(c, w, batch, es[0]);
    var full := Run(c, w, fill);
    NowWaits(full, es[0]);
    LateDoesNotFit(c, full, es[0]);
    var steps := LateAppend(es);
    assert steps == Draws(|es|) + fill + [last] && steps[|steps| - 1] == last;
    hide *;
    OneStep(c, full, last);
    RunsOn(c, Start, Draws(|es|), fill);
    RunsOn(c, Start, Draws(|es|) + fill, [last]);
    SomeEvicted(steps, |steps| - 1);
  }

  lemma SomeEvicted(steps: seq<Step>, i: nat)
    requires i < |steps| && steps[i].AppendEnvelope? && steps[i].result == Evicted
    ensures !NoneEvicted(steps)
  {
  }

  // ---------------------------------------------------------------- order within a flush

  /** What is left to do is in sequence order, and not older than the row that is being dealt with. */
  ghost predicate QueueInOrder(flush: Flush) {
    && Ordered(flush.queue)
    && (!flush.phase.Idle? ==> forall i :: 0 <= i < |flush.queue| ==>
          flush.phase.row.envelope.sequence <= flush.queue[i].envelope.sequence)
  }

  ghost predicate QueuesInOrder(w: World) {
    forall f :: f in w.flushes ==> QueueInOrder(w.flushes[f])
  }

  lemma StepKeepsQueues(c: Config, w: World, step: Step)
    requires QueuesInOrder(w) && Enabled(c, w, step)
    ensures QueuesInOrder(Apply(c, w, step))
  {
    var r := Apply(c, w, step);
    forall f | f in r.flushes
      ensures QueueInOrder(r.flushes[f])
    {
      if f in w.flushes { assert QueueInOrder(w.flushes[f]); }
    }
  }

  /** On every run, each flush deals with its rows in sequence order, however flushes overlap. */
  lemma {:induction false} FlushesInOrder(c: Config, w: World, steps: seq<Step>)
    requires QueuesInOrder(w) && Legal(c, w, steps)
    ensures QueuesInOrder(Run(c, w, steps))
    decreases |steps|
  {
    if steps != [] {
      StepKeepsQueues(c, w, steps[0]);
      hide Apply, Enabled, QueuesInOrder;
      FlushesInOrder(c, Apply(c, w, steps[0]), steps[1..]);
    }
  }
}
