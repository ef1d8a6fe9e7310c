/**
 * Publisher, outbox, overlapping flushes, lossy link and intake as one transition system.
 * Every step is atomic; a flush works on the snapshot it took when it started.
 */
module DeliveryProtocol {
  import opened DeliveryOutbox
  import opened DeliveryIntake
  import opened DeliveryWorker

  datatype Config = Config(maxEntries: nat, batchSize: nat, maxAttempts: nat, rules: Rules)

  /** Where a flush stands with the row it took off its queue. */
  datatype Phase =
    | Idle
    | Transmitting(row: Row)                  // marked sent, request on its way
    | Delivered(row: Row, accepted: bool)     // the intake has answered, answer on its way
    | Settled(row: Row, acked: bool)          // the worker knows, or gave up waiting

  datatype Flush = Flush(queue: seq<Row>, phase: Phase)

  /**
   * `appended`, `dropped`, `wire` and `sent` only record history: envelopes that became rows,
   * rows lost to compaction, envelopes put on the link, and transmissions per envelope id.
   */
  datatype World = World(
    rows: Table, sequence: nat, drawn: set<int>, flushes: map<nat, Flush>, intake: IntakeTable,
    appended: set<Envelope>, dropped: set<Envelope>, wire: set<Envelope>, sent: map<string, nat>)

  const Start := World(map[], 0, {}, map[], map[], {}, {}, {}, map[])

  datatype Step =
    | Draw                                                        // next_sequence
    | AppendEnvelope(e: Envelope, after: Table, result: AppendResult)
    | StartFlush(f: nat, batch: seq<Row>)
    | Skip(f: nat)                                                // exhausted row: mark_failed only
    | Send(f: nat)                                                // mark_sent, then publish
    | Deliver(f: nat)
    | LoseRequest(f: nat)
    | AnswerArrives(f: nat)
    | LoseAnswer(f: nat)
    | Settle(f: nat)                                              // mark_acked or mark_failed
    | EndFlush(f: nat)
    | Abandon(f: nat)                                             // the worker task is cancelled
    | Duplicate(e: Envelope)                                      // the link delivers a copy again
    | Crash

  function SentTimes(w: World, id: string): nat {
    if id in w.sent then w.sent[id] else 0
  }

  ghost predicate Enabled(c: Config, w: World, step: Step) {
    match step
    case Draw => true
    case AppendEnvelope(e, after, result) =>
      && e.sequence in w.drawn
      && (forall a :: a in w.appended ==> a.id != e.id)           // envelope ids are fresh UUIDs
      && AppendsTo(w.rows, e, c.maxEntries, after, result)
    case StartFlush(f, batch) => f !in w.flushes && IsBatch(w.rows, batch, c.batchSize)
    case Skip(f) => f in w.flushes && NextIs(w.flushes[f]) && Exhausted(w.flushes[f].queue[0], c.maxAttempts)
    case Send(f) => f in w.flushes && NextIs(w.flushes[f]) && !Exhausted(w.flushes[f].queue[0], c.maxAttempts)
    case Deliver(f) => f in w.flushes && w.flushes[f].phase.Transmitting?
    case LoseRequest(f) => f in w.flushes && w.flushes[f].phase.Transmitting?
    case AnswerArrives(f) => f in w.flushes && w.flushes[f].phase.Delivered?
    case LoseAnswer(f) => f in w.flushes && w.flushes[f].phase.Delivered?
    case Settle(f) => f in w.flushes && w.flushes[f].phase.Settled?
    case EndFlush(f) => f in w.flushes && w.flushes[f].phase.Idle? && w.flushes[f].queue == []
    case Abandon(f) => f in w.flushes
    case Duplicate(e) => e in w.wire
    case Crash => true
  }

  predicate NextIs(flush: Flush) {
    flush.phase.Idle? && flush.queue != []
  }

  /** A row for `e` was inserted and compaction left `after`. */
  function Inserted(w: World, e: Envelope, after: Table): World {
    var full := w.rows[e.id := NewRow(e)];
    w.(rows := after, drawn := w.drawn - {e.sequence},
       appended := w.appended + {Stored(e)},
       dropped := w.dropped + (set id | id in full && id !in after :: full[id].envelope))
  }

  /** `mark_sent`, and the request goes out. */
  function Sending(w: World, f: nat): World
    requires f in w.flushes && NextIs(w.flushes[f])
  {
    var flush := w.flushes[f];
    var row := flush.queue[0];
    w.(rows := Mark(w.rows, row.envelope.id, Sent),
       flushes := w.flushes[f := Flush(flush.queue[1..], Transmitting(row))],
       wire := w.wire + {row.envelope},
       sent := w.sent[row.envelope.id := SentTimes(w, row.envelope.id) + 1])
  }

  /** The request reaches the intake, which answers. */
  function Delivering(c: Config, w: World, f: nat): World
    requires f in w.flushes && w.flushes[f].phase.Transmitting?
  {
    var flush := w.flushes[f];
    var (table, verdict) := Accept(w.intake, c.rules, flush.phase.row.envelope);
    w.(intake := table, flushes := w.flushes[f := flush.(phase := Delivered(flush.phase.row, verdict == Accepted))])
  }

  /** `mark_acked` on an acknowledgement, `mark_failed` on anything else. */
  function Settling(w: World, f: nat): World
    requires f in w.flushes && w.flushes[f].phase.Settled?
  {
    var flush := w.flushes[f];
    var id := flush.phase.row.envelope.id;
    w.(rows := if flush.phase.acked then w.rows - {id} else Mark(w.rows, id, Failed),
       flushes := w.flushes[f := flush.(phase := Idle)])
  }

  ghost function Apply(c: Config, w: World, step: Step): World
    requires Enabled(c, w, step)
  {
    match step
    case Draw => w.(sequence := w.sequence + 1, drawn := w.drawn + {w.sequence + 1})
    case AppendEnvelope(e, after, result) =>
      if result.Existing? || result.DuplicateId? then w.(drawn := w.drawn - {e.sequence}) else Inserted(w, e, after)
    case StartFlush(f, batch) => w.(flushes := w.flushes[f := Flush(batch, Idle)])
    case Skip(f) =>
      var flush := w.flushes[f];
      w.(rows := Mark(w.rows, flush.queue[0].envelope.id, Failed), flushes := w.flushes[f := Flush(flush.queue[1..], Idle)])
    case Send(f) => Sending(w, f)
    case Deliver(f) => Delivering(c, w, f)
    case LoseRequest(f) =>
      var flush := w.flushes[f];
      w.(flushes := w.flushes[f := flush.(phase := Settled(flush.phase.row, false))])
    case AnswerArrives(f) =>
      var flush := w.flushes[f];
      w.(flushes := w.flushes[f := flush.(phase := Settled(flush.phase.row, flush.phase.accepted))])
    case LoseAnswer(f) =>
      var flush := w.flushes[f];
      w.(flushes := w.flushes[f := flush.(phase := Settled(flush.phase.row, false))])
    case Settle(f) => Settling(w, f)
    case EndFlush(f) => w.(flushes := w.flushes - {f})
    case Abandon(f) => w.(flushes := w.flushes - {f})
    case Duplicate(e) => w.(intake := Accept(w.intake, c.rules, e).0)
    case Crash => w.(flushes := map[], drawn := {})
  }

  /** The steps can be taken one after the other from `w`. */
  ghost predicate Legal(c: Config, w: World, steps: seq<Step>)
    decreases |steps|
  {
    steps == [] || (Enabled(c, w, steps[0]) && Legal(c, Apply(c, w, steps[0]), steps[1..]))
  }

  ghost function Run(c: Config, w: World, steps: seq<Step>): World
    requires Legal(c, w, steps)
    decreases |steps|
  {
    if steps == [] then w else Run(c, Apply(c, w, steps[0]), steps[1..])
  }

  // ---------------------------------------------------------------- conservation

  /** The intake holds a row with this envelope's key and payload hash. */
  predicate Received(intake: IntakeTable, e: Envelope) {
    KeyOf(e) in intake && intake[KeyOf(e)].payloadHash == e.payloadHash
  }

  predicate InOutbox(rows: Table, e: Envelope) {
    e.id in rows && rows[e.id].envelope == e
  }

  /** Nothing that was appended is lost: it is waiting, was dropped by compaction, or was received. */
  ghost predicate Conserved(w: World) {
    forall a :: a in w.appended ==> InOutbox(w.rows, a) || a in w.dropped || Received(w.intake, a)
  }

  ghost predicate HistoryOk(w: World) {
    && (forall a :: a in w.appended ==> a == Stored(a))
    && (forall a, b :: a in w.appended && b in w.appended && a.id == b.id ==> a == b)
    && w.wire <= w.appended && w.dropped <= w.appended
    && w.sent.Keys <= IdsIn(w.appended)
  }

  function IdsIn(envelopes: set<Envelope>): set<string> {
    set e | e in envelopes :: e.id
  }

  ghost predicate RowsOk(w: World) {
    TableOk(w.rows) && forall id :: id in w.rows ==> w.rows[id].envelope in w.appended
  }

  /** Every stored row is an appended envelope under its own key. */
  ghost predicate IntakeOk(w: World) {
    forall key :: key in w.intake ==> w.intake[key] in w.appended && KeyOf(w.intake[key]) == key
  }

  ghost predicate FlushOk(appended: set<Envelope>, wire: set<Envelope>, intake: IntakeTable, flush: Flush) {
    && (forall i :: 0 <= i < |flush.queue| ==> flush.queue[i].envelope in appended)
    && (!flush.phase.Idle? ==> flush.phase.row.envelope in wire)
    && (flush.phase.Delivered? && flush.phase.accepted ==> Received(intake, flush.phase.row.envelope))
    && (flush.phase.Settled? && flush.phase.acked ==> Received(intake, flush.phase.row.envelope))
  }

  ghost predicate FlushesOk(w: World) {
    forall f :: f in w.flushes ==> FlushOk(w.appended, w.wire, w.intake, w.flushes[f])
  }

  ghost predicate Inv(w: World) {
    HistoryOk(w) && RowsOk(w) && IntakeOk(w) && FlushesOk(w) && Conserved(w)
  }

  /** A fresh row can be inserted, and compaction may leave `after`. */
  ghost predicate Inserts(w: World, e: Envelope, after: Table, maxEntries: nat) {
    && (forall a :: a in w.appended ==> a.id != e.id)
    && !HasKey(w.rows, KeyOf(e)) && e.id !in w.rows
    && Compacted(w.rows[e.id := NewRow(e)], after, maxEntries)
  }

  lemma InsertedRows(w: World, e: Envelope, after: Table, maxEntries: nat)
    requires RowsOk(w) && Inserts(w, e, after, maxEntries)
    ensures RowsOk(Inserted(w, e, after))
  {
    StoredTwice(e);
    InsertedTable(w.rows, e);
    var full := w.rows[e.id := NewRow(e)];
    assert TableOk(after) by {
      assert forall id :: id in after ==> id in full && after[id] == full[id];
    }
  }

  lemma InsertedHistory(w: World, e: Envelope, after: Table, maxEntries: nat)
    requires HistoryOk(w) && RowsOk(w) && Inserts(w, e, after, maxEntries)
    ensures HistoryOk(Inserted(w, e, after))
  {
    StoredTwice(e);
    var r := Inserted(w, e, after);
    hide Compacted, TableOk, HasKey;
    assert r.dropped <= r.appended;
    assert IdsIn(w.appended) <= IdsIn(r.appended);
  }

  lemma InsertedConserved(w: World, e: Envelope, after: Table, maxEntries: nat)
    requires Conserved(w) && RowsOk(w) && Inserts(w, e, after, maxEntries)
    ensures Conserved(Inserted(w, e, after))
  {
    StoredTwice(e);
    var r := Inserted(w, e, after);
    var full := w.rows[e.id := NewRow(e)];
    forall a | a in r.appended
      ensures InOutbox(r.rows, a) || a in r.dropped || Received(r.intake, a)
    {
      assert a == Stored(e) || a in w.appended;
      if InOutbox(full, a) {
        if a.id in after {
          assert after[a.id] == full[a.id];
        } else {
          assert a in r.dropped;
        }
      }
    }
  }

  lemma InsertedFlushes(w: World, e: Envelope, after: Table)
    requires FlushesOk(w) && IntakeOk(w)
    ensures FlushesOk(Inserted(w, e, after)) && IntakeOk(Inserted(w, e, after))
  {
    assert w.appended <= Inserted(w, e, after).appended;
  }

  lemma AppendCases(c: Config, w: World, e: Envelope, after: Table, result: AppendResult)
    requires Enabled(c, w, AppendEnvelope(e, after, result))
    ensures var r := Apply(c, w, AppendEnvelope(e, after, result));
            if result.Existing? || result.DuplicateId? then r == w.(drawn := w.drawn - {e.sequence})
            else r == Inserted(w, e, after) && Inserts(w, e, after, c.maxEntries)
  {
  }

  lemma DrawnIsFree(w: World, drawn: set<int>)
    requires Inv(w)
    ensures Inv(w.(drawn := drawn))
  {
  }

  lemma AppendKeepsInv(c: Config, w: World, e: Envelope, after: Table, result: AppendResult)
    requires Inv(w) && Enabled(c, w, AppendEnvelope(e, after, result))
    ensures Inv(Apply(c, w, AppendEnvelope(e, after, result)))
  {
    AppendCases(c, w, e, after, result);
    hide Apply, Enabled, HistoryOk, RowsOk, Conserved, FlushesOk, IntakeOk, Inserts, Inserted;
    if result.Existing? || result.DuplicateId? {
      DrawnIsFree(w, w.drawn - {e.sequence});
    } else {
      InsertedRows(w, e, after, c.maxEntries);
      InsertedHistory(w, e, after, c.maxEntries);
      InsertedConserved(w, e, after, c.maxEntries);
      InsertedFlushes(w, e, after);
    }
  }

  lemma MarkKeeps(rows: Table, id: string, status: AckStatus)
    requires TableOk(rows)
    ensures var r := Mark(rows, id, status);
            TableOk(r) && r.Keys == rows.Keys && forall k :: k in rows ==> r[k].envelope == rows[k].envelope
  {
    hide KeyOf;
  }

  /** Changing status and attempts of a row, and replacing one flush by a sound one. */
  lemma MarkedInv(w: World, id: string, status: AckStatus, f: nat, flush: Flush)
    requires Inv(w) && FlushOk(w.appended, w.wire, w.intake, flush)
    ensures Inv(w.(rows := Mark(w.rows, id, status), flushes := w.flushes[f := flush]))
  {
    MarkKeeps(w.rows, id, status);
  }

  lemma FlushReplaced(w: World, f: nat, flush: Flush)
    requires Inv(w) && FlushOk(w.appended, w.wire, w.intake, flush)
    ensures Inv(w.(flushes := w.flushes[f := flush]))
  {
  }

  lemma StartKeepsInv(c: Config, w: World, f: nat, batch: seq<Row>)
    requires Inv(w) && IsBatch(w.rows, batch, c.batchSize)
    ensures Inv(w.(flushes := w.flushes[f := Flush(batch, Idle)]))
  {
    forall i | 0 <= i < |batch|
      ensures batch[i].envelope in w.appended
    {
      assert w.rows[batch[i].envelope.id] == batch[i];
    }
    FlushReplaced(w, f, Flush(batch, Idle));
  }

  lemma SendKeepsInv(w: World, f: nat)
    requires Inv(w) && f in w.flushes && NextIs(w.flushes[f])
    ensures Inv(Sending(w, f))
  {
    var flush := w.flushes[f];
    var row := flush.queue[0];
    assert FlushOk(w.appended, w.wire, w.intake, flush);
    var wired := w.(wire := w.wire + {row.envelope}, sent := w.sent[row.envelope.id := SentTimes(w, row.envelope.id) + 1]);
    assert Inv(wired);
    MarkedInv(wired, row.envelope.id, Sent, f, Flush(flush.queue[1..], Transmitting(row)));
  }

  lemma SettleKeepsInv(w: World, f: nat)
    requires Inv(w) && f in w.flushes && w.flushes[f].phase.Settled?
    ensures Inv(Settling(w, f))
  {
    var flush := w.flushes[f];
    var e := flush.phase.row.envelope;
    assert FlushOk(w.appended, w.wire, w.intake, flush);
    var idle := flush.(phase := Idle);
    if flush.phase.acked {
      var r := w.(rows := w.rows - {e.id});
      forall a | a in r.appended
        ensures InOutbox(r.rows, a) || a in r.dropped || Received(r.intake, a)
      {
        if InOutbox(w.rows, a) && a.id == e.id { assert a == e; }
      }
      assert Inv(r);
      FlushReplaced(r, f, idle);
    } else {
      MarkedInv(w, e.id, Failed, f, idle);
    }
  }

  /** What reaches the intake is an appended envelope, and rows in the intake stay. */
  lemma ReceiveKeepsInv(c: Config, w: World, e: Envelope)
    requires Inv(w) && e in w.wire
    ensures Inv(w.(intake := Accept(w.intake, c.rules, e).0))
  {
    AcceptedIsStored(w.intake, c.rules, e);
    assert Stored(e) == e;
  }

  lemma DeliverKeepsInv(c: Config, w: World, f: nat)
    requires Inv(w) && f in w.flushes && w.flushes[f].phase.Transmitting?
    ensures Inv(Delivering(c, w, f))
  {
    var flush := w.flushes[f];
    var e := flush.phase.row.envelope;
    assert FlushOk(w.appended, w.wire, w.intake, flush);
    ReceiveKeepsInv(c, w, e);
    AcceptedIsStored(w.intake, c.rules, e);
    var (table, verdict) := Accept(w.intake, c.rules, e);
    FlushReplaced(w.(intake := table), f, flush.(phase := Delivered(flush.phase.row, verdict == Accepted)));
  }

  lemma StepKeepsInv(c: Config, w: World, step: Step)
    requires Inv(w) && Enabled(c, w, step)
    ensures Inv(Apply(c, w, step))
  {
    match step {
      case Draw => DrawnIsFree(w, w.drawn + {w.sequence + 1}); DrawKeepsInv(w.(drawn := w.drawn + {w.sequence + 1}), w.sequence + 1);
      case AppendEnvelope(e, after, result) => AppendKeepsInv(c, w, e, after, result);
      case StartFlush(f, batch) => StartKeepsInv(c, w, f, batch);
      case Skip(f) =>
        var flush := w.flushes[f];
        MarkedInv(w, flush.queue[0].envelope.id, Failed, f, Flush(flush.queue[1..], Idle));
      case Send(f) => SendKeepsInv(w, f);
      case Deliver(f) => DeliverKeepsInv(c, w, f);
      case LoseRequest(f) => FlushReplaced(w, f, w.flushes[f].(phase := Settled(w.flushes[f].phase.row, false)));
      case AnswerArrives(f) =>
        FlushReplaced(w, f, w.flushes[f].(phase := Settled(w.flushes[f].phase.row, w.flushes[f].phase.accepted)));
      case LoseAnswer(f) => FlushReplaced(w, f, w.flushes[f].(phase := Settled(w.flushes[f].phase.row, false)));
      case Settle(f) => SettleKeepsInv(w, f);
      case EndFlush(f) => FlushesGone(w, w.flushes - {f}, w.drawn);
      case Abandon(f) => FlushesGone(w, w.flushes - {f}, w.drawn);
      case Duplicate(e) => ReceiveKeepsInv(c, w, e);
      case Crash => FlushesGone(w, map[], {});
    }
  }

  lemma DrawKeepsInv(w: World, n: nat)
    requires Inv(w)
    ensures Inv(w.(sequence := n))
  {
  }

  lemma FlushesGone(w: World, left: map<nat, Flush>, drawn: set<int>)
    requires Inv(w) && left.Keys <= w.flushes.Keys && forall f :: f in left ==> left[f] == w.flushes[f]
    ensures Inv(w.(flushes := left, drawn := drawn))
  {
  }

  lemma {:induction false} RunKeepsInv(c: Config, w: World, steps: seq<Step>)
    requires Inv(w) && Legal(c, w, steps)
    ensures Inv(Run(c, w, steps))
    decreases |steps|
  {
    if steps != [] {
      StepKeepsInv(c, w, steps[0]);
      RunKeepsInv(c, Apply(c, w, steps[0]), steps[1..]);
    }
  }

  /** Delivery conservation, in every reachable state. */
  lemma DeliveryConserved(c: Config, steps: seq<Step>)
    requires Legal(c, Start, steps)
    ensures Conserved(Run(c, Start, steps)) && RowsOk(Run(c, Start, steps))
  {
    RunKeepsInv(c, Start, steps);
  }

  // ---------------------------------------------------------------- the intake only grows

  /** In every reachable state the intake holds appended envelopes only, no envelope id twice, each under its own key. */
  lemma IntakeHoldsAppended(c: Config, steps: seq<Step>)
    requires Legal(c, Start, steps)
    ensures var w := Run(c, Start, steps);
            && (forall key :: key in w.intake ==> w.intake[key] in w.appended && KeyOf(w.intake[key]) == key)
            && (forall a, b :: a in w.intake && b in w.intake && w.intake[a].id == w.intake[b].id ==> a == b)
  {
    RunKeepsInv(c, Start, steps);
  }

  /** A row that the intake has stored is never changed or removed. */
  lemma {:induction false} IntakeRowsStay(c: Config, w: World, steps: seq<Step>, key: string)
    requires Legal(c, w, steps) && key in w.intake
    ensures key in Run(c, w, steps).intake && Run(c, w, steps).intake[key] == w.intake[key]
    decreases |steps|
  {
    if steps != [] {
      IntakeRowsStay(c, Apply(c, w, steps[0]), steps[1..], key);
    }
  }
}
