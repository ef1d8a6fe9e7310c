/** What gets into the intake: which envelopes are accepted, and why others are not. */
module DeliveryAdmission {
  import opened DeliveryOutbox
  import opened DeliveryIntake
  import opened DeliveryProtocol

  predicate RightVersion(e: Envelope) { e.transportVersion == 1 }

  /** The publisher is allowed, and is the required one if one is required. */
  predicate RightPublisher(rules: Rules, e: Envelope) {
    e.publisherId in rules.allowed && (rules.required.Some? ==> rules.required.value in {"", e.publisherId})
  }

  predicate RightHash(rules: Rules, e: Envelope) { e.payloadHash == rules.hash(e.payload) }

  predicate RightKind(e: Envelope) {
    e.kind in {"runtime_snapshot", "runtime_event", "approval_request", "heartbeat"}
  }

  /** Everything the intake asks of an envelope by itself. */
  predicate Admissible(rules: Rules, e: Envelope) {
    RightVersion(e) && RightPublisher(rules, e) && RightHash(rules, e) && rules.private(e.payload) && RightKind(e)
  }

  /** The idempotency key, or the envelope id in its place. */
  function EffectiveKey(e: Envelope): string {
    if e.idempotencyKey == "" then e.id else e.idempotencyKey
  }

  // ---------------------------------------------------------------- verdicts

  /** The exact condition of every verdict. An envelope with several faults is refused for the first of them. */
  lemma VerdictExactly(table: IntakeTable, rules: Rules, e: Envelope)
    ensures Accept(table, rules, e).1 == Rejected(TransportVersionMismatch) <==> !RightVersion(e)
    ensures Accept(table, rules, e).1 == Rejected(InvalidPublisherIdentity) <==> RightVersion(e) && !RightPublisher(rules, e)
    ensures Accept(table, rules, e).1 == Rejected(PayloadHashMismatch) <==>
              RightVersion(e) && RightPublisher(rules, e) && !RightHash(rules, e)
    ensures Accept(table, rules, e).1 == Rejected(PrivacyViolation) <==>
              RightVersion(e) && RightPublisher(rules, e) && RightHash(rules, e) && !rules.private(e.payload)
    ensures Accept(table, rules, e).1 == Rejected(InvalidKind) <==>
              RightVersion(e) && RightPublisher(rules, e) && RightHash(rules, e) && rules.private(e.payload) && !RightKind(e)
    ensures Accept(table, rules, e).1 == Rejected(DuplicateConflict) <==>
              && Admissible(rules, e) && EffectiveKey(e) in table
              && table[EffectiveKey(e)].payloadHash != e.payloadHash
    ensures Accept(table, rules, e).1 == IntegrityError <==>
              && Admissible(rules, e) && EffectiveKey(e) !in table
              && exists k :: k in table && table[k].id == e.id
    ensures Accept(table, rules, e).1 == Accepted <==>
              && Admissible(rules, e)
              && if EffectiveKey(e) in table then table[EffectiveKey(e)].payloadHash == e.payloadHash
                 else forall k :: k in table ==> table[k].id != e.id
  {
    assert EffectiveKey(e) == KeyOf(e);
  }

  /** Only a new key adds a row: that envelope with its key made explicit. Every refusal leaves the table alone. */
  lemma TableExactly(table: IntakeTable, rules: Rules, e: Envelope)
    ensures var (after, verdict) := Accept(table, rules, e);
            after == if verdict == Accepted && EffectiveKey(e) !in table
                     then table[EffectiveKey(e) := e.(idempotencyKey := EffectiveKey(e))] else table
  {
    VerdictExactly(table, rules, e);
  }

  /** Once a key is stored, every later envelope with it is answered by its payload hash alone, and changes nothing. */
  lemma ResendAnswered(c: Config, w: World, steps: seq<Step>, key: string, again: Envelope)
    requires Legal(c, w, steps) && key in w.intake && EffectiveKey(again) == key && Admissible(c.rules, again)
    ensures Accept(Run(c, w, steps).intake, c.rules, again)
         == (Run(c, w, steps).intake,
             if again.payloadHash == w.intake[key].payloadHash then Accepted else Rejected(DuplicateConflict))
  {
    IntakeRowsStay(c, w, steps, key);
    VerdictExactly(Run(c, w, steps).intake, c.rules, again);
    TableExactly(Run(c, w, steps).intake, c.rules, again);
    hide Accept, Admissible, EffectiveKey;
  }

  // ---------------------------------------------------------------- over all runs

  ghost predicate OnlyAdmissible(c: Config, w: World) {
    forall key :: key in w.intake ==> Admissible(c.rules, w.intake[key])
  }

  lemma AcceptKeepsAdmissible(table: IntakeTable, rules: Rules, e: Envelope)
    requires forall key :: key in table ==> Admissible(rules, table[key])
    ensures var after := Accept(table, rules, e).0; forall key :: key in after ==> Admissible(rules, after[key])
  {
    VerdictExactly(table, rules, e);
    TableExactly(table, rules, e);
    hide Accept;
  }

  lemma StepKeepsAdmissible(c: Config, w: World, step: Step)
    requires OnlyAdmissible(c, w) && Enabled(c, w, step)
    ensures OnlyAdmissible(c, Apply(c, w, step))
  {
    if step.Deliver? { AcceptKeepsAdmissible(w.intake, c.rules, w.flushes[step.f].phase.row.envelope); }
    if step.Duplicate? { AcceptKeepsAdmissible(w.intake, c.rules, step.e); }
    hide Admissible, Accept;
  }

  /** Whatever publishers append and the link repeats, no inadmissible envelope is ever stored. */
  lemma {:induction false} IntakeAdmissible(c: Config, w: World, steps: seq<Step>)
    requires OnlyAdmissible(c, w) && Legal(c, w, steps)
    ensures OnlyAdmissible(c, Run(c, w, steps))
    decreases |steps|
  {
    if steps != [] {
      hide Apply, Enabled, OnlyAdmissible;
      StepKeepsAdmissible(c, w, steps[0]);
      IntakeAdmissible(c, Apply(c, w, steps[0]), steps[1..]);
    }
  }

  /**
   * A delivered request ends in an acknowledgement, in every reachable state, exactly when the
   * envelope is admissible and its key is new or stored with the same payload hash: an envelope
   * id that is taken under another key cannot occur.
   */
  lemma DeliveredExactly(c: Config, steps: seq<Step>, f: nat)
    requires Legal(c, Start, steps) && Enabled(c, Run(c, Start, steps), Deliver(f))
    ensures var w := Run(c, Start, steps);
            var e := w.flushes[f].phase.row.envelope;
            var r := Apply(c, w, Deliver(f));
            r.flushes[f].phase == Delivered(w.flushes[f].phase.row, Admissible(c.rules, e)
              && (EffectiveKey(e) in w.intake ==> w.intake[EffectiveKey(e)].payloadHash == e.payloadHash))
  {
    var w := Run(c, Start, steps);
    RunKeepsInv(c, Start, steps);
    assert FlushOk(w.appended, w.wire, w.intake, w.flushes[f]);
    var e := w.flushes[f].phase.row.envelope;
    VerdictExactly(w.intake, c.rules, e);
    forall k | k in w.intake && w.intake[k].id == e.id
      ensures EffectiveKey(e) == k
    {
      assert w.intake[k] == e;
    }
    hide Admissible, Accept, Inv;
  }

  // ---------------------------------------------------------------- idempotency keys

  /**
   * An outbox that holds the row of one envelope answers an append of another with that row
   * exactly when both have the same key, given or taken from the id; nothing else changes then.
   */
  lemma SameKeySameRow(rows: Table, first: Envelope, second: Envelope, maxEntries: nat, after: Table, result: AppendResult)
    requires TableOk(rows) && first.id in rows && rows[first.id].envelope == first.(idempotencyKey := EffectiveKey(first))
    requires AppendsTo(rows, second, maxEntries, after, result)
    ensures result == Existing(rows[first.id]) <==> EffectiveKey(first) == EffectiveKey(second)
    ensures EffectiveKey(first) == EffectiveKey(second) ==> after == rows
  {
    assert KeyOf(rows[first.id].envelope) == EffectiveKey(first);
    if EffectiveKey(first) == EffectiveKey(second) {
      assert HasKey(rows, KeyOf(second));
      var id :| id in rows && rows[id] == result.row;
      assert id == first.id;
    }
  }
}
