/** The receiving side: it validates an envelope and keeps at most one row per idempotency key. */
module DeliveryIntake {
  import opened Options
  import opened DeliveryOutbox

  datatype RejectCode =
    | TransportVersionMismatch | InvalidPublisherIdentity | PayloadHashMismatch | PrivacyViolation
    | InvalidKind | DuplicateConflict

  /** IntegrityError is the database refusing a second row with the same envelope id. */
  datatype Verdict = Accepted | Rejected(code: RejectCode) | IntegrityError

  /** The payload hash and the privacy check are given from outside. */
  datatype Rules = Rules(hash: string -> string, private: string -> bool, allowed: set<string>, required: Option<string>)

  /** Accepted envelopes by idempotency key. */
  type IntakeTable = map<string, Envelope>

  const TRANSPORT_VERSION := 1
  const DELIVERY_KINDS := {"runtime_snapshot", "runtime_event", "approval_request", "heartbeat"}

  function Validate(rules: Rules, e: Envelope): Option<RejectCode> {
    if e.transportVersion != TRANSPORT_VERSION then Some(TransportVersionMismatch)
    else if rules.required.Some? && rules.required.value != "" && e.publisherId != rules.required.value then
      Some(InvalidPublisherIdentity)
    else if e.publisherId !in rules.allowed then Some(InvalidPublisherIdentity)
    else if e.payloadHash != rules.hash(e.payload) then Some(PayloadHashMismatch)
    else if !rules.private(e.payload) then Some(PrivacyViolation)
    else if e.kind !in DELIVERY_KINDS then Some(InvalidKind)
    else None
  }

  predicate IdTaken(table: IntakeTable, id: string) {
    exists key :: key in table && table[key].id == id
  }

  /** The table after `accept`, and its verdict. */
  function Accept(table: IntakeTable, rules: Rules, e: Envelope): (IntakeTable, Verdict) {
    match Validate(rules, e)
    case Some(code) => (table, Rejected(code))
    case None =>
      if KeyOf(e) in table then
        if table[KeyOf(e)].payloadHash == e.payloadHash then (table, Accepted) else (table, Rejected(DuplicateConflict))
      else if IdTaken(table, e.id) then (table, IntegrityError)
      else (table[KeyOf(e) := Stored(e)], Accepted)
  }

  /** Acknowledgement means that a row with this key and payload hash is stored; no stored row changes. */
  lemma AcceptedIsStored(table: IntakeTable, rules: Rules, e: Envelope)
    ensures var (after, verdict) := Accept(table, rules, e);
            && (verdict == Accepted ==> KeyOf(e) in after && after[KeyOf(e)].payloadHash == e.payloadHash)
            && (forall key :: key in table ==> key in after && after[key] == table[key])
            && (forall key :: key in after && key !in table ==> key == KeyOf(e) && after[key] == Stored(e))
  {
  }

  class Intake {
    const rules: Rules
    var table: IntakeTable
    var received: seq<Envelope>

    constructor (hash: string -> string, private: string -> bool, allowed: set<string>, required: Option<string>)
      ensures table == map[] && received == []
      ensures rules == Rules(hash, private, if allowed == {} then {"joymesh"} else allowed, required)
    {
      rules := Rules(hash, private, if allowed == {} then {"joymesh"} else allowed, required);
      table := map[];
      received := [];
    }

    method AcceptEnvelope(e: Envelope) returns (verdict: Verdict)
      modifies this
      ensures (table, verdict) == Accept(old(table), rules, e)
      ensures received == if verdict == Accepted then old(received) + [e] else old(received)
    {
      var refused := Validate(rules, e);
      if refused.Some? {
        return Rejected(refused.value);
      }
      var key := KeyOf(e);
      if key in table {
        if table[key].payloadHash != e.payloadHash {
          return Rejected(DuplicateConflict);
        }
      } else if IdTaken(table, e.id) {
        return IntegrityError;
      } else {
        table := table[key := Stored(e)];
      }
      received := received + [e];
      verdict := Accepted;
    }
  }
}
