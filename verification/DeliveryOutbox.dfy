/** The durable outbox: a table of envelopes waiting to be acknowledged, and a sequence counter. */
module DeliveryOutbox {

  datatype AckStatus = Pending | Sent | Acked | Failed | Dropped

  /** `payload` stands for the canonical JSON text of the payload. */
  datatype Envelope = Envelope(
    id: string, kind: string, sequence: int, publisherId: string, payload: string, payloadHash: string,
    transportVersion: int, idempotencyKey: string)

  datatype Row = Row(envelope: Envelope, status: AckStatus, attempts: nat)

  /** The table, by its primary key `envelope_id`. */
  type Table = map<string, Row>

  /** `envelope.idempotency_key or envelope.envelope_id`. */
  function KeyOf(e: Envelope): string {
    if e.idempotencyKey != "" then e.idempotencyKey else e.id
  }

  /** The envelope as it is stored: its idempotency key is made explicit. */
  function Stored(e: Envelope): Envelope {
    e.(idempotencyKey := KeyOf(e))
  }

  /** Rows sit under their own id, and the idempotency keys are unique. */
  ghost predicate TableOk(t: Table) {
    && (forall id :: id in t ==> t[id].envelope.id == id)
    && (forall a, b :: a in t && b in t && KeyOf(t[a].envelope) == KeyOf(t[b].envelope) ==> a == b)
  }

  predicate HasKey(t: Table, key: string) {
    exists id :: id in t && KeyOf(t[id].envelope) == key
  }

  /** `UPDATE ... SET status=?, attempts=attempts+1 WHERE envelope_id=?`. */
  function Mark(t: Table, id: string, status: AckStatus): Table {
    if id in t then t[id := t[id].(status := status, attempts := t[id].attempts + 1)] else t
  }

  // ---------------------------------------------------------------- compaction and selection

  function SequenceOf(t: Table, id: string): int
    requires id in t
  {
    t[id].envelope.sequence
  }

  /** Some rows are gone, none of them newer than one that is left, and nothing else has changed. */
  ghost predicate OlderGone(before: Table, after: Table) {
    && after.Keys <= before.Keys
    && (forall id :: id in after ==> after[id] == before[id])
    && (forall gone, kept :: gone in before && gone !in after && kept in after
          ==> SequenceOf(before, gone) <= SequenceOf(before, kept))
  }

  /** `after` is what compaction may leave of `before`: the newest rows, as many as fit. */
  ghost predicate Compacted(before: Table, after: Table, maxEntries: nat) {
    OlderGone(before, after) && |after| == (if |before| <= maxEntries then |before| else maxEntries)
  }

  predicate Waiting(row: Row) {
    row.status == Pending || row.status == Failed
  }

  function WaitingIds(t: Table): set<string> {
    set id | id in t && Waiting(t[id])
  }

  ghost predicate Distinct(batch: seq<Row>) {
    forall i, j :: 0 <= i < j < |batch| ==> batch[i].envelope.id != batch[j].envelope.id
  }

  function IdsOf(batch: seq<Row>): (ids: set<string>)
    ensures forall id :: id in ids <==> exists i :: 0 <= i < |batch| && batch[i].envelope.id == id
  {
    set i | 0 <= i < |batch| :: batch[i].envelope.id
  }

  lemma IdsOfSnoc(batch: seq<Row>, row: Row)
    ensures IdsOf(batch + [row]) == IdsOf(batch) + {row.envelope.id}
  {
    var all := batch + [row];
    assert all[|batch|] == row;
    forall id | id in IdsOf(batch)
      ensures id in IdsOf(all)
    {
      var i :| 0 <= i < |batch| && batch[i].envelope.id == id;
      assert all[i] == batch[i];
    }
  }

  ghost predicate Ordered(batch: seq<Row>) {
    forall i, j :: 0 <= i < j < |batch| ==> batch[i].envelope.sequence <= batch[j].envelope.sequence
  }

  ghost predicate RowsOf(t: Table, batch: seq<Row>) {
    forall i :: 0 <= i < |batch| ==> batch[i].envelope.id in t && t[batch[i].envelope.id] == batch[i]
  }

  /** Every row of the batch is at most as new as the rows with the given ids. */
  ghost predicate NotNewer(t: Table, batch: seq<Row>, ids: set<string>)
    requires ids <= t.Keys
  {
    forall id, i :: id in ids && 0 <= i < |batch| ==> batch[i].envelope.sequence <= SequenceOf(t, id)
  }

  /** `batch` is what `pending(limit)` may return: the oldest waiting rows, in sequence order. */
  ghost predicate IsBatch(t: Table, batch: seq<Row>, limit: nat) {
    && Distinct(batch) && Ordered(batch) && RowsOf(t, batch) && IdsOf(batch) <= WaitingIds(t)
    && |batch| == (if |WaitingIds(t)| <= limit then |WaitingIds(t)| else limit)
    && NotNewer(t, batch, WaitingIds(t) - IdsOf(batch))
  }

  /** Part of the waiting rows has been taken into the batch, oldest first. */
  ghost predicate Selecting(t: Table, left: set<string>, batch: seq<Row>) {
    && WaitingIds(t) == left + IdsOf(batch) && left !! IdsOf(batch) && |batch| + |left| == |WaitingIds(t)|
    && Distinct(batch) && Ordered(batch) && RowsOf(t, batch) && NotNewer(t, batch, left)
  }

  lemma DistinctSnoc(batch: seq<Row>, row: Row)
    requires Distinct(batch) && row.envelope.id !in IdsOf(batch)
    ensures Distinct(batch + [row])
  {
    var all := batch + [row];
    forall i, j | 0 <= i < j < |all|
      ensures all[i].envelope.id != all[j].envelope.id
    {
      assert all[i].envelope.id in IdsOf(batch);
    }
  }

  lemma OrderedSnoc(t: Table, batch: seq<Row>, left: set<string>, next: string)
    requires left <= t.Keys && Ordered(batch) && NotNewer(t, batch, left) && next in left
    ensures Ordered(batch + [t[next]])
  {
    var all := batch + [t[next]];
    forall i, j | 0 <= i < j < |all|
      ensures all[i].envelope.sequence <= all[j].envelope.sequence
    {
      assert batch[i].envelope.sequence <= SequenceOf(t, next);
    }
  }

  lemma NotNewerSnoc(t: Table, batch: seq<Row>, left: set<string>, next: string)
    requires left <= t.Keys && NotNewer(t, batch, left) && next in left
    requires forall id :: id in left ==> SequenceOf(t, next) <= SequenceOf(t, id)
    ensures NotNewer(t, batch + [t[next]], left - {next})
  {
  }

  lemma SelectNext(t: Table, left: set<string>, batch: seq<Row>, next: string)
    requires TableOk(t) && Selecting(t, left, batch) && left <= t.Keys
    requires next in left && forall id :: id in left ==> SequenceOf(t, next) <= SequenceOf(t, id)
    ensures Selecting(t, left - {next}, batch + [t[next]])
  {
    assert t[next].envelope.id == next;
    hide IdsOf, WaitingIds, TableOk, Distinct, Ordered, NotNewer, RowsOf;
    IdsOfSnoc(batch, t[next]);
    DistinctSnoc(batch, t[next]);
    OrderedSnoc(t, batch, left, next);
    NotNewerSnoc(t, batch, left, next);
    RowsOfSnoc(t, batch, next);
    MoveId(left, IdsOf(batch), next);
  }

  lemma RowsOfSnoc(t: Table, batch: seq<Row>, next: string)
    requires next in t && t[next].envelope.id == next && RowsOf(t, batch)
    ensures RowsOf(t, batch + [t[next]])
  {
  }

  lemma MoveId(a: set<string>, b: set<string>, x: string)
    requires x in a && a !! b
    ensures (a - {x}) + (b + {x}) == a + b && (a - {x}) !! (b + {x}) && |a - {x}| == |a| - 1
  {
  }

  lemma {:induction false} SmallestExists(t: Table, ids: set<string>) returns (id: string)
    requires ids != {} && ids <= t.Keys
    ensures id in ids && forall other :: other in ids ==> SequenceOf(t, id) <= SequenceOf(t, other)
    decreases |ids|
  {
    id :| id in ids;
    if ids != {id} {
      var rest := SmallestExists(t, ids - {id});
      if SequenceOf(t, rest) <= SequenceOf(t, id) { id := rest; }
    }
  }

  // ---------------------------------------------------------------- appending

  datatype AppendResult = Existing(row: Row) | Appended(row: Row) | DuplicateId | Evicted

  function NewRow(e: Envelope): Row {
    Row(Stored(e), Pending, 0)
  }

  /** What an append may do: duplicates are suppressed, and a new row may push out old ones. */
  ghost predicate AppendsTo(before: Table, e: Envelope, maxEntries: nat, after: Table, result: AppendResult) {
    if HasKey(before, KeyOf(e)) then
      && after == before
      && result.Existing? && result.row in before.Values && KeyOf(result.row.envelope) == KeyOf(e)
    else if e.id in before then after == before && result == DuplicateId
    else
      && Compacted(before[e.id := NewRow(e)], after, maxEntries)
      && result == if e.id in after then Appended(NewRow(e)) else Evicted
  }

  lemma StoredTwice(e: Envelope)
    ensures Stored(Stored(e)) == Stored(e) && KeyOf(Stored(e)) == KeyOf(e) && Stored(e).id == e.id
  {
  }

  lemma InsertedTable(rows: Table, e: Envelope)
    requires TableOk(rows) && !HasKey(rows, KeyOf(e)) && e.id !in rows
    ensures TableOk(rows[e.id := NewRow(e)])
  {
    StoredTwice(e);
  }

  lemma OldestGoes(before: Table, rows: Table, oldest: string)
    requires TableOk(rows) && OlderGone(before, rows) && oldest in rows
    requires forall id :: id in rows ==> SequenceOf(rows, oldest) <= SequenceOf(rows, id)
    ensures TableOk(rows - {oldest}) && OlderGone(before, rows - {oldest}) && |rows - {oldest}| == |rows| - 1
  {
    assert (rows - {oldest}).Keys == rows.Keys - {oldest};
    hide KeyOf;
    assert forall kept :: kept in rows - {oldest} ==> SequenceOf(before, oldest) <= SequenceOf(before, kept);
  }

  lemma KeptRow(full: Table, after: Table, e: Envelope)
    requires OlderGone(full, after) && e.id in full
    ensures e.id in after ==> after[e.id] == full[e.id]
  {
  }

  class Outbox {
    const maxEntries: nat
    var rows: Table
    var sequence: nat

    constructor (maxEntries: int)
      ensures this.maxEntries == (if maxEntries < 1 then 1 else maxEntries) && rows == map[] && sequence == 0
    {
      this.maxEntries := if maxEntries < 1 then 1 else maxEntries;
      rows := map[];
      sequence := 0;
    }

    method NextSequence() returns (n: nat)
      modifies this`sequence
      ensures n == sequence == old(sequence) + 1
    {
      sequence := sequence + 1;
      n := sequence;
    }

    method Append(e: Envelope) returns (result: AppendResult)
      requires TableOk(rows)
      modifies this`rows
      ensures TableOk(rows) && AppendsTo(old(rows), e, maxEntries, rows, result)
    {
      if HasKey(rows, KeyOf(e)) {
        var id :| id in rows && KeyOf(rows[id].envelope) == KeyOf(e);
        return Existing(rows[id]);
      }
      if e.id in rows {
        return DuplicateId;
      }
      InsertedTable(rows, e);
      hide TableOk, OlderGone, KeyOf, NewRow;
      rows := rows[e.id := NewRow(e)];
      ghost var full := rows;
      var _ := Compact();
      KeptRow(full, rows, e);
      result := if e.id in rows then Appended(rows[e.id]) else Evicted;
    }

    /** Delete the oldest row until the table fits. */
    method Compact() returns (deleted: nat)
      requires TableOk(rows)
      modifies this`rows
      ensures TableOk(rows) && Compacted(old(rows), rows, maxEntries)
      ensures deleted == |old(rows)| - |rows|
    {
      deleted := 0;
      hide TableOk;
      while |rows| > maxEntries
        invariant TableOk(rows) && OlderGone(old(rows), rows)
        invariant |rows| >= (if |old(rows)| <= maxEntries then |old(rows)| else maxEntries)
        invariant deleted == |old(rows)| - |rows|
        decreases |rows|
      {
        assert rows.Keys != {};
        ghost var smallest := SmallestExists(rows, rows.Keys);
        var oldest :| oldest in rows && forall id :: id in rows ==> SequenceOf(rows, oldest) <= SequenceOf(rows, id);
        OldestGoes(old(rows), rows, oldest);
        rows := rows - {oldest};
        deleted := deleted + 1;
      }
    }

    method MarkSent(id: string)
      modifies this`rows
      ensures rows == Mark(old(rows), id, Sent)
    {
      if id in rows {
        rows := rows[id := rows[id].(status := Sent, attempts := rows[id].attempts + 1)];
      }
    }

    method MarkAcked(id: string)
      modifies this`rows
      ensures rows == old(rows) - {id}
    {
      rows := rows - {id};
    }

    method MarkFailed(id: string)
      modifies this`rows
      ensures rows == Mark(old(rows), id, Failed)
    {
      if id in rows {
        rows := rows[id := rows[id].(status := Failed, attempts := rows[id].attempts + 1)];
      }
    }

    /** The oldest waiting rows, at least one slot of them. */
    method PendingRows(limit: int) returns (batch: seq<Row>)
      requires TableOk(rows)
      ensures IsBatch(rows, batch, if limit < 1 then 1 else limit)
    {
      var slots: nat := if limit < 1 then 1 else limit;
      var left := WaitingIds(rows);
      batch := [];
      while left != {} && |batch| < slots
        invariant |batch| <= slots && Selecting(rows, left, batch)
        decreases |left|
      {
        ghost var smallest := SmallestExists(rows, left);
        var next :| next in left && forall id :: id in left ==> SequenceOf(rows, next) <= SequenceOf(rows, id);
        SelectNext(rows, left, batch, next);
        batch := batch + [rows[next]];
        left := left - {next};
      }
    }
  }

  // ---------------------------------------------------------------- bounds

  /** When the inserted row is gone, the table was full and every other row is newer. */
  lemma GoneMeansOldest(before: Table, e: Envelope, maxEntries: nat, after: Table)
    requires |before| <= maxEntries && e.id !in before && e.id !in after
    requires Compacted(before[e.id := NewRow(e)], after, maxEntries)
    requires forall id :: id in before ==> SequenceOf(before, id) != e.sequence
    ensures |before| == maxEntries && forall id :: id in before ==> e.sequence < SequenceOf(before, id)
  {
    var full := before[e.id := NewRow(e)];
    assert full.Keys == before.Keys + {e.id};
    assert after.Keys <= before.Keys;
    SubsetSize(after.Keys, before.Keys);
    SubsetEqual(after.Keys, before.Keys);
    forall id | id in before
      ensures e.sequence < SequenceOf(before, id)
    {
      assert id in after.Keys;
      assert SequenceOf(full, e.id) <= SequenceOf(full, id);
    }
  }

  /** When the inserted row is kept in a full table, some other row was older. */
  lemma KeptMeansNotOldest(before: Table, e: Envelope, maxEntries: nat, after: Table)
    requires |before| == maxEntries && e.id !in before && e.id in after
    requires Compacted(before[e.id := NewRow(e)], after, maxEntries)
    ensures exists id :: id in before && SequenceOf(before, id) <= e.sequence
  {
    var full := before[e.id := NewRow(e)];
    assert full.Keys == before.Keys + {e.id};
    var others := after.Keys - {e.id};
    assert |others| == maxEntries - 1 && others <= before.Keys;
    assert others != before.Keys;
    var gone :| gone in before.Keys && gone !in others;
    assert gone in full && gone !in after;
    assert SequenceOf(full, gone) <= SequenceOf(full, e.id);
    assert SequenceOf(before, gone) <= e.sequence;
  }

  /**
   * The row just inserted is found again unless the table was full of newer rows: the
   * assertion in `append` holds exactly then.
   */
  lemma EvictedExactlyWhenOldest(before: Table, e: Envelope, maxEntries: nat, after: Table, result: AppendResult)
    requires |before| <= maxEntries && AppendsTo(before, e, maxEntries, after, result)
    requires forall id :: id in before ==> SequenceOf(before, id) != e.sequence
    ensures result == Evicted <==>
      !HasKey(before, KeyOf(e)) && e.id !in before && |before| == maxEntries
      && forall id :: id in before ==> e.sequence < SequenceOf(before, id)
    ensures |after| <= maxEntries
  {
    if !HasKey(before, KeyOf(e)) && e.id !in before {
      hide Compacted;
      if e.id !in after {
        GoneMeansOldest(before, e, maxEntries, after);
      } else if |before| == maxEntries {
        KeptMeansNotOldest(before, e, maxEntries, after);
      }
    }
  }

  lemma {:induction false} SubsetSize(a: set<string>, b: set<string>)
    requires a <= b
    ensures |a| <= |b|
    decreases |a|
  {
    if a != {} {
      var x :| x in a;
      SubsetSize(a - {x}, b - {x});
    }
  }

  lemma SubsetEqual(a: set<string>, b: set<string>)
    requires a <= b && |a| == |b|
    ensures a == b
  {
    if a != b {
      var x :| x in b && x !in a;
      SubsetSize(a, b - {x});
    }
  }
}
