/** The node's durable task journal. */
module NodeJournal {
  import opened Options

  /** A journal row is identified by task id and plan hash. */
  datatype Key = Key(taskId: string, planHash: string)

  datatype Entry = Entry(
    connectorId: string, connectorRevision: string, status: string, acceptedAt: int, startedAt: Option<int>,
    terminalAt: Option<int>, digest: Option<string>, lastSequence: int)

  type Rows = map<Key, Entry>

  /** An accepted row stays as it is when it is accepted again. */
  function Accepted(rows: Rows, k: Key, connectorId: string, revision: string, now: int): Rows {
    if k in rows then rows else rows[k := Entry(connectorId, revision, "accepted", now, None, None, None, 0)]
  }

  /** Starting and finishing leave terminal rows alone. */
  function Started(rows: Rows, k: Key, now: int): Rows {
    if k in rows && rows[k].terminalAt.None? then rows[k := rows[k].(status := "running", startedAt := Some(now))] else rows
  }

  function Finished(rows: Rows, k: Key, status: string, digest: string, sequence: int, now: int): Rows {
    if k in rows && rows[k].terminalAt.None? then
      rows[k := rows[k].(status := status, terminalAt := Some(now), digest := Some(digest), lastSequence := sequence)]
    else rows
  }

  function Sequenced(rows: Rows, k: Key, sequence: int): Rows {
    if k in rows then rows[k := rows[k].(lastSequence := sequence)] else rows
  }

  class Journal {
    var rows: Rows

    constructor ()
      ensures rows == map[]
    {
      rows := map[];
    }

    method Get(k: Key) returns (entry: Option<Entry>)
      ensures entry == if k in rows then Some(rows[k]) else None
    {
      entry := if k in rows then Some(rows[k]) else None;
    }

    method Accept(k: Key, connectorId: string, revision: string, now: int) returns (entry: Entry)
      modifies this
      ensures rows == Accepted(old(rows), k, connectorId, revision, now) && k in rows && entry == rows[k]
    {
      var existing := Get(k);
      if existing.Some? {
        return existing.value;
      }
      rows := rows[k := Entry(connectorId, revision, "accepted", now, None, None, None, 0)];
      entry := rows[k];
    }

    /** The row must exist: the source asserts that it finds it again. */
    method MarkStarted(k: Key, now: int) returns (entry: Entry)
      requires k in rows
      modifies this
      ensures rows == Started(old(rows), k, now) && k in rows && entry == rows[k]
    {
      if rows[k].terminalAt.None? {
        rows := rows[k := rows[k].(status := "running", startedAt := Some(now))];
      }
      entry := rows[k];
    }

    method MarkTerminal(k: Key, status: string, digest: string, sequence: int, now: int) returns (entry: Entry)
      requires k in rows
      modifies this
      ensures rows == Finished(old(rows), k, status, digest, sequence, now) && k in rows && entry == rows[k]
    {
      if rows[k].terminalAt.None? {
        rows := rows[k := rows[k].(status := status, terminalAt := Some(now), digest := Some(digest), lastSequence := sequence)];
      }
      entry := rows[k];
    }

    method UpdateSequence(k: Key, sequence: int)
      modifies this
      ensures rows == Sequenced(old(rows), k, sequence)
    {
      if k in rows {
        rows := rows[k := rows[k].(lastSequence := sequence)];
      }
    }
  }
}
