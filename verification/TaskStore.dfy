/** Connector task rows, their versioned transitions, and what one caller at a time does to them. */
module TaskStore {
  import opened Options

  datatype Status =
    | Planned | ApprovalRequired | Approved | Queued | OfferedToNode | AcceptedByNode | Running
    | WaitingForUser | WaitingForAuthCallback | Succeeded | Failed | Cancelled | Expired | Interrupted

  predicate Terminal(s: Status) {
    s in {Succeeded, Failed, Cancelled, Expired, Interrupted}
  }

  /** The columns of a row that never change after its creation. */
  datatype Identity = Identity(nodeId: string, connectorId: string, planHash: string)

  datatype Task = Task(identity: Identity, status: Status, version: nat)

  type Tasks = map<string, Task>

  datatype Verdict = Done | UnknownTask | VersionConflict | AlreadyTerminal

  /** The checks of `transition_task`, in the order in which it makes them. */
  function Judge(rows: Tasks, id: string, expected: nat): Verdict {
    if id !in rows then UnknownTask
    else if rows[id].version != expected then VersionConflict
    else if Terminal(rows[id].status) then AlreadyTerminal
    else Done
  }

  function Transitioned(rows: Tasks, id: string, expected: nat, status: Status): Tasks {
    if Judge(rows, id, expected) != Done then rows
    else rows[id := rows[id].(status := status, version := expected + 1)]
  }

  class Store {
    var rows: Tasks

    constructor ()
      ensures rows == map[]
    {
      rows := map[];
    }

    /** A fresh task is queued and has version 1. */
    method CreateTask(id: string, identity: Identity) returns (task: Task)
      requires id !in rows
      modifies this
      ensures task == Task(identity, Queued, 1) && rows == old(rows)[id := task]
    {
      task := Task(identity, Queued, 1);
      rows := rows[id := task];
    }

    /** One atomic step: the version check and the update belong to one session. */
    method TransitionTask(id: string, expected: nat, status: Status) returns (verdict: Verdict)
      modifies this
      ensures verdict == Judge(old(rows), id, expected)
      ensures rows == Transitioned(old(rows), id, expected, status)
    {
      if id !in rows { return UnknownTask; }
      var row := rows[id];
      if row.version != expected { return VersionConflict; }
      if Terminal(row.status) { return AlreadyTerminal; }
      rows := rows[id := row.(status := status, version := expected + 1)];
      verdict := Done;
    }

    /** `cancel_task`, undisturbed: cancels unless the task is terminal, which then stays as it is. */
    method CancelTask(id: string) returns (verdict: Verdict)
      modifies this
      ensures verdict == Done <==> id in old(rows)
      ensures verdict == Done ==>
                && id in rows && Terminal(rows[id].status)
                && (if Terminal(old(rows)[id].status) then rows == old(rows)
                    else rows == old(rows)[id := Task(old(rows)[id].identity, Cancelled, old(rows)[id].version + 1)])
      ensures verdict != Done ==> rows == old(rows)
    {
      if id !in rows { return UnknownTask; }
      var task := rows[id];
      if Terminal(task.status) { return Done; }
      verdict := TransitionTask(id, task.version, Cancelled);
    }
  }

  // ---------------------------------------------------------------- reports of a node

  /** The message types the ingestor tells apart; `Ends` stands for the four terminal ones. */
  datatype Kind = Accepts | Starts | Waits | Ends(status: Status) | Evidence | Progress

  /** A missing connector id defaults to the task's own, and an empty plan hash is not compared. */
  datatype Message = Message(taskId: string, nodeId: string, connectorId: string, connectorGiven: bool,
                             planHash: string, kind: Kind)

  predicate WellFormed(m: Message) {
    m.kind.Ends? ==> m.kind.status in {Succeeded, Failed, Cancelled, Interrupted}
  }

  predicate Matches(m: Message, task: Task) {
    && task.identity.nodeId == m.nodeId
    && (m.connectorGiven ==> task.identity.connectorId == m.connectorId)
    && (m.planHash != "" ==> task.identity.planHash == m.planHash)
  }

  /** The status a report asks for, given the status its reader saw; None asks for no change. */
  function Asked(kind: Kind, seen: Status): Option<Status> {
    match kind
    case Accepts => if seen == AcceptedByNode || seen == Running then None else Some(AcceptedByNode)
    case Starts => if seen == Running then None else Some(Running)
    case Waits => Some(WaitingForUser)
    case Ends(status) => Some(status)
    case Evidence => None
    case Progress => None
  }

  datatype Reply = Ignored | Changed | Refused

  /** What an undisturbed report does: the reply, the rows and the set of tasks reported as ended. */
  function Ingested(rows: Tasks, ended: set<string>, m: Message): (Reply, Tasks, set<string>) {
    if m.taskId == "" || m.taskId !in rows || !Matches(m, rows[m.taskId]) || Terminal(rows[m.taskId].status) then
      (Refused, rows, ended)
    else
      match Asked(m.kind, rows[m.taskId].status)
      case None => (Ignored, rows, ended)
      case Some(status) =>
        if m.kind.Ends? && m.taskId in ended then (Refused, rows, ended)
        else
          (Changed,
           rows[m.taskId := rows[m.taskId].(status := status, version := rows[m.taskId].version + 1)],
           if m.kind.Ends? then ended + {m.taskId} else ended)
  }

  class Ingestor {
    const store: Store
    var ended: set<string>

    constructor (store: Store)
      ensures this.store == store && ended == {}
    {
      this.store := store;
      ended := {};
    }

    method Ingest(m: Message) returns (reply: Reply)
      requires WellFormed(m)
      modifies this, store
      ensures (reply, store.rows, ended) == Ingested(old(store.rows), old(ended), m)
    {
      if m.taskId == "" || m.taskId !in store.rows { return Refused; }
      var task := store.rows[m.taskId];
      if !Matches(m, task) || Terminal(task.status) { return Refused; }
      var verdict;
      match m.kind {
        case Accepts =>
          if task.status == AcceptedByNode || task.status == Running { return Ignored; }
          verdict := store.TransitionTask(m.taskId, task.version, AcceptedByNode);
        case Starts =>
          if task.status == Running { return Ignored; }
          verdict := store.TransitionTask(m.taskId, task.version, Running);
        case Waits =>
          verdict := store.TransitionTask(m.taskId, task.version, WaitingForUser);
        case Evidence => return Ignored;
        case Ends(status) =>
          if m.taskId in ended { return Refused; }
          ended := ended + {m.taskId};
          verdict := store.TransitionTask(m.taskId, task.version, status);
        case Progress => return Ignored;
      }
      reply := if verdict == Done then Changed else Refused;
    }
  }
}
