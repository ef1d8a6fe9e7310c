/** Which transitions there are: what a node's report may do to a task, and what every actor did on any run. */
module TaskReports {
  import opened TaskStore
  import opened TaskRaces

  // ---------------------------------------------------------------- one transition

  predicate Over(s: Status) { s.Succeeded? || s.Failed? || s.Cancelled? || s.Expired? || s.Interrupted? }

  /** The exact condition of every outcome of a transition, and all that a successful one changes. */
  lemma TransitionExactly(rows: Tasks, id: string, expected: nat, status: Status)
    ensures Judge(rows, id, expected) == UnknownTask <==> id !in rows
    ensures Judge(rows, id, expected) == VersionConflict <==> id in rows && rows[id].version != expected
    ensures Judge(rows, id, expected) == AlreadyTerminal <==> id in rows && rows[id].version == expected && Over(rows[id].status)
    ensures Judge(rows, id, expected) == Done <==> id in rows && rows[id].version == expected && !Over(rows[id].status)
    ensures Transitioned(rows, id, expected, status) ==
              if id in rows && rows[id].version == expected && !Over(rows[id].status)
              then rows[id := Task(rows[id].identity, status, rows[id].version + 1)] else rows
  {
  }

  // ---------------------------------------------------------------- one report

  /** A report names the task, and node, connector and plan of the task as far as it names them. */
  predicate Addresses(m: Message, id: string, identity: Identity) {
    && m.taskId == id && id != "" && m.nodeId == identity.nodeId
    && (m.connectorGiven ==> m.connectorId == identity.connectorId)
    && (m.planHash == "" || m.planHash == identity.planHash)
  }

  /** A report takes a task from one status to another. */
  predicate Moves(kind: Kind, before: Status, after: Status) {
    match kind
    case Accepts => after == AcceptedByNode && before != AcceptedByNode && before != Running
    case Starts => after == Running && before != Running
    case Waits => after == WaitingForUser
    case Ends(status) => after == status
    case Evidence => false
    case Progress => false
  }

  /** An undisturbed report changes the tasks exactly when it addresses a live one and moves it, and ends each task once. */
  lemma ReportExactly(rows: Tasks, ended: set<string>, m: Message, status: Status)
    requires WellFormed(m)
    ensures var (reply, after, marked) := Ingested(rows, ended, m);
            && (reply == Changed && m.taskId in after && after[m.taskId].status == status
                <==> && m.taskId in rows && Addresses(m, m.taskId, rows[m.taskId].identity)
                     && !Over(rows[m.taskId].status) && Moves(m.kind, rows[m.taskId].status, status)
                     && (m.kind.Ends? ==> m.taskId !in ended))
            && (reply == Changed ==>
                  && m.taskId in rows
                  && after == rows[m.taskId := Task(rows[m.taskId].identity, after[m.taskId].status, rows[m.taskId].version + 1)]
                  && marked == if m.kind.Ends? then ended + {m.taskId} else ended)
            && (reply != Changed ==> after == rows && marked == ended)
  {
    hide WellFormed;
  }

  /** The exact condition of the other two answers; a report that only tells something changes nothing. */
  lemma AnswerExactly(rows: Tasks, ended: set<string>, m: Message)
    requires WellFormed(m)
    ensures var live := m.taskId in rows && Addresses(m, m.taskId, rows[m.taskId].identity) && !Over(rows[m.taskId].status);
            && (Ingested(rows, ended, m).0 == Refused <==> !live || (m.kind.Ends? && m.taskId in ended))
            && (Ingested(rows, ended, m).0 == Ignored
                <==> live && !m.kind.Ends? && forall status :: !Moves(m.kind, rows[m.taskId].status, status))
  {
    hide WellFormed;
    if m.kind.Accepts? { assert Moves(m.kind, Queued, AcceptedByNode); }
    if m.taskId in rows {
      var before := rows[m.taskId].status;
      if m.kind.Accepts? && before != AcceptedByNode && before != Running { assert Moves(m.kind, before, AcceptedByNode); }
      if m.kind.Starts? && before != Running { assert Moves(m.kind, before, Running); }
      if m.kind.Waits? { assert Moves(m.kind, before, WaitingForUser); }
    }
  }

  // ---------------------------------------------------------------- all transitions of a run

  /** What the actor may do on the strength of the record it had read. */
  predicate Lawful(id: string, job: Job, seen: Task, after: Status) {
    match job
    case Offering => seen.status == Queued && after == OfferedToNode
    case Accepting(_) => after == AcceptedByNode
    case Launching(_) => after == Running
    case Finishing(result) => after == result
    case Cancelling => after == Cancelled
    case Completing =>
      (seen.status == WaitingForUser || seen.status == WaitingForAuthCallback || seen.status == Running) && after == Succeeded
    case Ingesting(m) => Addresses(m, id, seen.identity) && Moves(m.kind, seen.status, after)
  }

  /** An actor that has read its task holds a record that lets it do what it wants. */
  predicate Entitled(x: Actor) {
    x.phase.Begun? || (Wanted(x.job, x.phase.seen).Some? ==>
                         Lawful(x.id, x.job, x.phase.seen, Wanted(x.job, x.phase.seen).value))
  }

  ghost predicate AllLawful(w: World) {
    && (forall a :: a in w.actors ==> Entitled(w.actors[a]))
    && (forall i :: 0 <= i < |w.changes| ==>
          Lawful(w.changes[i].id, w.changes[i].job, w.changes[i].seen, w.changes[i].after))
  }

  lemma ReaderEntitled(id: string, job: Job, seen: Task)
    requires Proceeds(job, id, seen)
    ensures Entitled(Actor(id, job, Holding(seen)))
  {
  }

  lemma StepKeepsLawful(w: World, step: Step)
    requires AllLawful(w) && Enabled(w, step)
    ensures AllLawful(Apply(w, step))
  {
    var r := Apply(w, step);
    forall a | a in r.actors
      ensures Entitled(r.actors[a])
    {
      if step.Read? && step.actor == a { ReaderEntitled(r.actors[a].id, r.actors[a].job, r.actors[a].phase.seen); }
      if a in w.actors { assert Entitled(w.actors[a]); }
    }
    hide Lawful, Proceeds, Wanted;
    if step.Write? { assert Entitled(w.actors[step.actor]); }
  }

  lemma {:induction false} RunKeepsLawful(w: World, steps: seq<Step>)
    requires AllLawful(w) && Legal(w, steps)
    ensures AllLawful(Run(w, steps))
    decreases |steps|
  {
    if steps != [] {
      hide Apply, Enabled, AllLawful;
      StepKeepsLawful(w, steps[0]);
      RunKeepsLawful(Apply(w, steps[0]), steps[1..]);
    }
  }

  /**
   * On every run of any actors, each transition is one that its actor may make: in particular a
   * report moves only a task of its own node, connector and plan, and never a running task back.
   */
  lemma TransitionsLawful(steps: seq<Step>, i: nat)
    requires Legal(Empty, steps) && i < |Run(Empty, steps).changes|
    ensures var c := Run(Empty, steps).changes[i];
            Lawful(c.id, c.job, c.seen, c.after)
  {
    RunKeepsLawful(Empty, steps);
  }
}
