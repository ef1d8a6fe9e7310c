/**
 * Coordinator, inline runner, ingestor, retry, cancel and authentication racing over one task
 * table. Every session is one step; between two steps of one actor all the others may act.
 */
module TaskRaces {
  import opened Options
  import opened TaskStore

  /** What one coroutine is doing to its task. An inline run goes through three transitions. */
  datatype Job =
    | Offering
    | Accepting(result: Status)
    | Launching(result: Status)
    | Finishing(result: Status)
    | Cancelling
    | Completing
    | Ingesting(message: Message)

  /** `seen` is the record the actor read; `Noted` has stored the event, `Marked` the end of the task. */
  datatype Phase = Begun | Holding(seen: Task) | Noted(seen: Task) | Marked(seen: Task)

  datatype Actor = Actor(id: string, job: Job, phase: Phase)

  /** A successful transition, and the record the actor based it on. */
  datatype Change = Change(id: string, version: nat, before: Status, after: Status, seen: Task, job: Job)

  datatype World = World(rows: Tasks, actors: map<nat, Actor>, ended: set<string>, changes: seq<Change>)

  const Empty := World(map[], map[], {}, [])

  datatype Step =
    | Create(id: string, identity: Identity, offerer: Option<nat>)
    | Begin(actor: nat, id: string, job: Job)
    | Read(actor: nat)
    | Note(actor: nat)
    | Mark(actor: nat)
    | Write(actor: nat)
    | Abandon(actor: nat)
    | Restart

  /** Whether an actor goes on after reading this record; otherwise it returns or raises. */
  predicate Proceeds(job: Job, id: string, seen: Task) {
    match job
    case Offering => seen.status == Queued
    case Accepting(_) => true
    case Launching(_) => true
    case Finishing(_) => !Terminal(seen.status)
    case Cancelling => !Terminal(seen.status)
    case Completing => seen.status in {WaitingForUser, WaitingForAuthCallback, Running}
    case Ingesting(m) => id != "" && m.taskId == id && Matches(m, seen) && !Terminal(seen.status)
  }

  /** The status an actor wants to write on the strength of the record it holds. */
  function Wanted(job: Job, seen: Task): Option<Status> {
    match job
    case Offering => Some(OfferedToNode)
    case Accepting(_) => Some(AcceptedByNode)
    case Launching(_) => Some(Running)
    case Finishing(result) => Some(result)
    case Cancelling => Some(Cancelled)
    case Completing => Some(Succeeded)
    case Ingesting(m) => Asked(m.kind, seen.status)
  }

  predicate EndsTask(job: Job) { job.Ingesting? && job.message.kind.Ends? }

  predicate Ready(x: Actor) {
    && !x.phase.Begun? && Wanted(x.job, x.phase.seen).Some?
    && if EndsTask(x.job) then x.phase.Marked? else if x.job.Ingesting? then x.phase.Noted? else x.phase.Holding?
  }

  predicate Enabled(w: World, step: Step) {
    match step
    case Create(id, _, offerer) => id !in w.rows && (offerer.Some? ==> offerer.value !in w.actors)
    case Begin(a, id, job) => a !in w.actors && (job.Ingesting? ==> WellFormed(job.message))
    case Read(a) => a in w.actors && w.actors[a].phase.Begun?
    case Note(a) => a in w.actors && w.actors[a].job.Ingesting? && w.actors[a].phase.Holding?
    case Mark(a) => a in w.actors && EndsTask(w.actors[a].job) && w.actors[a].phase.Noted?
    case Write(a) => a in w.actors && Ready(w.actors[a])
    case Abandon(a) => a in w.actors
    case Restart => true
  }

  function Without(w: World, a: nat): World { w.(actors := w.actors - {a}) }

  /** `transition_task` by an actor; an inline run goes on with its next transition. */
  function Written(w: World, a: nat): World
    requires a in w.actors && Ready(w.actors[a])
  {
    var x := w.actors[a];
    var seen, status := x.phase.seen, Wanted(x.job, x.phase.seen).value;
    if Judge(w.rows, x.id, seen.version) != Done then Without(w, a)
    else
      var change := Change(x.id, seen.version, w.rows[x.id].status, status, seen, x.job);
      World(Transitioned(w.rows, x.id, seen.version, status),
            (match x.job
             case Accepting(result) => w.actors[a := Actor(x.id, Launching(result), Begun)]
             case Launching(result) => w.actors[a := Actor(x.id, Finishing(result), Begun)]
             case _ => w.actors - {a}),
            w.ended, w.changes + [change])
  }

  function Apply(w: World, step: Step): World
    requires Enabled(w, step)
  {
    match step
    case Create(id, identity, offerer) =>
      var task := Task(identity, Queued, 1);
      w.(rows := w.rows[id := task],
         actors := if offerer.Some? then w.actors[offerer.value := Actor(id, Offering, Holding(task))] else w.actors)
    case Begin(a, id, job) => w.(actors := w.actors[a := Actor(id, job, Begun)])
    case Read(a) =>
      var x := w.actors[a];
      if x.id !in w.rows || !Proceeds(x.job, x.id, w.rows[x.id]) then Without(w, a)
      else w.(actors := w.actors[a := x.(phase := Holding(w.rows[x.id]))])
    case Note(a) =>
      var x := w.actors[a];
      if x.id !in w.rows || Terminal(w.rows[x.id].status) || Wanted(x.job, x.phase.seen).None? then Without(w, a)
      else w.(actors := w.actors[a := x.(phase := Noted(x.phase.seen))])
    case Mark(a) =>
      var x := w.actors[a];
      if x.id in w.ended then Without(w, a)
      else w.(actors := w.actors[a := x.(phase := Marked(x.phase.seen))], ended := w.ended + {x.id})
    case Write(a) => Written(w, a)
    case Abandon(a) => Without(w, a)
    case Restart => w.(actors := map[], ended := {})
  }

  predicate Legal(w: World, steps: seq<Step>)
    decreases |steps|
  {
    steps == [] || (Enabled(w, steps[0]) && Legal(Apply(w, steps[0]), steps[1..]))
  }

  function Run(w: World, steps: seq<Step>): World
    requires Legal(w, steps)
    decreases |steps|
  {
    if steps == [] then w else Run(Apply(w, steps[0]), steps[1..])
  }

  // ---------------------------------------------------------------- no lost update

  /** The transitions of one task, in order. */
  function ChangesOf(changes: seq<Change>, id: string): (own: seq<Change>) {
    if changes == [] then []
    else
      var front, last := changes[..|changes| - 1], changes[|changes| - 1];
      ChangesOf(front, id) + if last.id == id then [last] else []
  }

  /** The status a task had at a version, according to its transitions. */
  function StatusAt(own: seq<Change>, version: nat): Status
    requires 1 <= version <= |own| + 1
  {
    if version == 1 then Queued else own[version - 2].after
  }

  /** The k-th transition expected version k and left the status which the one before it had left. */
  predicate Link(own: seq<Change>, k: nat)
    requires k < |own|
  {
    && own[k].version == k + 1 && own[k].seen.version == k + 1
    && own[k].before == StatusAt(own, k + 1) == own[k].seen.status && !Terminal(own[k].before)
  }

  ghost predicate Chained(own: seq<Change>) {
    forall k :: 0 <= k < |own| ==> Link(own, k)
  }

  /** The row of a task is what its transitions, one version each, have made of it. */
  ghost predicate RowOk(w: World, id: string) {
    var own := ChangesOf(w.changes, id);
    && Chained(own)
    && (id in w.rows ==> w.rows[id].version == 1 + |own| && w.rows[id].status == StatusAt(own, 1 + |own|))
    && (id !in w.rows ==> own == [])
  }

  /** A record an actor holds was the row at that version. */
  ghost predicate SeenOk(w: World, id: string, seen: Task) {
    && id in w.rows && seen.identity == w.rows[id].identity && 1 <= seen.version <= w.rows[id].version
    && (seen.version == w.rows[id].version ==> seen == w.rows[id])
  }

  ghost predicate ActorsOk(w: World) {
    forall a :: a in w.actors && !w.actors[a].phase.Begun? ==> SeenOk(w, w.actors[a].id, w.actors[a].phase.seen)
  }

  ghost predicate Inv(w: World) {
    && (forall id :: RowOk(w, id))
    && ActorsOk(w)
  }

  lemma ChangesOfAppended(changes: seq<Change>, c: Change, id: string)
    ensures ChangesOf(changes + [c], id) == ChangesOf(changes, id) + if c.id == id then [c] else []
  {
    assert (changes + [c])[..|changes|] == changes;
  }

  lemma LinkKept(own: seq<Change>, c: Change, k: nat)
    requires k < |own| && Link(own, k)
    ensures Link(own + [c], k)
  {
    assert (own + [c])[k] == own[k] && (k > 0 ==> (own + [c])[k - 1] == own[k - 1]);
    hide Terminal;
  }

  lemma LinkMade(own: seq<Change>, c: Change)
    requires c.version == c.seen.version == |own| + 1 && !Terminal(c.before)
    requires c.before == c.seen.status == StatusAt(own, |own| + 1)
    ensures Link(own + [c], |own|) && StatusAt(own + [c], |own| + 2) == c.after
  {
    var n := |own|;
    assert (own + [c])[n] == c && (n > 0 ==> (own + [c])[n - 1] == own[n - 1]);
    hide Terminal;
  }

  lemma ChainGrows(own: seq<Change>, c: Change)
    requires Chained(own) && c.version == c.seen.version == |own| + 1 && !Terminal(c.before)
    requires c.before == c.seen.status == StatusAt(own, |own| + 1)
    ensures Chained(own + [c]) && StatusAt(own + [c], |own| + 2) == c.after
  {
    hide Terminal, StatusAt, Link;
    LinkMade(own, c);
    forall k | 0 <= k < |own|
      ensures Link(own + [c], k)
    {
      LinkKept(own, c, k);
    }
  }

  /** What a successful write is based on. */
  predicate Effective(w: World, a: nat) {
    && a in w.actors && Ready(w.actors[a])
    && Judge(w.rows, w.actors[a].id, w.actors[a].phase.seen.version) == Done
  }

  /** The change that an actor's write records. */
  function ChangeBy(w: World, a: nat): Change
    requires Effective(w, a)
  {
    var x := w.actors[a];
    Change(x.id, x.phase.seen.version, w.rows[x.id].status, Wanted(x.job, x.phase.seen).value, x.phase.seen, x.job)
  }

  lemma WriteChanges(w: World, a: nat)
    requires ActorsOk(w) && Effective(w, a)
    ensures var c, r := ChangeBy(w, a), Written(w, a);
            && c.id in w.rows && c.seen == w.rows[c.id] && !Terminal(c.before)
            && r.rows == Changed(w, c).rows && r.changes == Changed(w, c).changes
  {
    var x := w.actors[a];
    assert SeenOk(w, x.id, x.phase.seen);
    hide Terminal, Ready, Wanted;
  }

  lemma WriteKeepsRow(w: World, a: nat, id: string)
    requires Inv(w) && Effective(w, a)
    ensures RowOk(Written(w, a), id)
  {
    assert RowOk(w, id);
    WriteChanges(w, a);
    var c := ChangeBy(w, a);
    assert c.version == c.seen.version && c.before == c.seen.status;
    hide RowOk, ActorsOk, Changed, Written, Terminal;
    ChangeKeepsRow(w, c, id);
    SameRows(Changed(w, c), Written(w, a), id);
  }

  /** The rows and changes after a transition from the record that is stored. */
  function Changed(w: World, c: Change): World
    requires c.id in w.rows
  {
    w.(rows := w.rows[c.id := w.rows[c.id].(status := c.after, version := c.version + 1)], changes := w.changes + [c])
  }

  lemma ChangeKeepsRow(w: World, c: Change, id: string)
    requires RowOk(w, id) && c.id in w.rows && c.seen == w.rows[c.id]
    requires c.version == c.seen.version && c.before == c.seen.status && !Terminal(c.before)
    ensures RowOk(Changed(w, c), id)
  {
    ChangesOfAppended(w.changes, c, id);
    var own := ChangesOf(w.changes, id);
    if id == c.id {
      ChainGrows(own, c);
      assert ChangesOf(w.changes + [c], id) == own + [c];
    } else {
      assert ChangesOf(w.changes + [c], id) == own;
    }
    hide Link, StatusAt;
  }

  lemma SameRows(w: World, r: World, id: string)
    requires RowOk(w, id) && r.rows == w.rows && r.changes == w.changes
    ensures RowOk(r, id)
  {
  }

  /** Steps other than an effective write change no row of a known task and record nothing. */
  lemma QuietKeepsRow(w: World, r: World, id: string)
    requires RowOk(w, id) && r.changes == w.changes
    requires id in w.rows ==> id in r.rows && r.rows[id] == w.rows[id]
    requires id !in w.rows && id in r.rows ==> r.rows[id].status == Queued && r.rows[id].version == 1
    ensures RowOk(r, id)
  {
  }

  lemma StepKeepsRows(w: World, step: Step)
    requires Inv(w) && Enabled(w, step)
    ensures forall id :: RowOk(Apply(w, step), id)
  {
    hide RowOk, ActorsOk;
    forall id
      ensures RowOk(Apply(w, step), id)
    {
      assert RowOk(w, id);
      if step.Write? && Effective(w, step.actor) {
        WriteKeepsRow(w, step.actor, id);
      } else {
        QuietKeepsRow(w, Apply(w, step), id);
      }
    }
  }

  lemma StepKeepsActors(w: World, step: Step)
    requires ActorsOk(w) && Enabled(w, step) && forall id :: id in w.rows ==> w.rows[id].version >= 1
    ensures ActorsOk(Apply(w, step))
  {
    hide Matches, Proceeds, Asked, WellFormed;
    var r := Apply(w, step);
    forall a | a in r.actors && !r.actors[a].phase.Begun?
      ensures SeenOk(r, r.actors[a].id, r.actors[a].phase.seen)
    {
      if a in w.actors && !w.actors[a].phase.Begun? { assert SeenOk(w, w.actors[a].id, w.actors[a].phase.seen); }
    }
  }

  lemma StepKeepsInv(w: World, step: Step)
    requires Inv(w) && Enabled(w, step)
    ensures Inv(Apply(w, step))
  {
    forall id | id in w.rows
      ensures w.rows[id].version >= 1
    {
      assert RowOk(w, id);
    }
    StepKeepsActors(w, step);
    StepKeepsRows(w, step);
  }

  lemma {:induction false} RunKeepsInv(w: World, steps: seq<Step>)
    requires Inv(w) && Legal(w, steps)
    ensures Inv(Run(w, steps))
    decreases |steps|
  {
    if steps != [] {
      StepKeepsInv(w, steps[0]);
      RunKeepsInv(Apply(w, steps[0]), steps[1..]);
    }
  }

  /**
   * No lost update, on every run of any actors: a task's version is one plus its successful
   * transitions; each of them started from exactly the record its actor had read; and no
   * transition left a terminal status.
   */
  lemma NoLostUpdate(steps: seq<Step>, id: string)
    requires Legal(Empty, steps) && id in Run(Empty, steps).rows
    ensures var w := Run(Empty, steps);
            var own := ChangesOf(w.changes, id);
            && w.rows[id].version == 1 + |own|
            && w.rows[id].status == StatusAt(own, 1 + |own|)
            && forall k :: 0 <= k < |own| ==>
                 && own[k].seen.version == k + 1
                 && own[k].seen.status == own[k].before == StatusAt(own, k + 1)
                 && !Terminal(own[k].before)
  {
    RunKeepsInv(Empty, steps);
    assert RowOk(Run(Empty, steps), id);
    var own := ChangesOf(Run(Empty, steps).changes, id);
    forall k | 0 <= k < |own|
      ensures own[k].seen.version == k + 1 && own[k].seen.status == own[k].before == StatusAt(own, k + 1)
      ensures !Terminal(own[k].before)
    {
      assert Link(own, k);
    }
  }

  // ---------------------------------------------------------------- what never changes

  lemma StepMovesForward(w: World, step: Step, id: string)
    requires Enabled(w, step) && id in w.rows
    ensures var r := Apply(w, step);
            && id in r.rows && r.rows[id].version >= w.rows[id].version && r.rows[id].identity == w.rows[id].identity
            && (r.rows[id].version == w.rows[id].version ==> r.rows[id] == w.rows[id])
            && (Terminal(w.rows[id].status) ==> r.rows[id] == w.rows[id])
  {
  }

  /** A version never falls and stands for one record; a terminal task never changes again. */
  lemma {:induction false} RunMovesForward(w: World, steps: seq<Step>, id: string)
    requires Legal(w, steps) && id in w.rows
    ensures var r := Run(w, steps);
            && id in r.rows && r.rows[id].version >= w.rows[id].version && r.rows[id].identity == w.rows[id].identity
            && (r.rows[id].version == w.rows[id].version ==> r.rows[id] == w.rows[id])
            && (Terminal(w.rows[id].status) ==> r.rows[id] == w.rows[id])
    decreases |steps|
  {
    if steps != [] {
      StepMovesForward(w, steps[0], id);
      RunMovesForward(Apply(w, steps[0]), steps[1..], id);
    }
  }

  /** Of two actors holding the same version of a task, one write makes the other's write void. */
  lemma OneWinner(w: World, a: nat, b: nat, steps: seq<Step>)
    requires a != b && Effective(w, a) && b in w.actors && Ready(w.actors[b])
    requires w.actors[b].id == w.actors[a].id && w.actors[b].phase.seen.version == w.actors[a].phase.seen.version
    requires Legal(Apply(w, Write(a)), steps)
    requires var r := Run(Apply(w, Write(a)), steps); b in r.actors && r.actors[b] == w.actors[b]
    ensures var r := Run(Apply(w, Write(a)), steps);
            Apply(r, Write(b)).rows == r.rows && Apply(r, Write(b)).changes == r.changes
  {
    RunMovesForward(Apply(w, Write(a)), steps, w.actors[a].id);
  }

  // ---------------------------------------------------------------- reports that a task has ended

  /** No actor is between marking the task as ended and writing it. */
  ghost predicate NoneMarked(w: World, id: string) {
    forall a :: a in w.actors && w.actors[a].id == id ==> !w.actors[a].phase.Marked?
  }

  /** The ingestor refuses every further report that this task has ended. */
  ghost predicate Deaf(w: World, id: string) {
    id in w.ended && NoneMarked(w, id)
  }

  /** Everything acting on this task is a report from its node. */
  ghost predicate OnlyReports(w: World, id: string) {
    forall a :: a in w.actors && w.actors[a].id == id ==> w.actors[a].job.Ingesting? && WellFormed(w.actors[a].job.message)
  }

  /** A step that neither restarts the control plane nor lets it act on this task by itself. */
  predicate Passive(step: Step, id: string) {
    && !step.Restart?
    && (step.Begin? && step.id == id ==> step.job.Ingesting?)
  }

  lemma DeafStep(w: World, step: Step, id: string)
    requires Deaf(w, id) && OnlyReports(w, id) && id in w.rows && Enabled(w, step) && Passive(step, id)
    ensures var r := Apply(w, step); Deaf(r, id) && OnlyReports(r, id) && id in r.rows
    ensures !Terminal(w.rows[id].status) ==> !Terminal(Apply(w, step).rows[id].status)
  {
    var r := Apply(w, step);
    forall a | a in r.actors && r.actors[a].id == id
      ensures !r.actors[a].phase.Marked? && r.actors[a].job.Ingesting? && WellFormed(r.actors[a].job.message)
    {
      if a in w.actors { assert w.actors[a].id == id ==> w.actors[a].job.Ingesting?; }
    }
  }

  /**
   * Once a report has marked a live task as ended without writing it, the node can never end it:
   * whatever its node sends, the task stays live until the control plane restarts or acts itself.
   */
  lemma {:induction false} DeafForever(w: World, steps: seq<Step>, id: string)
    requires Deaf(w, id) && OnlyReports(w, id) && id in w.rows && !Terminal(w.rows[id].status)
    requires Legal(w, steps) && forall i :: 0 <= i < |steps| ==> Passive(steps[i], id)
    ensures id in Run(w, steps).rows && !Terminal(Run(w, steps).rows[id].status)
    decreases |steps|
  {
    if steps != [] {
      assert Passive(steps[0], id);
      DeafStep(w, steps[0], id);
      forall i | 0 <= i < |steps| - 1
        ensures Passive(steps[1..][i], id)
      {
        assert Passive(steps[i + 1], id);
      }
      DeafForever(Apply(w, steps[0]), steps[1..], id);
    }
  }

  /** The steps of a report that nothing interleaves with. */
  function LoneSteps(w: World, a: nat, m: Message): seq<Step> {
    [Begin(a, m.taskId, Ingesting(m)), Read(a)]
    + if m.taskId !in w.rows || !Proceeds(Ingesting(m), m.taskId, w.rows[m.taskId]) then []
      else [Note(a)] + if Asked(m.kind, w.rows[m.taskId].status).None? then [] else LoneWrite(w, a, m)
  }

  function LoneWrite(w: World, a: nat, m: Message): seq<Step> {
    if !m.kind.Ends? then [Write(a)] else if m.taskId in w.ended then [Mark(a)] else [Mark(a), Write(a)]
  }

  /** The steps of a report, taken without interruption, are what the ingestor's method does. */
  lemma LoneReport(w: World, a: nat, m: Message)
    requires a !in w.actors && WellFormed(m)
    ensures Legal(w, LoneSteps(w, a, m))
    ensures var r := Run(w, LoneSteps(w, a, m));
            (r.rows, r.ended) == (Ingested(w.rows, w.ended, m).1, Ingested(w.rows, w.ended, m).2) && r.actors == w.actors
  {
    var steps := LoneSteps(w, a, m);
    var w1 := Apply(w, steps[0]);
    var w2 := Apply(w1, steps[1]);
    var last := w2;
    if |steps| > 2 {
      last := Apply(w2, steps[2]);
      if |steps| > 3 {
        LoneWriteRuns(w, last, a, m);
        last := Run(last, LoneWrite(w, a, m));
        assert steps[3..] == LoneWrite(w, a, m);
      }
      RunOn(w2, steps[2..], last);
    }
    assert last.actors == w.actors;
    RunOn(w1, steps[1..], last);
    RunOn(w, steps, last);
  }

  lemma LoneWriteRuns(w: World, w3: World, a: nat, m: Message)
    requires a !in w.actors && m.taskId in w.rows && !Terminal(w.rows[m.taskId].status)
    requires Asked(m.kind, w.rows[m.taskId].status).Some?
    requires w3 == w.(actors := w.actors[a := Actor(m.taskId, Ingesting(m), Noted(w.rows[m.taskId]))])
    ensures Legal(w3, LoneWrite(w, a, m))
    ensures var r := Run(w3, LoneWrite(w, a, m));
            && r.actors == w.actors
            && r.ended == (if m.kind.Ends? then w.ended + {m.taskId} else w.ended)
            && r.rows == if m.kind.Ends? && m.taskId in w.ended then w.rows
                         else Transitioned(w.rows, m.taskId, w.rows[m.taskId].version,
                                           Asked(m.kind, w.rows[m.taskId].status).value)
  {
    var steps := LoneWrite(w, a, m);
    var w4 := Apply(w3, steps[0]);
    if |steps| == 2 {
      RunOn(Apply(w4, steps[1]), [], Apply(w4, steps[1]));
      RunOn(w4, steps[1..], Apply(w4, steps[1]));
    }
    RunOn(w3, steps, Run(w4, steps[1..]));
  }

  /** Exactly when an undisturbed report of its end ends a task. */
  lemma EndReported(w: World, a: nat, m: Message)
    requires a !in w.actors && WellFormed(m) && m.kind.Ends? && m.taskId in w.rows
    ensures Legal(w, LoneSteps(w, a, m))
    ensures var task, r := w.rows[m.taskId], Run(w, LoneSteps(w, a, m));
            m.taskId in r.rows && r.rows[m.taskId] == Task(task.identity, m.kind.status, task.version + 1)
            <==> m.taskId != "" && Matches(m, task) && !Terminal(task.status) && m.taskId !in w.ended
  {
    LoneReport(w, a, m);
  }

  // ---------------------------------------------------------------- reports that are marked but not written

  /** The only report between marking the end of this task and writing it. */
  ghost predicate SoleMarked(w: World, a: nat, id: string) {
    && id in w.ended && a in w.actors && w.actors[a].id == id && w.actors[a].phase.Marked? && EndsTask(w.actors[a].job)
    && forall b :: b in w.actors && b != a && w.actors[b].id == id ==> !w.actors[b].phase.Marked?
  }

  /** The marked report gets to its write, and then the row is still the record it had read. */
  predicate Lands(w: World, a: nat, steps: seq<Step>)
    requires Legal(w, steps)
    decreases |steps|
  {
    && steps != [] && a in w.actors && w.actors[a].phase.Marked?
    && if steps[0] == Write(a) then Effective(w, a) else Lands(Apply(w, steps[0]), a, steps[1..])
  }

  lemma MarkedStep(w: World, step: Step, a: nat, id: string)
    requires SoleMarked(w, a, id) && OnlyReports(w, id) && id in w.rows && !Terminal(w.rows[id].status)
    requires Enabled(w, step) && Passive(step, id) && step != Write(a) && step != Abandon(a)
    ensures var r := Apply(w, step);
            SoleMarked(r, a, id) && OnlyReports(r, id) && id in r.rows && !Terminal(r.rows[id].status)
  {
    hide Matches, Proceeds, WellFormed;
    var r := Apply(w, step);
    forall b | b in r.actors && r.actors[b].id == id
      ensures b != a ==> !r.actors[b].phase.Marked?
      ensures r.actors[b].job.Ingesting? && WellFormed(r.actors[b].job.message)
    {
      if b in w.actors { assert w.actors[b].id == id ==> w.actors[b].job.Ingesting?; }
    }
  }

  /** Writing in vain and being abandoned leave nobody who could still write the end of the task. */
  lemma MarkedGone(w: World, step: Step, a: nat, id: string)
    requires SoleMarked(w, a, id) && OnlyReports(w, id) && id in w.rows && !Terminal(w.rows[id].status)
    requires Enabled(w, step) && (step == Abandon(a) || (step == Write(a) && !Effective(w, a)))
    ensures var r := Apply(w, step); Deaf(r, id) && OnlyReports(r, id) && r.rows == w.rows && a !in r.actors
  {
  }

  lemma MarkedWrites(w: World, a: nat, id: string)
    requires SoleMarked(w, a, id) && OnlyReports(w, id) && Effective(w, a)
    ensures var r := Apply(w, Write(a)); id in r.rows && Terminal(r.rows[id].status)
  {
  }

  /**
   * A marked report ends its task exactly when it gets to its own write before the row changes.
   * In every other run of reports from the node, the task stays live for good.
   */
  lemma {:induction false} MarkedReportEnds(w: World, steps: seq<Step>, a: nat, id: string)
    requires SoleMarked(w, a, id) && OnlyReports(w, id) && id in w.rows && !Terminal(w.rows[id].status)
    requires Legal(w, steps) && forall i :: 0 <= i < |steps| ==> Passive(steps[i], id)
    ensures id in Run(w, steps).rows
    ensures Terminal(Run(w, steps).rows[id].status) <==> Lands(w, a, steps)
    decreases |steps|
  {
    if steps != [] {
      var step, rest, next := steps[0], steps[1..], Apply(w, steps[0]);
      assert Passive(step, id);
      assert a in w.actors && w.actors[a].phase.Marked?;
      forall i | 0 <= i < |rest|
        ensures Passive(rest[i], id)
      {
        assert rest[i] == steps[i + 1];
      }
      hide Apply, Enabled, SoleMarked, OnlyReports, Passive, Terminal, Effective;
      if step == Write(a) && Effective(w, a) {
        MarkedWrites(w, a, id);
        RunMovesForward(next, rest, id);
      } else if step == Write(a) || step == Abandon(a) {
        MarkedGone(w, step, a, id);
        DeafForever(next, rest, id);
      } else {
        MarkedStep(w, step, a, id);
        MarkedReportEnds(next, rest, a, id);
      }
    }
  }

  // ---------------------------------------------------------------- a run in which the end of a task is lost

  function ReportOf(id: string, identity: Identity, kind: Kind): Message {
    Message(id, identity.nodeId, "", false, "", kind)
  }

  /** A report is read, stored as an event, and written. */
  function ReportSteps(a: nat, id: string, identity: Identity, kind: Kind): seq<Step> {
    [Begin(a, id, Ingesting(ReportOf(id, identity, kind))), Read(a), Note(a), Write(a)]
  }

  /** The success report is cut off between its mark and its write. */
  function CutOffSteps(a: nat, id: string, identity: Identity): seq<Step> {
    [Begin(a, id, Ingesting(ReportOf(id, identity, Ends(Succeeded)))), Read(a), Note(a), Mark(a), Abandon(a)]
  }

  /** Queued and offered, then accepted and started by the node, which finally reports success. */
  function CutOffReport(id: string, identity: Identity): seq<Step> {
    [Create(id, identity, Some(0)), Write(0)] + ReportSteps(1, id, identity, Accepts) + ReportSteps(2, id, identity, Starts)
    + CutOffSteps(3, id, identity)
  }

  /** One task, nobody at work on it, and perhaps its end marked. */
  ghost predicate Stands(w: World, id: string, task: Task, ended: set<string>) {
    w.rows == map[id := task] && w.actors == map[] && w.ended == ended
  }

  lemma OfferRuns(id: string, identity: Identity)
    ensures var steps := [Create(id, identity, Some(0)), Write(0)];
            Legal(Empty, steps) && Stands(Run(Empty, steps), id, Task(identity, OfferedToNode, 2), {})
  {
    var steps := [Create(id, identity, Some(0)), Write(0)];
    var w1 := Apply(Empty, steps[0]);
    var w2 := Apply(w1, steps[1]);
    assert w2.actors == map[];
    RunOn(w2, [], w2);
    RunOn(w1, steps[1..], w2);
    RunOn(Empty, steps, w2);
  }

  lemma ReportRuns(w: World, a: nat, id: string, task: Task, kind: Kind)
    requires id != "" && Stands(w, id, task, {}) && !Terminal(task.status) && !kind.Ends? && Asked(kind, task.status).Some?
    ensures Legal(w, ReportSteps(a, id, task.identity, kind))
    ensures Stands(Run(w, ReportSteps(a, id, task.identity, kind)), id,
                   Task(task.identity, Asked(kind, task.status).value, task.version + 1), {})
  {
    var m, steps := ReportOf(id, task.identity, kind), ReportSteps(a, id, task.identity, kind);
    assert steps == LoneSteps(w, a, m);
    LoneReport(w, a, m);
  }

  lemma CutOffRuns(w: World, a: nat, id: string, task: Task)
    requires id != "" && Stands(w, id, task, {}) && !Terminal(task.status)
    ensures Legal(w, CutOffSteps(a, id, task.identity))
    ensures Stands(Run(w, CutOffSteps(a, id, task.identity)), id, task, {id})
  {
    var steps := CutOffSteps(a, id, task.identity);
    var w1 := Apply(w, steps[0]);
    var w2 := Apply(w1, steps[1]);
    var w3 := Apply(w2, steps[2]);
    var w4 := Apply(w3, steps[3]);
    var w5 := Apply(w4, steps[4]);
    assert w5.actors == map[] && w5.ended == {id} && w5.rows == w.rows;
    hide Enabled, Apply;
    RunOn(w5, [], w5);
    RunOn(w4, steps[4..], w5);
    RunOn(w3, steps[3..], w5);
    RunOn(w2, steps[2..], w5);
    RunOn(w1, steps[1..], w5);
    RunOn(w, steps, w5);
  }

  lemma {:induction false} RunAppend(w: World, first: seq<Step>, second: seq<Step>)
    requires Legal(w, first) && Legal(Run(w, first), second)
    ensures Legal(w, first + second) && Run(w, first + second) == Run(Run(w, first), second)
    decreases |first|
  {
    hide Enabled, Apply;
    var all := first + second;
    if first == [] {
      assert all == second;
    } else {
      assert all[0] == first[0] && all[1..] == first[1..] + second;
      RunAppend(Apply(w, first[0]), first[1..], second);
    }
  }

  /** An accepted and a started report, each ingested to its end. */
  lemma TwoReportsRun(w: World, id: string, identity: Identity)
    requires id != "" && Stands(w, id, Task(identity, OfferedToNode, 2), {})
    ensures var steps := ReportSteps(1, id, identity, Accepts) + ReportSteps(2, id, identity, Starts);
            Legal(w, steps) && Stands(Run(w, steps), id, Task(identity, Running, 4), {})
  {
    hide Legal, Run, ReportSteps, Stands;
    ReportRuns(w, 1, id, Task(identity, OfferedToNode, 2), Accepts);
    var mid := Run(w, ReportSteps(1, id, identity, Accepts));
    ReportRuns(mid, 2, id, Task(identity, AcceptedByNode, 3), Starts);
    RunAppend(w, ReportSteps(1, id, identity, Accepts), ReportSteps(2, id, identity, Starts));
  }

  /** The ingestor breaks off between mark and write, as when the database raises: the task stays running. */
  lemma CutOffReportIsLost(id: string, identity: Identity)
    requires id != ""
    ensures Legal(Empty, CutOffReport(id, identity))
    ensures Stands(Run(Empty, CutOffReport(id, identity)), id, Task(identity, Running, 4), {id})
  {
    var a, d := [Create(id, identity, Some(0)), Write(0)], CutOffSteps(3, id, identity);
    var b := ReportSteps(1, id, identity, Accepts) + ReportSteps(2, id, identity, Starts);
    assert CutOffReport(id, identity) == a + b + d;
    hide *;
    OfferRuns(id, identity);
    TwoReportsRun(Run(Empty, a), id, identity);
    RunAppend(Empty, a, b);
    NotTerminal(Task(identity, Running, 4));
    CutOffRuns(Run(Empty, a + b), 3, id, Task(identity, Running, 4));
    RunAppend(Empty, a + b, d);
  }

  lemma NotTerminal(task: Task)
    ensures task.status == Running ==> !Terminal(task.status)
  {
  }

  /** After that, no number of further reports from the node ends the task. */
  lemma CutOffReportIsLostForGood(id: string, identity: Identity, steps: seq<Step>)
    requires id != "" && Legal(Empty, CutOffReport(id, identity))
    requires Legal(Run(Empty, CutOffReport(id, identity)), steps)
    requires forall i :: 0 <= i < |steps| ==> Passive(steps[i], id)
    ensures var w := Run(Run(Empty, CutOffReport(id, identity)), steps);
            id in w.rows && !Terminal(w.rows[id].status)
  {
    CutOffReportIsLost(id, identity);
    hide CutOffReport, Legal, Run;
    DeafForever(Run(Empty, CutOffReport(id, identity)), steps, id);
  }

  /** One step in front of a run. */
  lemma RunOn(w: World, steps: seq<Step>, last: World)
    requires steps == [] ==> w == last
    requires steps != [] ==> Enabled(w, steps[0]) && Legal(Apply(w, steps[0]), steps[1..])
                             && Run(Apply(w, steps[0]), steps[1..]) == last
    ensures Legal(w, steps) && Run(w, steps) == last
  {
  }
}
