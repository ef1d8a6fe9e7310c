/**
 * Offers, executors, cancellation, crashes and restarts on one node. Handling an offer and
 * starting its executor are separate steps, and executors interleave.
 */
module NodeExecution {
  import opened Options
  import opened NodeJournal

  datatype Action = Authenticate | Other(name: string)

  /** The payload of an offer; `body` stands for its other fields and its signature. */
  datatype Offer = Offer(
    key: Key, nodeId: string, connectorId: string, connectorRevision: string, expiresAt: int, body: string)

  /**
   * The plan hash fixes the action; the result digest is a given function of task id and status,
   * and `signed` tells whether an offer's signature belongs to a public key. A key may be
   * configured; the empty string stands for none.
   */
  datatype Config = Config(
    nodeId: string, actionOf: Key -> Action, digestOf: (string, string) -> string, signed: (Offer, string) -> bool,
    initialKey: string)

  /** Where an executor stands: created; started in the journal; past or stopped by the runner's check. */
  datatype Phase = Created | Begun | Launched | Repeated

  datatype Executor = Executor(key: Key, phase: Phase)

  /** `launches` records, per key, how often the runner's idempotency check was passed. */
  datatype Node = Node(
    rows: Rows, executed: set<string>, executors: map<nat, Executor>, handles: map<string, nat>, revoked: bool,
    publicKey: string, launches: map<Key, nat>)

  function Fresh(c: Config): Node {
    Node(map[], {}, map[], map[], false, c.initialKey, map[])
  }

  datatype Outcome = WaitingForUser | Terminal(status: string)

  datatype Step =
    | Establish(publicKey: string)
    | HandleOffer(offer: Offer, id: nat, now: int)
    | Begin(id: nat, now: int)
    | Check(id: nat)
    | Report(id: nat, sequence: int)
    | Finish(id: nat, outcome: Outcome, sequence: int, now: int)
    | Fail(id: nat)
    | Cancel(taskId: string)
    | Stop
    | Revoke
    | Crash

  function IdempotencyKey(c: Config, k: Key): string {
    c.nodeId + ":" + k.taskId + ":" + k.planHash
  }

  function Launches(n: Node, k: Key): nat {
    if k in n.launches then n.launches[k] else 0
  }

  datatype OfferError = KeyUnknown | OfferExpired | BadSignature | WrongNode

  datatype Reply =
    | RejectedRevoked
    | Raised(error: OfferError)
    | ReplayedResult(succeeded: bool, sequence: int, digest: Option<string>)
    | Resumed(sequence: int, status: string)
    | AcceptedTask

  /** The checks on the envelope, in the order in which the node makes them. */
  function Refusal(c: Config, n: Node, offer: Offer, now: int): Option<OfferError> {
    if n.publicKey == "" then Some(KeyUnknown)
    else if offer.expiresAt <= now then Some(OfferExpired)
    else if !c.signed(offer, n.publicKey) then Some(BadSignature)
    else if offer.nodeId != c.nodeId then Some(WrongNode)
    else None
  }

  /** What the control plane is told about an offer, or how handling it fails. */
  function ReplyTo(c: Config, n: Node, offer: Offer, now: int): Reply {
    if n.revoked then RejectedRevoked
    else if Refusal(c, n, offer, now).Some? then Raised(Refusal(c, n, offer, now).value)
    else if offer.key in n.rows && n.rows[offer.key].terminalAt.Some? then
      var e := n.rows[offer.key];
      ReplayedResult(e.status == "succeeded", e.lastSequence, e.digest)
    else if offer.key in n.rows && n.rows[offer.key].startedAt.Some? then
      var e := n.rows[offer.key];
      Resumed(if e.lastSequence != 0 then e.lastSequence else 1, e.status)
    else AcceptedTask
  }

  predicate Enabled(n: Node, step: Step) {
    match step
    case Establish(publicKey) => true
    case HandleOffer(offer, id, now) => id !in n.executors
    case Begin(id, now) => id in n.executors && n.executors[id].phase == Created
    case Check(id) => id in n.executors && n.executors[id].phase == Begun
    case Report(id, sequence) => id in n.executors && n.executors[id].phase == Launched
    case Finish(id, outcome, sequence, now) =>
      && id in n.executors && (n.executors[id].phase == Launched || n.executors[id].phase == Repeated)
      && (n.executors[id].phase == Repeated ==> outcome == Terminal("succeeded"))
    case Fail(id) => id in n.executors
    case Cancel(taskId) => true
    case Stop => true
    case Revoke => true
    case Crash => true
  }

  /** When an executor ends, the handle under its task id goes, whosever it is. */
  function Ended(n: Node, id: nat): Node
    requires id in n.executors
  {
    n.(executors := n.executors - {id}, handles := n.handles - {n.executors[id].key.taskId})
  }

  /** Cancels every executor that still has its handle. */
  function Stopped(n: Node): Node {
    n.(executors := n.executors - n.handles.Values, handles := map[])
  }

  function Apply(c: Config, n: Node, step: Step): Node
    requires Enabled(n, step)
  {
    match step
    case Establish(publicKey) => n.(publicKey := if publicKey != "" then publicKey else n.publicKey)
    case HandleOffer(offer, id, now) =>
      if ReplyTo(c, n, offer, now) != AcceptedTask then n
      else n.(rows := Accepted(n.rows, offer.key, offer.connectorId, offer.connectorRevision, now),
              executors := n.executors[id := Executor(offer.key, Created)], handles := n.handles[offer.key.taskId := id])
    case Begin(id, now) =>
      var k := n.executors[id].key;
      n.(rows := Started(n.rows, k, now), executors := n.executors[id := Executor(k, Begun)])
    case Check(id) => Checked(c, n, id)
    case Report(id, sequence) => n.(rows := Sequenced(n.rows, n.executors[id].key, sequence))
    case Finish(id, outcome, sequence, now) =>
      var k := n.executors[id].key;
      var after := Ended(n, id);
      (match outcome
       case WaitingForUser => after
       case Terminal(status) =>
         after.(rows := Finished(n.rows, k, status, c.digestOf(k.taskId, status), sequence, now)))
    case Fail(id) => Ended(n, id)
    case Cancel(taskId) =>
      if taskId in n.handles then n.(executors := n.executors - {n.handles[taskId]}, handles := n.handles - {taskId}) else n
    case Stop => Stopped(n)
    case Revoke => Stopped(n).(revoked := true)
    case Crash => n.(executed := {}, executors := map[], handles := map[], revoked := false, publicKey := c.initialKey)
  }

  /** The runner's check: a key seen before ends the executor early, a new one is launched. */
  function Checked(c: Config, n: Node, id: nat): Node
    requires id in n.executors
  {
    var k := n.executors[id].key;
    var name := IdempotencyKey(c, k);
    if name in n.executed then n.(executors := n.executors[id := Executor(k, Repeated)])
    else n.(executed := if c.actionOf(k) == Authenticate then n.executed else n.executed + {name},
            executors := n.executors[id := Executor(k, Launched)],
            launches := n.launches[k := Launches(n, k) + 1])
  }

  predicate Legal(c: Config, n: Node, steps: seq<Step>)
    decreases |steps|
  {
    steps == [] || (Enabled(n, steps[0]) && Legal(c, Apply(c, n, steps[0]), steps[1..]))
  }

  function Run(c: Config, n: Node, steps: seq<Step>): Node
    requires Legal(c, n, steps)
    decreases |steps|
  {
    if steps == [] then n else Run(c, Apply(c, n, steps[0]), steps[1..])
  }

  // ---------------------------------------------------------------- at most one launch

  predicate HasStarted(rows: Rows, k: Key) {
    k in rows && rows[k].startedAt.Some?
  }

  /** An executor that has not reached the runner's check yet. */
  predicate MayLaunch(x: Executor) {
    x.phase == Created || x.phase == Begun
  }

  /** An executor past its start has a started row, unless the row was terminal before it began. */
  predicate ExecutorOk(rows: Rows, x: Executor) {
    x.key in rows && (x.phase != Created ==> rows[x.key].startedAt.Some? || rows[x.key].terminalAt.Some?)
  }

  ghost predicate JournalOk(n: Node) {
    && (forall id :: id in n.executors ==> ExecutorOk(n.rows, n.executors[id]))
    && (forall k :: k in n.rows && n.rows[k].terminalAt.Some? ==> n.rows[k].startedAt.Some?)
  }

  /** A key that was launched has a started row, and its name bars every executor still to check. */
  ghost predicate LaunchOk(c: Config, n: Node, k: Key) {
    && Launches(n, k) <= 1
    && (Launches(n, k) == 1 ==>
          && HasStarted(n.rows, k)
          && forall id :: id in n.executors && n.executors[id].key == k && MayLaunch(n.executors[id])
               ==> IdempotencyKey(c, k) in n.executed)
  }

  /** Rows are neither removed nor taken back: started stays started, terminal stays terminal. */
  ghost predicate Advances(before: Rows, after: Rows) {
    forall k :: k in before ==>
      && k in after && (before[k].startedAt.Some? ==> after[k].startedAt.Some?)
      && (before[k].terminalAt.Some? ==> after[k].terminalAt.Some?)
  }

  lemma StepAdvances(c: Config, n: Node, step: Step)
    requires Enabled(n, step)
    ensures Advances(n.rows, Apply(c, n, step).rows)
  {
    hide Refusal, IdempotencyKey, Launches;
  }

  /** An executor was there before, or was just created, or has just got a step further. */
  lemma ExecutorFrom(c: Config, n: Node, step: Step, id: nat)
    requires Enabled(n, step) && id in Apply(c, n, step).executors
    ensures var r := Apply(c, n, step); var x := r.executors[id];
            || (id in n.executors && x == n.executors[id])
            || (x.phase == Created && x.key in r.rows)
            || (step.Begin? && step.id == id && id in n.executors && x.key == n.executors[id].key
                && (x.key in r.rows ==> r.rows[x.key].startedAt.Some? || r.rows[x.key].terminalAt.Some?))
            || (step.Check? && step.id == id && id in n.executors && x.key == n.executors[id].key
                && n.executors[id].phase == Begun)
  {
    hide Refusal, IdempotencyKey, Launches;
  }

  lemma StepKeepsExecutors(c: Config, n: Node, step: Step)
    requires JournalOk(n) && Enabled(n, step)
    ensures forall id :: id in Apply(c, n, step).executors ==> ExecutorOk(Apply(c, n, step).rows, Apply(c, n, step).executors[id])
  {
    var r := Apply(c, n, step);
    StepAdvances(c, n, step);
    hide Apply, Enabled;
    forall id | id in r.executors
      ensures ExecutorOk(r.rows, r.executors[id])
    {
      ExecutorFrom(c, n, step, id);
      if id in n.executors { assert ExecutorOk(n.rows, n.executors[id]); }
    }
  }

  lemma StepKeepsJournalOk(c: Config, n: Node, step: Step)
    requires JournalOk(n) && Enabled(n, step)
    ensures JournalOk(Apply(c, n, step))
    ensures forall k :: HasStarted(n.rows, k) ==> HasStarted(Apply(c, n, step).rows, k)
  {
    hide Refusal, IdempotencyKey, Launches;
    StepAdvances(c, n, step);
    StepKeepsExecutors(c, n, step);
    if step.Finish? { assert ExecutorOk(n.rows, n.executors[step.id]); }
    hide ExecutorOk;
  }

  /** Of a started key, no step makes an executor that has yet to reach the check. */
  lemma MayLaunchFrom(c: Config, n: Node, step: Step, k: Key)
    requires Enabled(n, step) && HasStarted(n.rows, k)
    ensures var r := Apply(c, n, step);
            forall id :: id in r.executors && r.executors[id].key == k && MayLaunch(r.executors[id]) ==>
              id in n.executors && n.executors[id].key == k && MayLaunch(n.executors[id])
  {
    hide Refusal, IdempotencyKey, Launches;
  }

  /** Only passing the check books a launch; otherwise, names are forgotten only together with all executors. */
  lemma LaunchesFrom(c: Config, n: Node, step: Step, k: Key)
    requires Enabled(n, step)
    ensures var r := Apply(c, n, step);
            if step.Check? && n.executors[step.id].key == k && IdempotencyKey(c, k) !in n.executed then
              Launches(r, k) == Launches(n, k) + 1 && (c.actionOf(k) != Authenticate ==> IdempotencyKey(c, k) in r.executed)
            else Launches(r, k) == Launches(n, k) && (r.executed >= n.executed || r.executors == map[])
  {
    hide Refusal, IdempotencyKey;
  }

  lemma StepKeepsLaunchOk(c: Config, n: Node, step: Step, k: Key)
    requires JournalOk(n) && LaunchOk(c, n, k) && Enabled(n, step) && c.actionOf(k) != Authenticate
    ensures LaunchOk(c, Apply(c, n, step), k)
  {
    StepKeepsJournalOk(c, n, step);
    LaunchesFrom(c, n, step, k);
    if HasStarted(n.rows, k) { MayLaunchFrom(c, n, step, k); }
    if step.Check? && n.executors[step.id].key == k && IdempotencyKey(c, k) !in n.executed {
      assert ExecutorOk(n.rows, n.executors[step.id]);
      assert Launches(n, k) == 0;
      assert HasStarted(n.rows, k);
    }
    hide Apply, JournalOk, IdempotencyKey, Launches, MayLaunch;
  }

  lemma {:induction false} RunKeepsLaunchOk(c: Config, n: Node, steps: seq<Step>, k: Key)
    requires JournalOk(n) && LaunchOk(c, n, k) && Legal(c, n, steps) && c.actionOf(k) != Authenticate
    ensures LaunchOk(c, Run(c, n, steps), k)
    decreases |steps|
  {
    if steps != [] {
      StepKeepsJournalOk(c, n, steps[0]);
      StepKeepsLaunchOk(c, n, steps[0], k);
      RunKeepsLaunchOk(c, Apply(c, n, steps[0]), steps[1..], k);
    }
  }

  /** An offer that the node takes under some key before it expires. */
  ghost predicate Genuine(c: Config, offer: Offer, publicKey: string, k: Key) {
    publicKey != "" && offer.key == k && offer.nodeId == c.nodeId && c.signed(offer, publicKey)
  }

  ghost predicate CanBeOffered(c: Config, k: Key) {
    exists offer, publicKey :: Genuine(c, offer, publicKey, k)
  }

  /** One offer is handled twice before either executor starts. */
  function TwoOffers(offer: Offer, publicKey: string): seq<Step> {
    [Establish(publicKey), HandleOffer(offer, 0, offer.expiresAt - 1), HandleOffer(offer, 1, offer.expiresAt - 1),
     Begin(0, 0), Begin(1, 0), Check(0), Check(1)]
  }

  lemma AuthenticateLaunchesTwice(c: Config, offer: Offer, publicKey: string)
    requires c.actionOf(offer.key) == Authenticate && Genuine(c, offer, publicKey, offer.key)
    ensures Legal(c, Fresh(c), TwoOffers(offer, publicKey))
    ensures Launches(Run(c, Fresh(c), TwoOffers(offer, publicKey)), offer.key) == 2
  {
    var steps := TwoOffers(offer, publicKey);
    var n0 := Fresh(c);
    var n1 := Apply(c, n0, steps[0]);
    var n2 := Apply(c, n1, steps[1]);
    var n3 := Apply(c, n2, steps[2]);
    var n4 := Apply(c, n3, steps[3]);
    var n5 := Apply(c, n4, steps[4]);
    var n6 := Apply(c, n5, steps[5]);
    var n7 := Apply(c, n6, steps[6]);
    assert Launches(n7, offer.key) == 2;
    hide Enabled, Apply, Launches;
    RunOn(c, n7, [], n7);
    RunOn(c, n6, steps[6..], n7);
    RunOn(c, n5, steps[5..], n7);
    RunOn(c, n4, steps[4..], n7);
    RunOn(c, n3, steps[3..], n7);
    RunOn(c, n2, steps[2..], n7);
    RunOn(c, n1, steps[1..], n7);
    RunOn(c, n0, steps, n7);
  }

  /** One offer is handled twice before the first executor starts and launches; then the node is revoked. */
  function RevokedSteps(offer: Offer, publicKey: string): seq<Step> {
    [Establish(publicKey), HandleOffer(offer, 0, offer.expiresAt - 1), HandleOffer(offer, 1, offer.expiresAt - 1),
     Begin(0, 0), Check(0), Revoke]
  }

  /** The second executor's handle has replaced the first one's, so the first goes on running on a revoked node. */
  lemma RevokedNodeRuns(c: Config, offer: Offer, publicKey: string)
    requires Genuine(c, offer, publicKey, offer.key)
    ensures Legal(c, Fresh(c), RevokedSteps(offer, publicKey))
    ensures var n := Run(c, Fresh(c), RevokedSteps(offer, publicKey));
            n.revoked && n.executors == map[0 := Executor(offer.key, Launched)]
  {
    var steps := RevokedSteps(offer, publicKey);
    var n0 := Fresh(c);
    var n1 := Apply(c, n0, steps[0]);
    var n2 := Apply(c, n1, steps[1]);
    var n3 := Apply(c, n2, steps[2]);
    var n4 := Apply(c, n3, steps[3]);
    var n5 := Apply(c, n4, steps[4]);
    assert n5.handles == map[offer.key.taskId := 1] && n5.handles.Values == {1} by {
      assert n5.handles[offer.key.taskId] == 1;
    }
    assert n5.executors == map[0 := Executor(offer.key, Launched), 1 := Executor(offer.key, Created)];
    var n6 := Apply(c, n5, steps[5]);
    assert n6.revoked && n6.executors == map[0 := Executor(offer.key, Launched)];
    hide Enabled, Apply;
    RunOn(c, n6, [], n6);
    RunOn(c, n5, steps[5..], n6);
    RunOn(c, n4, steps[4..], n6);
    RunOn(c, n3, steps[3..], n6);
    RunOn(c, n2, steps[2..], n6);
    RunOn(c, n1, steps[1..], n6);
    RunOn(c, n0, steps, n6);
  }

  ghost predicate NeverTaken(n: Node, k: Key) {
    Launches(n, k) == 0 && forall id :: id in n.executors ==> n.executors[id].key != k
  }

  lemma {:induction false} NeverOffered(c: Config, n: Node, steps: seq<Step>, k: Key)
    requires !CanBeOffered(c, k) && NeverTaken(n, k) && Legal(c, n, steps)
    ensures NeverTaken(Run(c, n, steps), k)
    decreases |steps|
  {
    if steps != [] {
      hide Enabled, Apply, NeverTaken, CanBeOffered;
      NeverTakenStep(c, n, steps[0], k);
      NeverOffered(c, Apply(c, n, steps[0]), steps[1..], k);
    }
  }

  lemma NeverTakenStep(c: Config, n: Node, step: Step, k: Key)
    requires !CanBeOffered(c, k) && NeverTaken(n, k) && Enabled(n, step)
    ensures NeverTaken(Apply(c, n, step), k)
  {
    hide IdempotencyKey;
    if step.HandleOffer? && step.offer.key == k { assert !Genuine(c, step.offer, n.publicKey, k); }
  }

  /** One step in front of a run. */
  lemma RunOn(c: Config, n: Node, steps: seq<Step>, last: Node)
    requires steps == [] ==> n == last
    requires steps != [] ==> Enabled(n, steps[0]) && Legal(c, Apply(c, n, steps[0]), steps[1..])
                             && Run(c, Apply(c, n, steps[0]), steps[1..]) == last
    ensures Legal(c, n, steps) && Run(c, n, steps) == last
  {
  }

  /**
   * A key is launched at most once in every run exactly when its action is not authenticate, or
   * nobody can offer it at all.
   */
  lemma AtMostOnce(c: Config, k: Key)
    ensures (forall steps :: Legal(c, Fresh(c), steps) ==> Launches(Run(c, Fresh(c), steps), k) <= 1)
       <==> c.actionOf(k) != Authenticate || !CanBeOffered(c, k)
  {
    if c.actionOf(k) != Authenticate {
      forall steps | Legal(c, Fresh(c), steps)
        ensures Launches(Run(c, Fresh(c), steps), k) <= 1
      {
        RunKeepsLaunchOk(c, Fresh(c), steps, k);
      }
    } else if !CanBeOffered(c, k) {
      forall steps | Legal(c, Fresh(c), steps)
        ensures Launches(Run(c, Fresh(c), steps), k) <= 1
      {
        NeverOffered(c, Fresh(c), steps, k);
      }
    } else {
      var offer, publicKey :| Genuine(c, offer, publicKey, k);
      AuthenticateLaunchesTwice(c, offer, publicKey);
    }
  }

  // ---------------------------------------------------------------- started tasks are not launched again

  ghost predicate NoneMayLaunch(n: Node, k: Key) {
    forall id :: id in n.executors && n.executors[id].key == k ==> !MayLaunch(n.executors[id])
  }

  /** Whatever its action: a started task without a waiting executor is never launched (again), not even after a restart. */
  lemma {:induction false} StartedNotRelaunched(c: Config, n: Node, steps: seq<Step>, k: Key)
    requires Legal(c, n, steps) && HasStarted(n.rows, k) && NoneMayLaunch(n, k)
    ensures Launches(Run(c, n, steps), k) == Launches(n, k)
    decreases |steps|
  {
    if steps != [] {
      hide Enabled, Apply, NoneMayLaunch;
      NotRelaunched(c, n, steps[0], k);
      StartedNotRelaunched(c, Apply(c, n, steps[0]), steps[1..], k);
    }
  }

  lemma NotRelaunched(c: Config, n: Node, step: Step, k: Key)
    requires Enabled(n, step) && HasStarted(n.rows, k) && NoneMayLaunch(n, k)
    ensures var r := Apply(c, n, step);
            HasStarted(r.rows, k) && NoneMayLaunch(r, k) && Launches(r, k) == Launches(n, k)
  {
    StepAdvances(c, n, step);
    MayLaunchFrom(c, n, step, k);
    LaunchesFrom(c, n, step, k);
    if step.Check? { assert MayLaunch(n.executors[step.id]); }
    hide Apply, IdempotencyKey, Launches, MayLaunch;
  }

  /** After a crash every started task is in that position. */
  lemma CrashForbidsRelaunch(c: Config, n: Node, steps: seq<Step>, k: Key)
    requires HasStarted(n.rows, k) && Legal(c, Apply(c, n, Crash), steps)
    ensures Launches(Run(c, Apply(c, n, Crash), steps), k) == Launches(n, k)
  {
    StartedNotRelaunched(c, Apply(c, n, Crash), steps, k);
  }

  // ---------------------------------------------------------------- the first terminal result wins

  /** Two rows report the same terminal outcome. */
  predicate SameOutcome(a: Entry, b: Entry) {
    a.terminalAt.Some? && b.terminalAt == a.terminalAt && b.status == a.status && b.digest == a.digest
  }

  /** Once terminal, a row keeps status, digest and terminal time through every later step. */
  lemma {:induction false} FirstTerminalWins(c: Config, n: Node, steps: seq<Step>, k: Key)
    requires Legal(c, n, steps) && k in n.rows && n.rows[k].terminalAt.Some?
    ensures var r := Run(c, n, steps);
            k in r.rows && SameOutcome(n.rows[k], r.rows[k])
    decreases |steps|
  {
    if steps != [] {
      var r := Apply(c, n, steps[0]);
      assert k in r.rows && SameOutcome(n.rows[k], r.rows[k]);
      FirstTerminalWins(c, r, steps[1..], k);
    }
  }

  /** Every offer of a finished task that the node takes is answered with that first outcome. */
  lemma ReplaysFirstOutcome(c: Config, n: Node, steps: seq<Step>, offer: Offer, now: int)
    requires Legal(c, n, steps) && offer.key in n.rows && n.rows[offer.key].terminalAt.Some?
    ensures var r := Run(c, n, steps);
            var first := n.rows[offer.key];
            && offer.key in r.rows
            && ReplyTo(c, r, offer, now) == if r.revoked then RejectedRevoked
              else if Refusal(c, r, offer, now).Some? then Raised(Refusal(c, r, offer, now).value)
              else ReplayedResult(first.status == "succeeded", r.rows[offer.key].lastSequence, first.digest)
  {
    FirstTerminalWins(c, n, steps, offer.key);
  }

  /** A terminal row's digest is the digest of its own task and status. */
  ghost predicate DigestsOk(c: Config, n: Node) {
    forall k :: k in n.rows ==>
      (n.rows[k].terminalAt.Some? ==> n.rows[k].digest == Some(c.digestOf(k.taskId, n.rows[k].status)))
  }

  lemma {:induction false} DigestsMatch(c: Config, n: Node, steps: seq<Step>)
    requires DigestsOk(c, n) && Legal(c, n, steps)
    ensures DigestsOk(c, Run(c, n, steps))
    decreases |steps|
  {
    if steps != [] {
      hide Enabled, Apply, DigestsOk;
      DigestStep(c, n, steps[0]);
      DigestsMatch(c, Apply(c, n, steps[0]), steps[1..]);
    }
  }

  lemma DigestStep(c: Config, n: Node, step: Step)
    requires DigestsOk(c, n) && Enabled(n, step)
    ensures DigestsOk(c, Apply(c, n, step))
  {
    hide Refusal, IdempotencyKey, Launches;
  }

  // ---------------------------------------------------------------- the handlers

  /** The node's handlers, each of which is one step of the transition system. */
  class ConnectorNode {
    const config: Config
    const journal: Journal
    var executed: set<string>
    var executors: map<nat, Executor>
    var handles: map<string, nat>
    var revoked: bool
    var publicKey: string
    ghost var launches: map<Key, nat>

    constructor (config: Config, journal: Journal)
      ensures this.config == config && this.journal == journal
      ensures State() == Fresh(config).(rows := journal.rows)
    {
      this.config := config;
      this.journal := journal;
      executed := {};
      executors := map[];
      handles := map[];
      revoked := false;
      publicKey := config.initialKey;
      launches := map[];
    }

    ghost function State(): Node
      reads this, journal
    {
      Node(journal.rows, executed, executors, handles, revoked, publicKey, launches)
    }

    /** `SESSION_ESTABLISHED`: the control plane's key, if it sends one, replaces the known one. */
    method EstablishSession(received: string)
      modifies this`publicKey
      ensures State() == Apply(config, old(State()), Establish(received))
    {
      if received != "" { publicKey := received; }
    }

    /** `_accept_connector_offer`. */
    method AcceptConnectorOffer(offer: Offer, id: nat, now: int) returns (reply: Reply)
      requires id !in executors
      modifies this, journal
      ensures reply == ReplyTo(config, old(State()), offer, now)
      ensures State() == Apply(config, old(State()), HandleOffer(offer, id, now))
    {
      if revoked {
        return RejectedRevoked;
      }
      if publicKey == "" { return Raised(KeyUnknown); }
      if offer.expiresAt <= now { return Raised(OfferExpired); }
      if !config.signed(offer, publicKey) { return Raised(BadSignature); }
      if offer.nodeId != config.nodeId { return Raised(WrongNode); }
      var existing := journal.Get(offer.key);
      if existing.Some? && existing.value.terminalAt.Some? {
        return ReplayedResult(existing.value.status == "succeeded", existing.value.lastSequence, existing.value.digest);
      }
      if existing.Some? && existing.value.startedAt.Some? {
        return Resumed(if existing.value.lastSequence != 0 then existing.value.lastSequence else 1, existing.value.status);
      }
      var _ := journal.Accept(offer.key, offer.connectorId, offer.connectorRevision, now);
      executors := executors[id := Executor(offer.key, Created)];
      handles := handles[offer.key.taskId := id];
      reply := AcceptedTask;
    }

    /** The start of `_execute_connector_task`. */
    method BeginExecution(id: nat, now: int)
      requires Enabled(State(), Begin(id, now)) && executors[id].key in journal.rows
      modifies this, journal
      ensures State() == Apply(config, old(State()), Begin(id, now))
    {
      var _ := journal.MarkStarted(executors[id].key, now);
      executors := executors[id := Executor(executors[id].key, Begun)];
    }

    /** The head of `ConnectorNodeRunner.execute`; false means it returns SUCCEEDED at once. */
    method CheckIdempotency(id: nat) returns (launched: bool)
      requires Enabled(State(), Check(id))
      modifies this
      ensures State() == Apply(config, old(State()), Check(id))
      ensures launched <==> Launches(State(), executors[id].key) == Launches(old(State()), executors[id].key) + 1
    {
      var k := executors[id].key;
      var name := IdempotencyKey(config, k);
      if name in executed {
        executors := executors[id := Executor(k, Repeated)];
        return false;
      }
      if config.actionOf(k) != Authenticate {
        executed := executed + {name};
      }
      launches := launches[k := Launches(State(), k) + 1];
      executors := executors[id := Executor(k, Launched)];
      launched := true;
    }

    /** An event of the runner moves the journal's last sequence. */
    method ReportSequence(id: nat, sequence: int)
      requires Enabled(State(), Report(id, sequence))
      modifies journal
      ensures State() == Apply(config, old(State()), Report(id, sequence))
    {
      journal.UpdateSequence(executors[id].key, sequence);
    }

    /** An executor raises, as when its connection is gone: it ends without an outcome in the journal. */
    method FailExecution(id: nat)
      requires Enabled(State(), Fail(id))
      modifies this`executors, this`handles
      ensures State() == Apply(config, old(State()), Fail(id))
    {
      handles := handles - {executors[id].key.taskId};
      executors := executors - {id};
    }

    /** `TASK_CANCEL`: the executor whose handle is kept under the task id is cancelled. */
    method CancelTask(taskId: string)
      modifies this`executors, this`handles
      ensures State() == Apply(config, old(State()), Cancel(taskId))
    {
      if taskId in handles {
        executors := executors - {handles[taskId]};
        handles := handles - {taskId};
      }
    }

    /** `stop`: the executors whose handles are kept are cancelled. */
    method StopAll()
      modifies this`executors, this`handles
      ensures State() == Apply(config, old(State()), Stop)
    {
      executors := executors - handles.Values;
      handles := map[];
    }

    /** `NODE_REVOKED`: no further offer is taken, and the node stops. */
    method RevokeNode()
      modifies this`executors, this`handles, this`revoked
      ensures State() == Apply(config, old(State()), Revoke)
    {
      revoked := true;
      StopAll();
    }

    /** The end of `_execute_connector_task` once the runner has returned. */
    method FinishExecution(id: nat, outcome: Outcome, sequence: int, now: int)
      requires Enabled(State(), Finish(id, outcome, sequence, now)) && executors[id].key in journal.rows
      modifies this, journal
      ensures State() == Apply(config, old(State()), Finish(id, outcome, sequence, now))
    {
      var k := executors[id].key;
      handles := handles - {k.taskId};
      executors := executors - {id};
      match outcome {
        case WaitingForUser =>
        case Terminal(status) =>
          var _ := journal.MarkTerminal(k, status, config.digestOf(k.taskId, status), sequence, now);
      }
    }
  }
}
