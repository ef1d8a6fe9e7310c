/** Which offers a node takes, what it answers, what its journal tells, and what a cancellation reaches. */
module NodeOffers {
  import opened Options
  import opened NodeJournal
  import opened NodeExecution

  // ---------------------------------------------------------------- one offer

  /** The control plane is known, and the envelope is unexpired, signed by it and addressed to this node. */
  predicate Good(c: Config, n: Node, offer: Offer, now: int) {
    n.publicKey != "" && now < offer.expiresAt && c.signed(offer, n.publicKey) && offer.nodeId == c.nodeId
  }

  /** The journal has neither started nor finished the task. */
  predicate Untouched(rows: Rows, k: Key) {
    k in rows ==> rows[k].startedAt.None? && rows[k].terminalAt.None?
  }

  /** An offer gets an executor, a handle and a journal row exactly under these conditions, and else changes nothing. */
  lemma TakenExactly(c: Config, n: Node, offer: Offer, id: nat, now: int)
    requires id !in n.executors
    ensures var r := Apply(c, n, HandleOffer(offer, id, now));
            if !n.revoked && Good(c, n, offer, now) && Untouched(n.rows, offer.key) then
              && r.executors == n.executors[id := Executor(offer.key, Created)]
              && r.handles == n.handles[offer.key.taskId := id]
              && offer.key in r.rows && r.rows - {offer.key} == n.rows - {offer.key}
              && r.rows[offer.key] == (if offer.key in n.rows then n.rows[offer.key] else
                   Entry(offer.connectorId, offer.connectorRevision, "accepted", now, None, None, None, 0))
              && r == n.(rows := r.rows, executors := r.executors, handles := r.handles)
            else r == n
  {
    var r := Apply(c, n, HandleOffer(offer, id, now));
    assert r.rows - {offer.key} == n.rows - {offer.key};
  }

  /** The exact condition of every answer, and what it carries. */
  lemma AnswerExactly(c: Config, n: Node, offer: Offer, now: int)
    ensures ReplyTo(c, n, offer, now) == RejectedRevoked <==> n.revoked
    ensures ReplyTo(c, n, offer, now) == Raised(KeyUnknown) <==> !n.revoked && n.publicKey == ""
    ensures ReplyTo(c, n, offer, now) == Raised(OfferExpired) <==>
              !n.revoked && n.publicKey != "" && now >= offer.expiresAt
    ensures ReplyTo(c, n, offer, now) == Raised(BadSignature) <==>
              !n.revoked && n.publicKey != "" && now < offer.expiresAt && !c.signed(offer, n.publicKey)
    ensures ReplyTo(c, n, offer, now) == Raised(WrongNode) <==>
              && !n.revoked && n.publicKey != "" && now < offer.expiresAt && c.signed(offer, n.publicKey)
              && offer.nodeId != c.nodeId
    ensures ReplyTo(c, n, offer, now).ReplayedResult? <==>
              !n.revoked && Good(c, n, offer, now) && offer.key in n.rows && n.rows[offer.key].terminalAt.Some?
    ensures ReplyTo(c, n, offer, now).ReplayedResult? ==>
              ReplyTo(c, n, offer, now) == ReplayedResult(n.rows[offer.key].status == "succeeded",
                                                          n.rows[offer.key].lastSequence, n.rows[offer.key].digest)
    ensures ReplyTo(c, n, offer, now).Resumed? <==>
              && !n.revoked && Good(c, n, offer, now) && offer.key in n.rows
              && n.rows[offer.key].terminalAt.None? && n.rows[offer.key].startedAt.Some?
    ensures ReplyTo(c, n, offer, now).Resumed? ==>
              && ReplyTo(c, n, offer, now).status == n.rows[offer.key].status
              && ReplyTo(c, n, offer, now).sequence == if n.rows[offer.key].lastSequence == 0 then 1 else n.rows[offer.key].lastSequence
    ensures ReplyTo(c, n, offer, now) == AcceptedTask <==>
              !n.revoked && Good(c, n, offer, now) && Untouched(n.rows, offer.key)
  {
  }

  // ---------------------------------------------------------------- offers over runs

  /** This step takes an offer of the key. */
  predicate Takes(c: Config, n: Node, step: Step, k: Key) {
    && step.HandleOffer? && step.offer.key == k
    && !n.revoked && Good(c, n, step.offer, step.now) && Untouched(n.rows, k)
  }

  predicate TakesSome(c: Config, n: Node, steps: seq<Step>, k: Key)
    requires Legal(c, n, steps)
    decreases |steps|
  {
    steps != [] && (Takes(c, n, steps[0], k) || TakesSome(c, Apply(c, n, steps[0]), steps[1..], k))
  }

  lemma NotTakenStep(c: Config, n: Node, step: Step, k: Key)
    requires NeverTaken(n, k) && Enabled(n, step) && !Takes(c, n, step, k)
    ensures NeverTaken(Apply(c, n, step), k)
  {
    hide IdempotencyKey;
    if step.HandleOffer? { TakenExactly(c, n, step.offer, step.id, step.now); }
  }

  /** A key is never launched, nor gets an executor, unless some step takes an offer of it in the state it finds. */
  lemma {:induction false} LaunchNeedsOffer(c: Config, n: Node, steps: seq<Step>, k: Key)
    requires NeverTaken(n, k) && Legal(c, n, steps) && !TakesSome(c, n, steps, k)
    ensures NeverTaken(Run(c, n, steps), k)
    decreases |steps|
  {
    if steps != [] {
      hide Enabled, Apply, NeverTaken, Takes;
      NotTakenStep(c, n, steps[0], k);
      LaunchNeedsOffer(c, Apply(c, n, steps[0]), steps[1..], k);
    }
  }

  lemma {:induction false} ExpiredNotTaken(c: Config, n: Node, steps: seq<Step>, k: Key)
    requires Legal(c, n, steps)
    requires forall i :: 0 <= i < |steps| && steps[i].HandleOffer? && steps[i].offer.key == k ==>
               steps[i].offer.expiresAt <= steps[i].now
    ensures !TakesSome(c, n, steps, k)
    decreases |steps|
  {
    if steps != [] {
      hide Apply, Enabled;
      forall i | 0 <= i < |steps| - 1 && steps[1..][i].HandleOffer? && steps[1..][i].offer.key == k
        ensures steps[1..][i].offer.expiresAt <= steps[1..][i].now
      {
        assert steps[1..][i] == steps[i + 1];
      }
      ExpiredNotTaken(c, Apply(c, n, steps[0]), steps[1..], k);
    }
  }

  /** A key whose every offer comes at or after its expiry is never launched. */
  lemma ExpiredNeverLaunched(c: Config, steps: seq<Step>, k: Key)
    requires Legal(c, Fresh(c), steps)
    requires forall i :: 0 <= i < |steps| && steps[i].HandleOffer? && steps[i].offer.key == k ==>
               steps[i].offer.expiresAt <= steps[i].now
    ensures Launches(Run(c, Fresh(c), steps), k) == 0
  {
    ExpiredNotTaken(c, Fresh(c), steps, k);
    LaunchNeedsOffer(c, Fresh(c), steps, k);
  }

  // ---------------------------------------------------------------- the key of the control plane

  /** The key changes only when another one is received, and a crash takes the node back to its own. */
  lemma KeyIsLastReceived(c: Config, n: Node, received: string, steps: seq<Step>)
    requires received != "" && Legal(c, Apply(c, n, Establish(received)), steps)
    requires forall i :: 0 <= i < |steps| ==> !steps[i].Crash? && (steps[i].Establish? ==> steps[i].publicKey == "")
    ensures Run(c, Apply(c, n, Establish(received)), steps).publicKey == received
  {
    KeyStays(c, Apply(c, n, Establish(received)), steps);
  }

  lemma {:induction false} KeyStays(c: Config, n: Node, steps: seq<Step>)
    requires Legal(c, n, steps)
    requires forall i :: 0 <= i < |steps| ==> !steps[i].Crash? && (steps[i].Establish? ==> steps[i].publicKey == "")
    ensures Run(c, n, steps).publicKey == n.publicKey
    decreases |steps|
  {
    if steps != [] {
      assert Apply(c, n, steps[0]).publicKey == n.publicKey;
      hide Apply, Enabled;
      KeyStays(c, Apply(c, n, steps[0]), steps[1..]);
    }
  }

  // ---------------------------------------------------------------- what the journal tells

  /** An unfinished row says whether its task was started, and one not started has reported nothing. */
  predicate Telling(e: Entry) {
    && (e.terminalAt.None? && e.startedAt.None? ==> e.status == "accepted" && e.lastSequence == 0)
    && (e.terminalAt.None? && e.startedAt.Some? ==> e.status == "running")
  }

  ghost predicate JournalTells(n: Node) {
    JournalOk(n) && forall k :: k in n.rows ==> Telling(n.rows[k])
  }

  lemma StepKeepsTelling(c: Config, n: Node, step: Step)
    requires JournalTells(n) && Enabled(n, step)
    ensures JournalTells(Apply(c, n, step))
  {
    StepKeepsJournalOk(c, n, step);
    hide JournalOk, Refusal, IdempotencyKey, Launches;
    if step.Report? { ReporterStarted(n, step.id); }
  }

  lemma ReporterStarted(n: Node, id: nat)
    requires JournalOk(n) && id in n.executors && n.executors[id].phase == Launched
    ensures n.executors[id].key in n.rows && n.rows[n.executors[id].key].startedAt.Some?
  {
    assert ExecutorOk(n.rows, n.executors[id]);
  }

  /** On every run, crashes included, an unfinished task is offered again as accepted, or resumed as running. */
  lemma {:induction false} RowsTell(c: Config, n: Node, steps: seq<Step>)
    requires JournalTells(n) && Legal(c, n, steps)
    ensures JournalTells(Run(c, n, steps))
    decreases |steps|
  {
    if steps != [] {
      hide Apply, Enabled, JournalTells;
      StepKeepsTelling(c, n, steps[0]);
      RowsTell(c, Apply(c, n, steps[0]), steps[1..]);
    }
  }

  /** A last sequence changes only with a report or an outcome of an executor of that task, and then to its sequence. */
  lemma SequenceFollowsReports(c: Config, n: Node, step: Step, k: Key)
    requires JournalOk(n) && Enabled(n, step) && k in n.rows
    ensures var r := Apply(c, n, step);
            && k in r.rows
            && r.rows[k].lastSequence ==
                 if step.Report? && n.executors[step.id].key == k then step.sequence
                 else if step.Finish? && n.executors[step.id].key == k && step.outcome.Terminal? && n.rows[k].terminalAt.None?
                 then step.sequence
                 else n.rows[k].lastSequence
  {
    hide Refusal, IdempotencyKey, Launches, JournalOk;
  }

  // ---------------------------------------------------------------- cancelling

  /** A step that does not end executors of the task id, and does not take another offer of it. */
  predicate Leaves(n: Node, step: Step, taskId: string) {
    && !step.Stop? && !step.Revoke? && !step.Crash? && step != Cancel(taskId)
    && (step.HandleOffer? ==> step.offer.key.taskId != taskId)
    && (step.Finish? || step.Fail? ==> step.id in n.executors ==> n.executors[step.id].key.taskId != taskId)
  }

  predicate AllLeave(c: Config, n: Node, steps: seq<Step>, taskId: string)
    requires Legal(c, n, steps)
    decreases |steps|
  {
    steps != [] ==> Leaves(n, steps[0], taskId) && AllLeave(c, Apply(c, n, steps[0]), steps[1..], taskId)
  }

  /** Every handle belongs to a living executor of its task id. */
  ghost predicate HandlesOk(n: Node) {
    forall taskId :: taskId in n.handles ==>
      n.handles[taskId] in n.executors && n.executors[n.handles[taskId]].key.taskId == taskId
  }

  lemma StepKeepsHandles(c: Config, n: Node, step: Step)
    requires HandlesOk(n) && Enabled(n, step)
    ensures HandlesOk(Apply(c, n, step))
  {
    hide ReplyTo, IdempotencyKey, Launches;
    var r := Apply(c, n, step);
    forall taskId | taskId in r.handles
      ensures r.handles[taskId] in r.executors && r.executors[r.handles[taskId]].key.taskId == taskId
    {
      if taskId in n.handles { assert n.handles[taskId] in n.executors; }
    }
  }

  lemma {:induction false} RunKeepsHandles(c: Config, n: Node, steps: seq<Step>)
    requires HandlesOk(n) && Legal(c, n, steps)
    ensures HandlesOk(Run(c, n, steps))
    decreases |steps|
  {
    if steps != [] {
      hide Apply, Enabled, HandlesOk;
      StepKeepsHandles(c, n, steps[0]);
      RunKeepsHandles(c, Apply(c, n, steps[0]), steps[1..]);
    }
  }

  /**
   * In every reachable state a cancellation ends exactly one executor, one of that task id, when a
   * handle is kept under it, and changes nothing otherwise; journal and key set stay in any case.
   */
  lemma CancelExactly(c: Config, steps: seq<Step>, taskId: string)
    requires Legal(c, Fresh(c), steps)
    ensures var n := Run(c, Fresh(c), steps);
            var r := Apply(c, n, Cancel(taskId));
            if taskId in n.handles then
              && n.handles[taskId] in n.executors && n.executors[n.handles[taskId]].key.taskId == taskId
              && r == n.(executors := n.executors - {n.handles[taskId]}, handles := n.handles - {taskId})
              && |r.executors| == |n.executors| - 1
            else r == n
  {
    RunKeepsHandles(c, Fresh(c), steps);
    var n := Run(c, Fresh(c), steps);
    if taskId in n.handles {
      assert (n.executors - {n.handles[taskId]}).Keys == n.executors.Keys - {n.handles[taskId]};
    }
  }

  lemma LeavingKeeps(c: Config, n: Node, step: Step, taskId: string, id: nat)
    requires HandlesOk(n) && taskId in n.handles && n.handles[taskId] == id && Enabled(n, step) && Leaves(n, step, taskId)
    ensures var r := Apply(c, n, step); taskId in r.handles && r.handles[taskId] == id
  {
    hide ReplyTo, IdempotencyKey, Launches;
  }

  lemma {:induction false} StillKept(c: Config, n: Node, steps: seq<Step>, taskId: string, id: nat)
    requires HandlesOk(n) && taskId in n.handles && n.handles[taskId] == id
    requires Legal(c, n, steps) && AllLeave(c, n, steps, taskId)
    ensures var r := Run(c, n, steps); HandlesOk(r) && taskId in r.handles && r.handles[taskId] == id
    decreases |steps|
  {
    if steps != [] {
      hide Apply, Enabled, HandlesOk, Leaves;
      StepKeepsHandles(c, n, steps[0]);
      LeavingKeeps(c, n, steps[0], taskId, id);
      StillKept(c, Apply(c, n, steps[0]), steps[1..], taskId, id);
    }
  }

  /** Whatever other tasks do meanwhile, a cancellation ends the executor of the offer taken last, and no other. */
  lemma CancelReaches(c: Config, n: Node, offer: Offer, id: nat, now: int, steps: seq<Step>)
    requires HandlesOk(n) && id !in n.executors
    requires !n.revoked && Good(c, n, offer, now) && Untouched(n.rows, offer.key)
    requires Legal(c, Apply(c, n, HandleOffer(offer, id, now)), steps)
    requires AllLeave(c, Apply(c, n, HandleOffer(offer, id, now)), steps, offer.key.taskId)
    ensures var m := Run(c, Apply(c, n, HandleOffer(offer, id, now)), steps);
            id in m.executors && Apply(c, m, Cancel(offer.key.taskId)).executors == m.executors - {id}
  {
    StepKeepsHandles(c, n, HandleOffer(offer, id, now));
    TakenExactly(c, n, offer, id, now);
    var taken := Apply(c, n, HandleOffer(offer, id, now));
    StillKept(c, taken, steps, offer.key.taskId, id);
  }

  /** An executor that ends takes the handle of its task id along, even that of another executor, which nothing reaches then. */
  lemma EndTakesHandle(c: Config, n: Node, id: nat, other: nat, step: Step)
    requires id in n.executors && other in n.executors && id != other && n.executors[other].key.taskId == n.executors[id].key.taskId
    requires Enabled(n, step) && (step == Fail(id) || (step.Finish? && step.id == id))
    ensures var taskId, r := n.executors[id].key.taskId, Apply(c, n, step);
            taskId !in r.handles && other in r.executors && id !in r.executors && Apply(c, r, Cancel(taskId)) == r
  {
  }

  /** Stopping and revoking leave exactly the executors that no handle leads to. */
  lemma StoppedExactly(c: Config, n: Node, id: nat)
    ensures id in Apply(c, n, Stop).executors
       <==> id in n.executors && forall taskId :: taskId in n.handles ==> n.handles[taskId] != id
    ensures Apply(c, n, Revoke) == Apply(c, n, Stop).(revoked := true)
    ensures Apply(c, n, Stop).rows == n.rows && Apply(c, n, Stop).executed == n.executed && Apply(c, n, Stop).handles == map[]
  {
  }

  /** From its revocation to its next crash a node starts nothing, whatever is offered to it. */
  lemma {:induction false} RevokedStartsNothing(c: Config, n: Node, steps: seq<Step>)
    requires n.revoked && Legal(c, n, steps) && forall i :: 0 <= i < |steps| ==> !steps[i].Crash?
    ensures Run(c, n, steps).revoked && Run(c, n, steps).executors.Keys <= n.executors.Keys
    decreases |steps|
  {
    if steps != [] {
      RevokedStep(c, n, steps[0]);
      hide Apply, Enabled;
      RevokedStartsNothing(c, Apply(c, n, steps[0]), steps[1..]);
    }
  }

  lemma RevokedStep(c: Config, n: Node, step: Step)
    requires n.revoked && Enabled(n, step) && !step.Crash?
    ensures Apply(c, n, step).revoked && Apply(c, n, step).executors.Keys <= n.executors.Keys
  {
    hide IdempotencyKey, Refusal, Launches;
  }

  // ---------------------------------------------------------------- names of keys

  /** The runner remembers only names of keys that were launched. */
  ghost predicate NamesOk(c: Config, n: Node) {
    forall name :: name in n.executed ==> exists k :: k in n.launches && n.launches[k] > 0 && name == IdempotencyKey(c, k)
  }

  lemma StepKeepsNames(c: Config, n: Node, step: Step)
    requires NamesOk(c, n) && Enabled(n, step)
    ensures NamesOk(c, Apply(c, n, step))
  {
    hide ReplyTo, IdempotencyKey;
    var r := Apply(c, n, step);
    forall name | name in r.executed
      ensures exists k :: k in r.launches && r.launches[k] > 0 && name == IdempotencyKey(c, k)
    {
      if name in n.executed {
        var k :| k in n.launches && n.launches[k] > 0 && name == IdempotencyKey(c, k);
        assert k in r.launches && r.launches[k] > 0;
      } else {
        var k := n.executors[step.id].key;
        assert k in r.launches && r.launches[k] > 0;
      }
    }
  }

  lemma {:induction false} RunKeepsNames(c: Config, n: Node, steps: seq<Step>)
    requires NamesOk(c, n) && Legal(c, n, steps)
    ensures NamesOk(c, Run(c, n, steps))
    decreases |steps|
  {
    if steps != [] {
      hide Apply, Enabled, NamesOk;
      StepKeepsNames(c, n, steps[0]);
      RunKeepsNames(c, Apply(c, n, steps[0]), steps[1..]);
    }
  }

  lemma {:induction false} NameParts(a: string, restA: string, b: string, restB: string)
    requires ':' !in a && ':' !in b && a + ":" + restA == b + ":" + restB
    ensures a == b && restA == restB
  {
    var s, t := a + ":" + restA, b + ":" + restB;
    assert s[0] == t[0];
    if a != [] && b != [] {
      assert s[0] == a[0] && t[0] == b[0];
      assert s[1..] == a[1..] + ":" + restA && t[1..] == b[1..] + ":" + restB;
      NameParts(a[1..], restA, b[1..], restB);
      assert a == [a[0]] + a[1..] && b == [b[0]] + b[1..];
    } else {
      assert a == [] && b == [];
      assert s[1..] == restA && t[1..] == restB;
    }
  }

  /** Keys whose task ids hold no colon have names of their own. */
  lemma NamesApart(c: Config, a: Key, b: Key)
    requires ':' !in a.taskId && ':' !in b.taskId
    ensures IdempotencyKey(c, a) == IdempotencyKey(c, b) <==> a == b
  {
    if IdempotencyKey(c, a) == IdempotencyKey(c, b) {
      var head := c.nodeId + ":";
      assert IdempotencyKey(c, a)[|head|..] == a.taskId + ":" + a.planHash;
      assert IdempotencyKey(c, b)[|head|..] == b.taskId + ":" + b.planHash;
      NameParts(a.taskId, a.planHash, b.taskId, b.planHash);
    }
  }

  /** With a colon in a task id, two keys may share a name, and one of them is reported as done without a launch. */
  lemma NamesCollide(c: Config)
    ensures IdempotencyKey(c, Key("a:b", "c")) == IdempotencyKey(c, Key("a", "b:c"))
  {
    assert "a:b" + ":" + "c" == "a" + ":" + "b:c";
    assert IdempotencyKey(c, Key("a:b", "c")) == c.nodeId + ":" + ("a:b" + ":" + "c");
    assert IdempotencyKey(c, Key("a", "b:c")) == c.nodeId + ":" + ("a" + ":" + "b:c");
  }

  function LaunchSteps(offer: Offer, publicKey: string): seq<Step> {
    [Establish(publicKey), HandleOffer(offer, 0, offer.expiresAt - 1), Begin(0, 0), Check(0)]
  }

  function RepeatSteps(offer: Offer): seq<Step> {
    [HandleOffer(offer, 1, offer.expiresAt - 1), Begin(1, 0), Check(1), Finish(1, Terminal("succeeded"), 1, 0)]
  }

  lemma FirstLaunched(c: Config, offer: Offer, publicKey: string)
    requires Genuine(c, offer, publicKey, offer.key) && c.actionOf(offer.key) != Authenticate
    ensures Legal(c, Fresh(c), LaunchSteps(offer, publicKey))
    ensures var n := Run(c, Fresh(c), LaunchSteps(offer, publicKey));
            && n.executors.Keys == {0} && n.rows.Keys == {offer.key} && n.executed == {IdempotencyKey(c, offer.key)}
            && n.publicKey == publicKey && !n.revoked && n.launches.Keys == {offer.key}
  {
    hide IdempotencyKey;
    var steps := LaunchSteps(offer, publicKey);
    var n0 := Fresh(c);
    var n1 := Apply(c, n0, steps[0]);
    var n2 := Apply(c, n1, steps[1]);
    var n3 := Apply(c, n2, steps[2]);
    var n4 := Apply(c, n3, steps[3]);
    hide Enabled, Apply, Launches;
    RunOn(c, n4, [], n4);
    RunOn(c, n3, steps[3..], n4);
    RunOn(c, n2, steps[2..], n4);
    RunOn(c, n1, steps[1..], n4);
    RunOn(c, n0, steps, n4);
  }

  lemma SecondRepeats(c: Config, n: Node, offer: Offer)
    requires Genuine(c, offer, n.publicKey, offer.key) && !n.revoked && 1 !in n.executors
    requires offer.key !in n.rows && offer.key !in n.launches && IdempotencyKey(c, offer.key) in n.executed
    ensures Legal(c, n, RepeatSteps(offer))
    ensures var r := Run(c, n, RepeatSteps(offer));
            && Launches(r, offer.key) == 0 && offer.key in r.rows
            && r.rows[offer.key].status == "succeeded" && r.rows[offer.key].terminalAt.Some?
  {
    hide IdempotencyKey;
    var steps := RepeatSteps(offer);
    var n1 := Apply(c, n, steps[0]);
    var n2 := Apply(c, n1, steps[1]);
    var n3 := Apply(c, n2, steps[2]);
    var n4 := Apply(c, n3, steps[3]);
    hide Enabled, Apply, Launches;
    RunOn(c, n4, [], n4);
    RunOn(c, n3, steps[3..], n4);
    RunOn(c, n2, steps[2..], n4);
    RunOn(c, n1, steps[1..], n4);
    RunOn(c, n, steps, n4);
  }

  /** When the names of two tasks clash, the second one is recorded as succeeded without ever having been launched. */
  lemma ClashReportsSuccess(c: Config, first: Offer, second: Offer, publicKey: string)
    requires Genuine(c, first, publicKey, first.key) && Genuine(c, second, publicKey, second.key)
    requires c.actionOf(first.key) != Authenticate && first.key != second.key
    requires IdempotencyKey(c, first.key) == IdempotencyKey(c, second.key)
    ensures Legal(c, Fresh(c), LaunchSteps(first, publicKey))
    ensures var n := Run(c, Fresh(c), LaunchSteps(first, publicKey));
            && Legal(c, n, RepeatSteps(second))
            && var r := Run(c, n, RepeatSteps(second));
               && Launches(r, second.key) == 0 && second.key in r.rows
               && r.rows[second.key].status == "succeeded" && r.rows[second.key].terminalAt.Some?
  {
    hide Legal, Run, Launches, IdempotencyKey;
    FirstLaunched(c, first, publicKey);
    SecondRepeats(c, Run(c, Fresh(c), LaunchSteps(first, publicKey)), second);
  }

  /** On every run of tasks whose ids hold no colon, the check of a key that was never launched is passed. */
  lemma FirstCheckLaunches(c: Config, steps: seq<Step>, id: nat)
    requires Legal(c, Fresh(c), steps) && Enabled(Run(c, Fresh(c), steps), Check(id))
    requires var n := Run(c, Fresh(c), steps);
             && Launches(n, n.executors[id].key) == 0 && ':' !in n.executors[id].key.taskId
             && forall k :: k in n.launches ==> ':' !in k.taskId
    ensures var n := Run(c, Fresh(c), steps);
            var r := Apply(c, n, Check(id));
            && r.executors[id] == Executor(n.executors[id].key, Launched)
            && Launches(r, n.executors[id].key) == 1
  {
    RunKeepsNames(c, Fresh(c), steps);
    var n := Run(c, Fresh(c), steps);
    var k := n.executors[id].key;
    if IdempotencyKey(c, k) in n.executed {
      var other :| other in n.launches && n.launches[other] > 0 && IdempotencyKey(c, k) == IdempotencyKey(c, other);
      NamesApart(c, k, other);
    }
    hide IdempotencyKey;
  }
}
