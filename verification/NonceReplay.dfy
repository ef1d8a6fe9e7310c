/** The replay detector: it forgets expired nonces, and the price of forgetting. */
module NonceReplay {

  /** A message whose nonce is consumed at time `now`. */
  datatype Message = Message(nonce: string, expiresAt: int, now: int)

  function Purged(seen: map<string, int>, now: int): map<string, int> {
    map k | k in seen && seen[k] > now :: seen[k]
  }

  /** The store after `consume`, and whether the nonce was accepted. */
  function Consumed(seen: map<string, int>, m: Message): (map<string, int>, bool) {
    var kept := Purged(seen, m.now);
    if m.nonce in kept then (kept, false) else (kept[m.nonce := m.expiresAt], true)
  }

  class NonceStore {
    var seen: map<string, int>

    constructor ()
      ensures seen == map[]
    {
      seen := map[];
    }

    method Consume(m: Message) returns (accepted: bool)
      modifies this
      ensures (seen, accepted) == Consumed(old(seen), m)
    {
      seen := map k | k in seen && seen[k] > m.now :: seen[k];
      if m.nonce in seen {
        return false;
      }
      seen := seen[m.nonce := m.expiresAt];
      accepted := true;
    }
  }

  function Decisions(seen: map<string, int>, ms: seq<Message>): (d: seq<bool>)
    ensures |d| == |ms|
    decreases |ms|
  {
    if ms == [] then []
    else
      var (after, accepted) := Consumed(seen, ms[0]);
      [accepted] + Decisions(after, ms[1..])
  }

  /** A detector that never forgets. */
  function Remembering(used: set<string>, ms: seq<Message>): (d: seq<bool>)
    ensures |d| == |ms|
    decreases |ms|
  {
    if ms == [] then [] else [ms[0].nonce !in used] + Remembering(used + {ms[0].nonce}, ms[1..])
  }

  predicate ClockRuns(ms: seq<Message>, start: int) {
    && (forall i :: 0 <= i < |ms| ==> start <= ms[i].now)
    && forall i, j :: 0 <= i < j < |ms| ==> ms[i].now <= ms[j].now
  }

  /** Every nonce comes with one expiry. */
  predicate OneExpiry(ms: seq<Message>, expiry: string -> int) {
    forall i :: 0 <= i < |ms| ==> ms[i].expiresAt == expiry(ms[i].nonce)
  }

  /** No nonce is consumed again once it has expired. */
  predicate NoLateRepeat(used: set<string>, ms: seq<Message>) {
    && (forall j :: 0 <= j < |ms| && ms[j].nonce in used ==> ms[j].expiresAt > ms[j].now)
    && forall i, j :: 0 <= i < j < |ms| && ms[i].nonce == ms[j].nonce ==> ms[j].expiresAt > ms[j].now
  }

  /** The store holds used nonces only, and all of those that are unexpired at `now`. */
  ghost predicate Tracks(seen: map<string, int>, used: set<string>, expiry: string -> int, now: int) {
    && (forall k :: k in seen ==> k in used && seen[k] == expiry(k))
    && (forall k :: k in used && expiry(k) > now ==> k in seen)
  }

  lemma TracksNext(seen: map<string, int>, used: set<string>, expiry: string -> int, start: int, m: Message)
    requires Tracks(seen, used, expiry, start) && start <= m.now && m.expiresAt == expiry(m.nonce)
    ensures Tracks(Consumed(seen, m).0, used + {m.nonce}, expiry, m.now)
    ensures Consumed(seen, m).1 <==> m.nonce !in used || m.expiresAt <= m.now
  {
  }

  lemma LateRepeatStep(used: set<string>, ms: seq<Message>)
    requires ms != []
    ensures NoLateRepeat(used, ms)
       <==> (ms[0].nonce in used ==> ms[0].expiresAt > ms[0].now) && NoLateRepeat(used + {ms[0].nonce}, ms[1..])
  {
    var rest := ms[1..];
    if NoLateRepeat(used, ms) {
      forall j | 0 <= j < |rest| && rest[j].nonce in used + {ms[0].nonce}
        ensures rest[j].expiresAt > rest[j].now
      {
        assert rest[j] == ms[j + 1];
      }
      forall i, j | 0 <= i < j < |rest| && rest[i].nonce == rest[j].nonce
        ensures rest[j].expiresAt > rest[j].now
      {
        assert rest[i] == ms[i + 1] && rest[j] == ms[j + 1];
      }
    }
    if (ms[0].nonce in used ==> ms[0].expiresAt > ms[0].now) && NoLateRepeat(used + {ms[0].nonce}, rest) {
      forall j | 0 <= j < |ms| && ms[j].nonce in used
        ensures ms[j].expiresAt > ms[j].now
      {
        if j > 0 { assert rest[j - 1] == ms[j]; }
      }
      forall i, j | 0 <= i < j < |ms| && ms[i].nonce == ms[j].nonce
        ensures ms[j].expiresAt > ms[j].now
      {
        assert rest[j - 1] == ms[j];
        if i > 0 { assert rest[i - 1] == ms[i]; }
      }
    }
  }

  /**
   * With a clock that never runs back and one expiry per nonce, the purging store decides every
   * message like one that never forgets exactly when no nonce comes back after its expiry.
   */
  lemma {:induction false} PurgingIsExact(seen: map<string, int>, used: set<string>, ms: seq<Message>, expiry: string -> int, start: int)
    requires Tracks(seen, used, expiry, start) && ClockRuns(ms, start) && OneExpiry(ms, expiry)
    ensures Decisions(seen, ms) == Remembering(used, ms) <==> NoLateRepeat(used, ms)
    decreases |ms|
  {
    if ms != [] {
      var m, rest := ms[0], ms[1..];
      TracksNext(seen, used, expiry, start, m);
      LateRepeatStep(used, ms);
      PurgingIsExact(Consumed(seen, m).0, used + {m.nonce}, rest, expiry, m.now);
      var a, b := Decisions(seen, ms), Remembering(used, ms);
      assert a[1..] == Decisions(Consumed(seen, m).0, rest) && b[1..] == Remembering(used + {m.nonce}, rest);
      assert a == b <==> a[0] == b[0] && a[1..] == b[1..] by {
        assert a == [a[0]] + a[1..] && b == [b[0]] + b[1..];
      }
    }
  }

  /** In particular, from an empty store, for messages that are unexpired when they are consumed. */
  lemma UnexpiredDecidedExactly(ms: seq<Message>, expiry: string -> int, start: int)
    requires ClockRuns(ms, start) && OneExpiry(ms, expiry)
    requires forall i :: 0 <= i < |ms| ==> ms[i].expiresAt > ms[i].now
    ensures Decisions(map[], ms) == Remembering({}, ms)
  {
    PurgingIsExact(map[], {}, ms, expiry, start);
  }

  /** A message that expires between its verification and its second consumption is accepted twice. */
  lemma ExpiredRepeatAccepted(nonce: string, t: int)
    ensures Decisions(map[], [Message(nonce, t, t - 1), Message(nonce, t, t)]) == [true, true]
  {
    var first, second := Message(nonce, t, t - 1), Message(nonce, t, t);
    var ms := [first, second];
    assert ms[1..] == [second] && [second][1..] == [];
    assert Consumed(map[], first) == (map[nonce := t], true);
    assert Consumed(map[nonce := t], second).1;
  }
}
