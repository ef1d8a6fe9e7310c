/** Overlapping flushes that transmit one envelope as often as possible. */
module DeliveryOverlaps {
  import opened DeliveryOutbox
  import opened DeliveryWorker
  import opened DeliveryProtocol
  import opened DeliveryRetries

  /** A legal run to `r` that never has more than `k` flushes open. */
  ghost predicate Leads(c: Config, w: World, steps: seq<Step>, k: nat, r: World) {
    Legal(c, w, steps) && AtMostOpen(c, w, steps, k) && Run(c, w, steps) == r
  }

  lemma NoSteps(c: Config, w: World, k: nat)
    ensures Leads(c, w, [], k, w)
  {
  }

  lemma LeadsStep(c: Config, w: World, step: Step, k: nat, r: World)
    requires Enabled(c, w, step) && (step.StartFlush? ==> |w.flushes| < k) && Apply(c, w, step) == r
    ensures Leads(c, w, [step], k, r)
  {
    hide Enabled, Apply;
    assert [step][0] == step && [step][1..] == [];
    assert Legal(c, r, []) && AtMostOpen(c, r, [], k) && Run(c, r, []) == r;
  }

  lemma {:induction false} LeadsOn(c: Config, w: World, a: seq<Step>, mid: World, b: seq<Step>, k: nat, r: World)
    requires Leads(c, w, a, k, mid) && Leads(c, mid, b, k, r)
    ensures Leads(c, w, a + b, k, r)
    decreases |a|
  {
    hide Enabled, Apply;
    if a == [] {
      assert a + b == b;
    } else {
      assert (a + b)[0] == a[0] && (a + b)[1..] == a[1..] + b;
      LeadsOn(c, Apply(c, w, a[0]), a[1..], mid, b, k, r);
    }
  }

  lemma {:induction false} MoreOpen(c: Config, w: World, steps: seq<Step>, j: nat, k: nat)
    requires j <= k && Legal(c, w, steps) && AtMostOpen(c, w, steps, j)
    ensures AtMostOpen(c, w, steps, k)
    decreases |steps|
  {
    if steps != [] {
      hide Enabled, Apply;
      MoreOpen(c, Apply(c, w, steps[0]), steps[1..], j, k);
    }
  }

  // ---------------------------------------------------------------- many flushes with the same copy

  /** The outbox holds one row, which waits, and no flush is running. */
  ghost predicate Rests(w: World, e: Envelope, attempts: nat, sent: nat) {
    && w.flushes == map[] && w.rows.Keys == {e.id} && w.rows[e.id].envelope == Stored(e)
    && Waiting(w.rows[e.id]) && w.rows[e.id].attempts == attempts && SentTimes(w, e.id) == sent
  }

  lemma OnlyRowIsBatch(t: Table, row: Row, limit: nat)
    requires t == map[row.envelope.id := row] && Waiting(row) && limit >= 1
    ensures IsBatch(t, [row], limit)
  {
    assert WaitingIds(t) == {row.envelope.id};
    assert IdsOf([row]) == {row.envelope.id} by { assert [row][0] == row; }
  }

  /** The flushes 0 to j - 1, each with one copy still to be sent. */
  function Idles(row: Row, j: nat): (flushes: map<nat, Flush>)
    ensures |flushes| == j && forall f :: f in flushes <==> 0 <= f < j
    ensures forall f :: 0 <= f < j ==> flushes[f] == Flush([row], Idle)
  {
    if j == 0 then map[]
    else
      var fewer := Idles(row, j - 1);
      var flushes := fewer[j - 1 := Flush([row], Idle)];
      assert flushes.Keys == fewer.Keys + {j - 1};
      flushes
  }

  lemma {:induction false} StartMany(c: Config, w: World, row: Row, j: nat, k: nat) returns (steps: seq<Step>)
    requires w.flushes == map[] && IsBatch(w.rows, [row], c.batchSize) && j <= k
    ensures Leads(c, w, steps, k, w.(flushes := Idles(row, j)))
    decreases j
  {
    hide IsBatch, Leads;
    if j == 0 {
      steps := [];
      assert w.(flushes := Idles(row, 0)) == w;
      NoSteps(c, w, k);
    } else {
      var before := StartMany(c, w, row, j - 1, k);
      var mid, r := w.(flushes := Idles(row, j - 1)), w.(flushes := Idles(row, j));
      LeadsStep(c, mid, StartFlush(j - 1, [row]), k, r);
      LeadsOn(c, w, before, mid, [StartFlush(j - 1, [row])], k, r);
      steps := before + [StartFlush(j - 1, [row])];
    }
  }

  /** Of the flushes 0 to j - 1, the first i have sent their copy. */
  ghost predicate SomeSent(w: World, r: World, row: Row, j: nat, i: nat) {
    var id := row.envelope.id;
    && i <= j && (forall f :: f in r.flushes <==> 0 <= f < j)
    && (forall f :: 0 <= f < i ==> r.flushes[f] == Flush([], Transmitting(row)))
    && (forall f :: i <= f < j ==> r.flushes[f] == Flush([row], Idle))
    && id in w.rows
    && r.rows == (if i == 0 then w.rows else w.rows[id := w.rows[id].(status := Sent, attempts := w.rows[id].attempts + i)])
    && SentTimes(r, id) == SentTimes(w, id) + i
  }

  lemma SendNext(w: World, mid: World, row: Row, j: nat, i: nat)
    requires SomeSent(w, mid, row, j, i) && i < j
    ensures NextIs(mid.flushes[i]) && mid.flushes[i].queue[0] == row && SomeSent(w, Sending(mid, i), row, j, i + 1)
  {
    assert [row][1..] == [];
  }

  lemma {:induction false} SendMany(c: Config, w: World, row: Row, j: nat, i: nat, k: nat) returns (steps: seq<Step>, r: World)
    requires w.flushes == Idles(row, j) && row.envelope.id in w.rows && i <= j && !Exhausted(row, c.maxAttempts)
    ensures Leads(c, w, steps, k, r) && SomeSent(w, r, row, j, i)
    decreases i
  {
    hide Leads;
    if i == 0 {
      steps, r := [], w;
      NoSteps(c, w, k);
    } else {
      var before, mid := SendMany(c, w, row, j, i - 1, k);
      SendNext(w, mid, row, j, i - 1);
      r := Sending(mid, i - 1);
      assert Enabled(c, mid, Send(i - 1));
      LeadsStep(c, mid, Send(i - 1), k, r);
      hide SomeSent;
      LeadsOn(c, w, before, mid, [Send(i - 1)], k, r);
      steps := before + [Send(i - 1)];
    }
  }

  /** `j` flushes select the row, and all of them transmit it. */
  lemma AllTransmit(c: Config, w: World, e: Envelope, attempts: nat, sent: nat, j: nat, k: nat)
    returns (steps: seq<Step>, r: World)
    requires Rests(w, e, attempts, sent) && attempts < c.maxAttempts && j <= k && c.batchSize >= 1
    ensures Leads(c, w, steps, k, r) && SomeSent(w, r, w.rows[e.id], j, j)
  {
    var row := w.rows[e.id];
    assert w.rows == map[e.id := row];
    OnlyRowIsBatch(w.rows, row, c.batchSize);
    hide IsBatch, Leads;
    var mid := w.(flushes := Idles(row, j));
    var starts := StartMany(c, w, row, j, k);
    var sends;
    sends, r := SendMany(c, mid, row, j, j, k);
    LeadsOn(c, w, starts, mid, sends, k, r);
    steps := starts + sends;
  }

  /** One request is lost, its flush books the failure, and the process crashes. */
  lemma FailAndCrash(c: Config, w: World, r: World, e: Envelope, attempts: nat, sent: nat, j: nat, k: nat)
    returns (steps: seq<Step>, last: World)
    requires Rests(w, e, attempts, sent) && j >= 1 && SomeSent(w, r, w.rows[e.id], j, j)
    ensures Leads(c, r, steps, k, last) && Rests(last, e, attempts + j + 1, sent + j)
  {
    var row := w.rows[e.id];
    var r1 := r.(flushes := r.flushes[0 := Flush([], Settled(row, false))]);
    var r2 := Settling(r1, 0);
    last := r2.(flushes := map[], drawn := {});
    assert Rests(last, e, attempts + j + 1, sent + j);
    assert r.flushes[0] == Flush([], Transmitting(row)) && r1.flushes[0] == Flush([], Settled(row, false));
    hide Rests, SomeSent, Leads, Settling;
    LeadsStep(c, r, LoseRequest(0), k, r1);
    LeadsStep(c, r1, Settle(0), k, r2);
    LeadsStep(c, r2, Crash, k, last);
    LeadsOn(c, r, [LoseRequest(0)], r1, [Settle(0)], k, r2);
    LeadsOn(c, r, [LoseRequest(0)] + [Settle(0)], r2, [Crash], k, last);
    steps := [LoseRequest(0)] + [Settle(0)] + [Crash];
  }

  /** A round: `j` transmissions for `j + 1` attempts. */
  lemma Round(c: Config, w: World, e: Envelope, attempts: nat, sent: nat, j: nat, k: nat)
    returns (steps: seq<Step>, last: World)
    requires Rests(w, e, attempts, sent) && attempts < c.maxAttempts && 1 <= j <= k && c.batchSize >= 1
    ensures Leads(c, w, steps, k, last) && Rests(last, e, attempts + j + 1, sent + j)
  {
    hide Leads, SomeSent;
    var first, r := AllTransmit(c, w, e, attempts, sent, j, k);
    var second;
    second, last := FailAndCrash(c, w, r, e, attempts, sent, j, k);
    LeadsOn(c, w, first, r, second, k, last);
    steps := first + second;
  }

  lemma {:induction false} Rounds(c: Config, w: World, e: Envelope, q: nat, k: nat) returns (steps: seq<Step>, last: World)
    requires Rests(w, e, 0, 0) && (k + 1) * q < c.maxAttempts && k >= 1 && c.batchSize >= 1
    ensures Leads(c, w, steps, k, last) && Rests(last, e, (k + 1) * q, k * q)
    decreases q
  {
    hide Leads, Rests;
    if q == 0 {
      steps, last := [], w;
      assert (k + 1) * 0 == 0 && k * 0 == 0;
      NoSteps(c, w, k);
    } else {
      assert (k + 1) * q == (k + 1) * (q - 1) + (k + 1) && k * q == k * (q - 1) + k;
      var before, mid := Rounds(c, w, e, q - 1, k);
      var more;
      more, last := Round(c, mid, e, (k + 1) * (q - 1), k * (q - 1), k, k);
      LeadsOn(c, w, before, mid, more, k, last);
      steps := before + more;
    }
  }

  /** The steps of a publisher that appends the first row. */
  function Appending(e: Envelope): Step {
    AppendEnvelope(e, map[e.id := NewRow(e)], Appended(NewRow(e)))
  }

  lemma FirstAppend(c: Config, w: World, e: Envelope)
    requires w == Apply(c, Start, Draw) && c.maxEntries >= 1 && e.sequence == 1
    ensures Enabled(c, w, Appending(e)) && Rests(Apply(c, w, Appending(e)), e, 0, 0)
  {
    var t: Table := map[e.id := NewRow(e)];
    assert Start.rows[e.id := NewRow(e)] == t && |t| == 1;
    assert Enabled(c, w, Appending(e));
  }

  lemma FirstRow(c: Config, e: Envelope, k: nat) returns (steps: seq<Step>, w: World)
    requires c.maxEntries >= 1 && e.sequence == 1
    ensures Leads(c, Start, steps, k, w) && Rests(w, e, 0, 0)
  {
    assert Enabled(c, Start, Draw);
    hide Leads, Enabled, Apply, Rests;
    var w1 := Apply(c, Start, Draw);
    FirstAppend(c, w1, e);
    w := Apply(c, w1, Appending(e));
    LeadsStep(c, Start, Draw, k, w1);
    LeadsStep(c, w1, Appending(e), k, w);
    LeadsOn(c, Start, [Draw], w1, [Appending(e)], k, w);
    steps := [Draw] + [Appending(e)];
  }

  // ---------------------------------------------------------------- the largest number is reached

  /** Full rounds, and what is left of the attempts. */
  lemma MostSentParts(n: nat, k: nat) returns (q: nat, rest: nat)
    requires k >= 1
    ensures (k + 1) * q + rest == n && rest <= k
    ensures MostSent(n + 1, k) == k * q + (if rest == 0 then 0 else rest - 1) + k
  {
    var d := k + 1;
    q, rest := n / d, n % d;
    assert n == d * q + rest;
    Products(k, q, rest);
    if rest == 0 {
      QuotientIs(k * n, d, k * q, 0);
    } else {
      QuotientIs(k * n, d, k * q + rest - 1, d - rest);
    }
  }

  lemma Products(k: nat, q: nat, rest: nat)
    ensures k * ((k + 1) * q + rest) == (k + 1) * (k * q) + k * rest
    ensures k * rest == (k + 1) * rest - rest
    ensures (k + 1) * (k * q + rest - 1) == (k + 1) * (k * q) + (k + 1) * rest - (k + 1)
  {
    var x := k * q;
    assert (k + 1) * q == x + q;
    assert k * ((x + q) + rest) == k * x + k * q + k * rest;
    assert (k + 1) * x == k * x + x;
  }

  lemma QuotientIs(total: nat, d: nat, q: nat, rest: nat)
    requires d > 0 && total == d * q + rest && rest < d
    ensures total / d == q
  {
    var p := total / d;
    assert total == d * p + total % d;
    assert d * (p + 1) == d * p + d && d * (q + 1) == d * q + d;
    if p < q { Monotone(d, p + 1, q); }
    if q < p { Monotone(d, q + 1, p); }
  }

  /** All full rounds, and one more round with what is left of the attempts. */
  lemma AllRounds(c: Config, e: Envelope, q: nat, rest: nat, k: nat) returns (steps: seq<Step>, last: World, attempts: nat)
    requires c.maxEntries >= 1 && c.batchSize >= 1 && k >= 1 && e.sequence == 1
    requires (k + 1) * q + rest < c.maxAttempts && rest <= k
    ensures Leads(c, Start, steps, k, last) && attempts < c.maxAttempts
    ensures Rests(last, e, attempts, k * q + if rest == 0 then 0 else rest - 1)
  {
    hide Leads, Rests;
    var first, w1 := FirstRow(c, e, k);
    var rounds, w2 := Rounds(c, w1, e, q, k);
    LeadsOn(c, Start, first, w1, rounds, k, w2);
    steps, last, attempts := first + rounds, w2, (k + 1) * q;
    if rest >= 2 {
      var more;
      more, last := Round(c, w2, e, attempts, k * q, rest - 1, k);
      LeadsOn(c, Start, steps, w2, more, k, last);
      steps, attempts := steps + more, attempts + rest;
    }
  }

  lemma MostIsReached(c: Config, e: Envelope, k: nat) returns (steps: seq<Step>)
    requires c.maxEntries >= 1 && c.batchSize >= 1 && c.maxAttempts >= 1 && k >= 1 && e.sequence == 1
    ensures Legal(c, Start, steps) && AtMostOpen(c, Start, steps, k)
    ensures SentTimes(Run(c, Start, steps), e.id) == MostSent(c.maxAttempts, k)
  {
    hide *;
    var q, rest := MostSentParts(c.maxAttempts - 1, k);
    var rounds, last, attempts := AllRounds(c, e, q, rest, k);
    steps := LastRound(c, rounds, last, e, attempts, k * q + if rest == 0 then 0 else rest - 1, k);
  }

  lemma LastRound(c: Config, before: seq<Step>, w: World, e: Envelope, attempts: nat, sent: nat, k: nat)
    returns (steps: seq<Step>)
    requires Leads(c, Start, before, k, w) && Rests(w, e, attempts, sent) && attempts < c.maxAttempts && c.batchSize >= 1
    ensures Legal(c, Start, steps) && AtMostOpen(c, Start, steps, k)
    ensures SentTimes(Run(c, Start, steps), e.id) == sent + k
  {
    var sends, r := AllTransmit(c, w, e, attempts, sent, k, k);
    assert SentTimes(r, e.id) == sent + k;
    hide *;
    LeadsOn(c, Start, before, w, sends, k, r);
    steps := before + sends;
    LeadsTo(c, Start, steps, k, r);
  }

  lemma LeadsTo(c: Config, w: World, steps: seq<Step>, k: nat, r: World)
    requires Leads(c, w, steps, k, r)
    ensures Legal(c, w, steps) && AtMostOpen(c, w, steps, k) && Run(c, w, steps) == r
  {
  }

  /** With at most `k` flushes at a time, `MostSent` is exactly the largest number of transmissions on any run. */
  lemma MostTransmissions(c: Config, k: nat)
    requires c.maxEntries >= 1 && c.batchSize >= 1 && c.maxAttempts >= 1 && k >= 1
    ensures forall steps, id :: Legal(c, Start, steps) && AtMostOpen(c, Start, steps, k)
              ==> SentTimes(Run(c, Start, steps), id) <= MostSent(c.maxAttempts, k)
    ensures exists steps, id :: Legal(c, Start, steps) && AtMostOpen(c, Start, steps, k)
              && SentTimes(Run(c, Start, steps), id) == MostSent(c.maxAttempts, k)
  {
    forall steps, id | Legal(c, Start, steps) && AtMostOpen(c, Start, steps, k)
      ensures SentTimes(Run(c, Start, steps), id) <= MostSent(c.maxAttempts, k)
    {
      SentAtMost(c, steps, k, id);
    }
    var e := Envelope("", "", 1, "", "", "", 1, "");
    var steps := MostIsReached(c, e, k);
    assert SentTimes(Run(c, Start, steps), e.id) == MostSent(c.maxAttempts, k);
  }

  /**
   * Every envelope of every run is transmitted at most half the allowed attempts, rounded up,
   * exactly when no more than one flush may run at a time.
   */
  lemma RetryBound(c: Config, k: nat)
    requires c.maxEntries >= 1 && c.batchSize >= 1 && c.maxAttempts >= 1 && k >= 1
    ensures (forall steps, id :: Legal(c, Start, steps) && AtMostOpen(c, Start, steps, k)
                 ==> SentTimes(Run(c, Start, steps), id) <= (c.maxAttempts + 1) / 2)
       <==> k == 1
  {
    if k == 1 {
      forall steps, id | Legal(c, Start, steps) && AtMostOpen(c, Start, steps, k)
        ensures SentTimes(Run(c, Start, steps), id) <= (c.maxAttempts + 1) / 2
      {
        LoneRetryBound(c, steps, id);
      }
    } else {
      var e := Envelope("", "", 1, "", "", "", 1, "");
      var steps := OverlapExceedsBound(c, e);
      MoreOpen(c, Start, steps, 2, k);
    }
  }

  /** Whatever the number of allowed attempts, two flushes at a time exceed the bound of one. */
  lemma OverlapExceedsBound(c: Config, e: Envelope) returns (steps: seq<Step>)
    requires c.maxEntries >= 1 && c.batchSize >= 1 && c.maxAttempts >= 1 && e.sequence == 1
    ensures Legal(c, Start, steps) && AtMostOpen(c, Start, steps, 2)
    ensures SentTimes(Run(c, Start, steps), e.id) >= (c.maxAttempts + 1) / 2 + 1
  {
    steps := MostIsReached(c, e, 2);
  }
}
