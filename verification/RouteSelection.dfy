/** Choosing a route: candidates are sorted by a total order and the first eligible one is taken. */
module RouteSelection {
  import opened Options
  import opened PythonText

  /** The score is the rounded one that the router computed. */
  datatype Candidate = Candidate(harnessId: string, subscriptionId: Option<string>, score: real, eligible: bool)

  /** `subscription_id or ""`. */
  function Subscription(c: Candidate): string {
    if c.subscriptionId.Some? then c.subscriptionId.value else ""
  }

  /** Order of the sort key (not eligible, -score, harness id, subscription id or ""). */
  predicate LessEq(a: Candidate, b: Candidate) {
    if a.eligible != b.eligible then a.eligible
    else if a.score != b.score then a.score > b.score
    else if a.harnessId != b.harnessId then StringLessEq(a.harnessId, b.harnessId)
    else StringLessEq(Subscription(a), Subscription(b))
  }

  predicate SameKey(a: Candidate, b: Candidate) {
    a.harnessId == b.harnessId && Subscription(a) == Subscription(b)
  }

  /** Candidates are told apart by their ids. */
  predicate DistinctIds(cs: seq<Candidate>) {
    forall i, j :: 0 <= i < j < |cs| ==> !SameKey(cs[i], cs[j])
  }

  predicate Sorted(cs: seq<Candidate>) {
    forall i, j :: 0 <= i < j < |cs| ==> LessEq(cs[i], cs[j])
  }

  lemma OrderIsTotal(a: Candidate, b: Candidate)
    ensures LessEq(a, b) || LessEq(b, a)
    ensures LessEq(a, b) && LessEq(b, a) ==> SameKey(a, b)
  {
    StringOrderTotal(a.harnessId, b.harnessId);
    StringOrderTotal(Subscription(a), Subscription(b));
  }

  lemma OrderIsTransitive(a: Candidate, b: Candidate, c: Candidate)
    requires LessEq(a, b) && LessEq(b, c)
    ensures LessEq(a, c)
  {
    if a.eligible == b.eligible == c.eligible && a.score == b.score == c.score {
      StringOrderTotal(a.harnessId, b.harnessId);
      StringOrderTotal(b.harnessId, c.harnessId);
      StringOrderTotal(a.harnessId, c.harnessId);
      if StringLessEq(a.harnessId, b.harnessId) && StringLessEq(b.harnessId, c.harnessId) {
        StringOrderTransitive(a.harnessId, b.harnessId, c.harnessId);
      }
      if a.harnessId == b.harnessId == c.harnessId {
        StringOrderTransitive(Subscription(a), Subscription(b), Subscription(c));
      }
    }
  }

  function Insert(c: Candidate, sorted: seq<Candidate>): (r: seq<Candidate>)
    ensures multiset(r) == multiset(sorted) + multiset{c}
  {
    if sorted == [] || LessEq(c, sorted[0]) then [c] + sorted
    else
      assert sorted == [sorted[0]] + sorted[1..];
      [sorted[0]] + Insert(c, sorted[1..])
  }

  /** `candidates.sort(key=...)`. */
  function Sort(cs: seq<Candidate>): (r: seq<Candidate>)
    ensures multiset(r) == multiset(cs)
  {
    if cs == [] then []
    else
      assert cs == [cs[0]] + cs[1..];
      Insert(cs[0], Sort(cs[1..]))
  }

  lemma {:induction false} InsertKeepsSorted(c: Candidate, sorted: seq<Candidate>)
    requires Sorted(sorted)
    ensures Sorted(Insert(c, sorted))
  {
    if sorted != [] && !LessEq(c, sorted[0]) {
      var rest := Insert(c, sorted[1..]);
      InsertKeepsSorted(c, sorted[1..]);
      OrderIsTotal(c, sorted[0]);
      forall k | 0 <= k < |rest|
        ensures LessEq(sorted[0], rest[k])
      {
        assert rest[k] in multiset(rest);
        assert rest[k] == c || rest[k] in sorted[1..];
      }
    } else if sorted != [] {
      forall k | 0 <= k < |sorted|
        ensures LessEq(c, sorted[k])
      {
        if k > 0 { OrderIsTransitive(c, sorted[0], sorted[k]); }
      }
    }
  }

  lemma {:induction false} SortSorts(cs: seq<Candidate>)
    ensures Sorted(Sort(cs))
  {
    if cs != [] {
      SortSorts(cs[1..]);
      InsertKeepsSorted(cs[0], Sort(cs[1..]));
    }
  }

  /** Only one list is sorted and holds exactly these candidates, if their ids are distinct. */
  lemma {:induction false} SortedIsUnique(a: seq<Candidate>, b: seq<Candidate>)
    requires Sorted(a) && Sorted(b) && multiset(a) == multiset(b)
    requires forall x, y :: x in a && y in a && SameKey(x, y) ==> x == y
    ensures a == b
    decreases |a|
  {
    assert |a| == |multiset(a)| == |multiset(b)| == |b|;
    if a != [] {
      SameFirst(a, b);
      TailOf(a);
      TailOf(b);
      hide SameKey, LessEq, Sorted;
      SortedIsUnique(a[1..], b[1..]);
    }
  }

  lemma TailOf(a: seq<Candidate>)
    requires a != []
    ensures a == [a[0]] + a[1..] && multiset(a[1..]) == multiset(a) - multiset{a[0]}
    ensures (Sorted(a) ==> Sorted(a[1..])) && forall x :: x in a[1..] ==> x in a
  {
    assert a == [a[0]] + a[1..];
  }

  lemma SameFirst(a: seq<Candidate>, b: seq<Candidate>)
    requires Sorted(a) && Sorted(b) && multiset(a) == multiset(b) && a != [] && b != []
    requires forall x, y :: x in a && y in a && SameKey(x, y) ==> x == y
    ensures a[0] == b[0]
  {
    assert a[0] in multiset(b) && b[0] in multiset(a);
    assert a[0] in b && b[0] in a;
    FirstIsLeast(a, b[0]);
    FirstIsLeast(b, a[0]);
    OrderIsTotal(a[0], b[0]);
  }

  lemma FirstIsLeast(cs: seq<Candidate>, c: Candidate)
    requires Sorted(cs) && c in cs
    ensures cs[0] == c || LessEq(cs[0], c)
  {
  }

  /** The order in which candidates are enumerated does not matter. */
  lemma EnumerationOrderIrrelevant(a: seq<Candidate>, b: seq<Candidate>)
    requires multiset(a) == multiset(b) && DistinctIds(a)
    ensures Sort(a) == Sort(b) && Selected(Sort(a)) == Selected(Sort(b))
  {
    SortSorts(a);
    SortSorts(b);
    forall x, y | x in Sort(a) && y in Sort(a) && SameKey(x, y)
      ensures x == y
    {
      assert x in multiset(a) && y in multiset(a);
      var i :| 0 <= i < |a| && a[i] == x;
      var j :| 0 <= j < |a| && a[j] == y;
    }
    SortedIsUnique(Sort(a), Sort(b));
  }

  /** The list that is shown: eligible routes first, each part by falling score, equal scores by the ids. */
  lemma ListedInOrder(cs: seq<Candidate>, i: nat, j: nat)
    requires i < j < |Sort(cs)|
    ensures var a, b := Sort(cs)[i], Sort(cs)[j];
            && (b.eligible ==> a.eligible)
            && (a.eligible == b.eligible ==> a.score >= b.score)
            && (a.eligible == b.eligible && a.score == b.score ==> StringLessEq(a.harnessId, b.harnessId))
            && (a.eligible == b.eligible && a.score == b.score && a.harnessId == b.harnessId
                ==> StringLessEq(Subscription(a), Subscription(b)))
  {
    SortSorts(cs);
    StringOrderReflexive(Sort(cs)[i].harnessId);
  }

  /** The first eligible candidate. */
  function Selected(cs: seq<Candidate>): Option<Candidate> {
    if cs == [] then None else if cs[0].eligible then Some(cs[0]) else Selected(cs[1..])
  }

  /** `next((item for item in candidates if item.eligible), None)` over the sorted list. */
  method Preview(candidates: seq<Candidate>) returns (selected: Option<Candidate>, sorted: seq<Candidate>)
    ensures sorted == Sort(candidates)
    ensures selected == Selected(sorted)
  {
    sorted := Sort(candidates);
    selected := None;
    var i := 0;
    assert sorted[0..] == sorted;
    while i < |sorted|
      invariant i <= |sorted| && selected == None
      invariant Selected(sorted[i..]) == Selected(sorted)
    {
      if sorted[i].eligible {
        return Some(sorted[i]), sorted;
      }
      assert sorted[i..][1..] == sorted[i + 1..];
      i := i + 1;
    }
  }

  /** The chosen route: eligible, of highest score, ties broken by ids; none only when none is eligible. */
  lemma SelectedIsBest(cs: seq<Candidate>)
    ensures var chosen := Selected(Sort(cs));
            && (chosen == None <==> forall c :: c in cs ==> !c.eligible)
            && (chosen.Some? ==>
                  && chosen.value in cs && chosen.value.eligible
                  && forall c :: c in cs && c.eligible ==>
                       || c.score < chosen.value.score
                       || (c.score == chosen.value.score && c.harnessId != chosen.value.harnessId
                           && StringLessEq(chosen.value.harnessId, c.harnessId))
                       || (c.score == chosen.value.score && c.harnessId == chosen.value.harnessId
                           && StringLessEq(Subscription(chosen.value), Subscription(c))))
  {
    SortSorts(cs);
    FirstEligible(Sort(cs));
    assert forall c :: c in cs <==> c in multiset(Sort(cs));
    var chosen := Selected(Sort(cs));
    hide Sort, Selected, Sorted;
    if chosen.Some? {
      forall c | c in cs && c.eligible
        ensures c == chosen.value || LessEq(chosen.value, c)
      {
        assert c in Sort(cs);
      }
      StringOrderReflexive(Subscription(chosen.value));
    }
  }

  lemma {:induction false} FirstEligible(cs: seq<Candidate>)
    requires Sorted(cs)
    ensures Selected(cs) == None <==> forall c :: c in cs ==> !c.eligible
    ensures Selected(cs).Some? ==> Selected(cs).value in cs && Selected(cs).value.eligible
    ensures Selected(cs).Some? ==> forall c :: c in cs && c.eligible ==> c == Selected(cs).value || LessEq(Selected(cs).value, c)
  {
    if cs != [] {
      assert forall c :: c in cs <==> c == cs[0] || c in cs[1..];
      if !cs[0].eligible {
        FirstEligible(cs[1..]);
      }
    }
  }
}
