/** What each field of a request, a harness or a subscription does to a route, and what is selected because of it. */
module RouteLaws {
  import opened Options
  import opened RouteSelection
  import opened RouteCandidates

  /** The score before it is rounded. */
  function RawScore(req: Request, h: Harness, profile: Option<Profile>, env: Env): real {
    CandidateOf(req, h, profile, env.(rounded := (x: real) => x)).score
  }

  predicate Eligible(req: Request, h: Harness, profile: Option<Profile>, env: Env) {
    CandidateOf(req, h, profile, env).eligible
  }

  // ---------------------------------------------------------------- the score

  /** Without a preference, a quota service or a subscription, a mature and conformant harness scores 70, and only rounding follows. */
  lemma BaseScore(req: Request, h: Harness, profile: Option<Profile>, env: Env)
    ensures CandidateOf(req, h, profile, env).score == env.rounded(RawScore(req, h, profile, env))
    ensures req.preferred.None? && env.quota.None? && h.maturity == "supported" && h.conformant ==>
              RawScore(req, h, None, env) == 70.0
  {
    assert |"supported"| == 9 && |"experimental"| == 12 && |"discovery_only"| == 14;
  }

  /** Being named as preferred is worth exactly 25, to that harness only. */
  lemma PreferenceCounts(req: Request, preferred: Option<string>, h: Harness, profile: Option<Profile>, env: Env)
    ensures RawScore(req.(preferred := preferred), h, profile, env)
         == RawScore(req.(preferred := None), h, profile, env) + if preferred == Some(h.id) then 25.0 else 0.0
  {
  }

  /** An experimental or discovery-only maturity costs exactly 10 against any other, missing conformance 5. */
  lemma MaturityCounts(req: Request, h: Harness, maturity: string, profile: Option<Profile>, env: Env)
    requires h.maturity != "experimental" && h.maturity != "discovery_only"
    ensures RawScore(req, h.(maturity := maturity), profile, env) == RawScore(req, h, profile, env)
              - if maturity == "experimental" || maturity == "discovery_only" then 10.0 else 0.0
    ensures RawScore(req, h.(conformant := true), profile, env) == RawScore(req, h.(conformant := false), profile, env) + 5.0
  {
  }

  /** The quota service's answer is added; it is told whether the request allows this harness only. */
  lemma QuotaServiceCounts(req: Request, h: Harness, profile: Option<Profile>, env: Env, service: (string, bool) -> Adjustment)
    ensures RawScore(req, h, profile, env.(quota := Some(service)))
         == RawScore(req, h, profile, env.(quota := None)) + service(h.id, req.allowed == {h.id}).delta
  {
    OnlyOne(req.allowed, h.id);
  }

  lemma OnlyOne(ids: set<string>, id: string)
    ensures |ids| == 1 && id in ids <==> ids == {id}
  {
    if |ids| == 1 && id in ids {
      assert |ids - {id}| == 0;
      assert ids == {id};
    }
  }

  /** No subscription costs 30, an unknown quota 15, and each unit of cost weight 1. */
  lemma SubscriptionCounts(req: Request, h: Harness, p: Profile, weight: real, env: Env)
    ensures RawScore(req, h, Some(p.(costWeight := weight)), env)
         == RawScore(req, h, Some(p.(costWeight := 0.0)), env) - weight
    ensures RawScore(req, h, Some(p.(costWeight := 0.0, quotaKnown := false)), env) == RawScore(req, h, None, env) + 15.0
    ensures RawScore(req, h, Some(p.(costWeight := 0.0, quotaKnown := true, monthlyLimit := None)), env)
         == RawScore(req, h, None, env) + 30.0
  {
  }

  /** A known quota is worth ten times the fraction that is left, never less than nothing; all other fields are worth nothing. */
  lemma RemainingCounts(req: Request, h: Harness, p: Profile, limit: real, env: Env)
    requires p.quotaKnown && p.monthlyLimit == Some(limit)
    ensures var unlimited := RawScore(req, h, Some(p.(monthlyLimit := None)), env);
            RawScore(req, h, Some(p), env) ==
              if limit > 0.0 && p.usedAmount < limit then unlimited + (limit - p.usedAmount) / limit * 10.0
              else if limit < 0.0 && p.usedAmount > limit then unlimited + (limit - p.usedAmount) / limit * 10.0
              else unlimited
  {
    if limit != 0.0 { FractionSign(limit - p.usedAmount, limit); }
  }

  lemma FractionSign(a: real, b: real)
    requires b != 0.0
    ensures a / b > 0.0 <==> (a > 0.0 && b > 0.0) || (a < 0.0 && b < 0.0)
  {
    var q := a / b;
    assert q * b == a;
  }

  /** Fields that do not bear on the score. */
  lemma NothingElseCounts(req: Request, h: Harness, p: Profile, env: Env, other: Request, g: Harness, q: Profile)
    requires other.preferred == req.preferred && (env.quota.Some? ==> other.allowed == req.allowed)
    requires g.id == h.id && g.maturity == h.maturity && g.conformant == h.conformant
    requires q.costWeight == p.costWeight && q.quotaKnown == p.quotaKnown && q.monthlyLimit == p.monthlyLimit
    requires q.usedAmount == p.usedAmount
    ensures RawScore(other, g, Some(q), env) == RawScore(req, h, Some(p), env)
    ensures RawScore(other, g, None, env) == RawScore(req, h, None, env)
  {
  }

  // ---------------------------------------------------------------- eligibility

  /** A request that asks for nothing, and a subscription that nothing speaks against. */
  lemma NothingAgainst(req: Request, h: Harness, p: Profile, env: Env)
    requires req.required == {} && req.allowed == {} && req.denied == {} && env.quota.None? && h.available
    requires p.enabled && p.state == Healthy && !p.requiresPaidApproval && !p.quotaKnown
    requires env.active(h.id, Some(p.id)) < h.maxConcurrency && env.active(h.id, Some(p.id)) < p.maxConcurrency
    ensures Eligible(req, h, Some(p), env)
  {
  }

  /** Every capability that is asked for in addition, and every harness that is denied in addition, excludes exactly its own. */
  lemma RequestExcludes(req: Request, h: Harness, profile: Option<Profile>, env: Env, capability: string, id: string)
    ensures Eligible(req.(required := req.required + {capability}), h, profile, env)
       <==> Eligible(req, h, profile, env) && capability in h.capabilities
    ensures Eligible(req.(denied := req.denied + {id}), h, profile, env) <==> Eligible(req, h, profile, env) && h.id != id
  {
  }

  /** An allowlist excludes what is not on it; an empty one excludes nothing. */
  lemma AllowlistExcludes(req: Request, h: Harness, profile: Option<Profile>, env: Env, allowed: set<string>)
    requires env.quota.None?
    ensures Eligible(req.(allowed := allowed), h, profile, env)
       <==> Eligible(req.(allowed := {}), h, profile, env) && (allowed != {} ==> h.id in allowed)
  {
  }

  /** The quota service excludes what it blocks, given that it knows whether the request allows this harness only. */
  lemma QuotaServiceExcludes(req: Request, h: Harness, profile: Option<Profile>, env: Env, service: (string, bool) -> Adjustment)
    ensures Eligible(req, h, profile, env.(quota := Some(service)))
       <==> Eligible(req, h, profile, env.(quota := None)) && !service(h.id, req.allowed == {h.id}).hardBlock
  {
    OnlyOne(req.allowed, h.id);
  }

  /** An unavailable harness and a missing subscription exclude, and so does each running count at its limit. */
  lemma HarnessExcludes(req: Request, h: Harness, p: Profile, env: Env)
    ensures Eligible(req, h, Some(p), env) <==> h.available && Eligible(req, h.(available := true), Some(p), env)
    ensures !Eligible(req, h, None, env)
    ensures Eligible(req, h, Some(p), env)
       <==> && env.active(h.id, Some(p.id)) < h.maxConcurrency && env.active(h.id, Some(p.id)) < p.maxConcurrency
            && Eligible(req, h.(maxConcurrency := env.active(h.id, Some(p.id)) + 1),
                        Some(p.(maxConcurrency := env.active(h.id, Some(p.id)) + 1)), env)
  {
  }

  /** A subscription must be enabled, neither rate limited nor exhausted, and approved if it is paid. */
  lemma SubscriptionExcludes(req: Request, h: Harness, p: Profile, env: Env)
    ensures Eligible(req, h, Some(p), env)
       <==> p.enabled && p.state in {Healthy, Disabled} && (p.requiresPaidApproval ==> req.paidApproved)
            && Eligible(req, h, Some(p.(enabled := true, state := Healthy, requiresPaidApproval := false)), env)
  {
  }

  /** What is left of a known quota must exceed the reserve; an unknown or unlimited quota excludes nothing. */
  lemma ReserveExcludes(req: Request, h: Harness, p: Profile, env: Env)
    ensures Eligible(req, h, Some(p), env)
       <==> Eligible(req, h, Some(p.(quotaKnown := false)), env)
            && (p.quotaKnown && p.monthlyLimit.Some? ==>
                  p.quotaReserve < 0.0 || p.monthlyLimit.value - p.usedAmount > p.quotaReserve)
  {
  }

  // ---------------------------------------------------------------- which routes there are

  /** A harness is tried with each subscription of its own, or without one if it has none. */
  lemma {:induction false} PairsExactly(harnesses: seq<Harness>, profiles: seq<Profile>, pair: Pair)
    ensures pair in Pairs(harnesses, profiles)
       <==> && pair.harness in harnesses
            && match pair.profile
               case Some(p) => p in profiles && p.harnessId == pair.harness.id
               case None => forall p :: p in profiles ==> p.harnessId != pair.harness.id
  {
    if harnesses != [] {
      PairsExactly(harnesses[1..], profiles, pair);
      PairsOfExactly(harnesses[0], profiles, pair);
      assert pair.harness in harnesses <==> pair.harness == harnesses[0] || pair.harness in harnesses[1..];
    }
  }

  lemma PairsOfExactly(h: Harness, profiles: seq<Profile>, pair: Pair)
    ensures pair in PairsOf(h, ProfilesOf(profiles, h.id))
       <==> && pair.harness == h
            && match pair.profile
               case Some(p) => p in profiles && p.harnessId == h.id
               case None => forall p :: p in profiles ==> p.harnessId != h.id
  {
    var own := ProfilesOf(profiles, h.id);
    hide ProfilesOf;
    assert own == [] <==> forall p :: p in profiles ==> p.harnessId != h.id by {
      if own != [] { assert own[0] in own; }
    }
    if pair.profile.Some? && pair.profile.value in own {
      var i :| 0 <= i < |own| && own[i] == pair.profile.value;
      assert PairsOf(h, own)[i] == Pair(h, pair.profile);
    }
  }

  // ---------------------------------------------------------------- what is selected

  /** A usable route that scores higher than all others is selected. */
  lemma HighestIsSelected(req: Request, env: Env, pairs: seq<Pair>, best: Pair)
    requires best in pairs && Eligible(req, best.harness, best.profile, env)
    requires forall other :: other in pairs && other != best && Eligible(req, other.harness, other.profile, env) ==>
               CandidateOf(req, other.harness, other.profile, env).score < CandidateOf(req, best.harness, best.profile, env).score
    ensures Selected(Sort(Candidates(req, env, pairs))) == Some(CandidateOf(req, best.harness, best.profile, env))
  {
    SelectedIsUsable(req, env, pairs);
    hide Usable, HarnessScore, ProfileScore, Selected, Sort;
    assert Usable(req, best.harness, best.profile, env);
  }

  /** Two routes alike in everything but the names of harness and subscription. */
  predicate Alike(req: Request, env: Env, a: Harness, p: Profile, b: Harness, q: Profile) {
    && b == a.(id := b.id) && q == p.(id := q.id, harnessId := q.harnessId)
    && (a.id in req.denied <==> b.id in req.denied) && (req.allowed != {} ==> (a.id in req.allowed <==> b.id in req.allowed))
    && env.active(a.id, Some(p.id)) == env.active(b.id, Some(q.id)) && Asked(req, a, env) == Asked(req, b, env)
  }

  /** Of two routes alike in everything else, the preferred one scores 25 more, and is eligible when the other is. */
  lemma PreferredAhead(req: Request, env: Env, a: Harness, p: Profile, b: Harness, q: Profile)
    requires Alike(req, env, a, p, b, q) && a.id != b.id && req.preferred == Some(a.id)
    ensures RawScore(req, a, Some(p), env) == RawScore(req, b, Some(q), env) + 25.0
    ensures Eligible(req, a, Some(p), env) <==> Eligible(req, b, Some(q), env)
  {
  }

  /**
   * With rounding that tells such scores apart, the preview of two harnesses with a subscription
   * each, alike in everything else, selects the preferred one whenever one of them is eligible.
   */
  lemma PreferredIsSelected(req: Request, env: Env, a: Harness, p: Profile, b: Harness, q: Profile)
    requires Alike(req, env, a, p, b, q) && a.id != b.id && req.preferred == Some(a.id)
    requires p.harnessId == a.id && q.harnessId == b.id && Eligible(req, b, Some(q), env)
    requires forall x: real :: env.rounded(x) < env.rounded(x + 25.0)
    ensures Selected(Sort(Candidates(req, env, Pairs([a, b], [p, q])))) == Some(CandidateOf(req, a, Some(p), env))
    ensures Selected(Sort(Candidates(req, env, Pairs([b, a], [q, p])))) == Some(CandidateOf(req, a, Some(p), env))
  {
    TwoPairs(a, p, b, q);
    PreferredAhead(req, env, a, p, b, q);
    BaseScore(req, a, Some(p), env);
    BaseScore(req, b, Some(q), env);
    hide *;
    var best, other := Pair(a, Some(p)), Pair(b, Some(q));
    assert best in [best, other] && best in [other, best];
    HighestIsSelected(req, env, [best, other], best);
    HighestIsSelected(req, env, [other, best], best);
  }

  lemma TwoPairs(a: Harness, p: Profile, b: Harness, q: Profile)
    requires a.id != b.id && p.harnessId == a.id && q.harnessId == b.id
    ensures Pairs([a, b], [p, q]) == [Pair(a, Some(p)), Pair(b, Some(q))]
    ensures Pairs([b, a], [q, p]) == [Pair(b, Some(q)), Pair(a, Some(p))]
  {
    TwoPairsOrdered(a, p, b, q);
    TwoPairsOrdered(b, q, a, p);
  }

  lemma TwoPairsOrdered(a: Harness, p: Profile, b: Harness, q: Profile)
    requires a.id != b.id && p.harnessId == a.id && q.harnessId == b.id
    ensures Pairs([a, b], [p, q]) == [Pair(a, Some(p)), Pair(b, Some(q))]
  {
    assert [p, q][1..] == [q] && [q][1..] == [] && [a, b][1..] == [b] && [b][1..] == [];
    assert ProfilesOf([q], a.id) == [] && ProfilesOf([p, q], a.id) == [p];
    assert ProfilesOf([q], b.id) == [q] && ProfilesOf([p, q], b.id) == [q];
    assert Pairs([b], [p, q]) == PairsOf(b, [q]);
  }
}
