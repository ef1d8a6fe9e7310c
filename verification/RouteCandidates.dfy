/** Building the candidates: eligibility, score and reasons, checked one after the other. */
module RouteCandidates {
  import opened Options
  import opened RouteSelection

  datatype SubscriptionState = Healthy | RateLimited | Exhausted | Disabled

  datatype Profile = Profile(
    id: string, harnessId: string, enabled: bool, state: SubscriptionState, requiresPaidApproval: bool,
    quotaKnown: bool, monthlyLimit: Option<real>, usedAmount: real, quotaReserve: real, costWeight: real,
    maxConcurrency: int)

  datatype Harness = Harness(
    id: string, available: bool, capabilities: set<string>, maxConcurrency: int, maturity: string, conformant: bool)

  datatype Request = Request(
    required: set<string>, preferred: Option<string>, allowed: set<string>, denied: set<string>, paidApproved: bool)

  datatype Adjustment = Adjustment(hardBlock: bool, delta: real)

  /** What the router asks others: running counts, the quota service if there is one, and rounding to four digits. */
  datatype Env = Env(
    active: (string, Option<string>) -> int, quota: Option<(string, bool) -> Adjustment>, rounded: real -> real)

  datatype Reason =
    | MaturityNamed | ConformancePassed | ConformanceMissing | HarnessUnavailable | CapabilitiesMissing
    | CapabilitiesSatisfied | UserPreferred | NotOnAllowlist | OnDenylist | QuotaSays(hardBlock: bool)
    | SubscriptionDisabled | SubscriptionRateLimited | SubscriptionExhausted | PaidNeedsApproval | PaidApproved
    | ReserveReached | QuotaRemaining | QuotaUnknown | CostNamed | NoFundingProfile | ConcurrencyReached
    | ConcurrencyAvailable

  /** Reasons that exclude a candidate. */
  predicate Blocking(r: Reason) {
    match r
    case QuotaSays(hardBlock) => hardBlock
    case _ =>
      r in {HarnessUnavailable, CapabilitiesMissing, NotOnAllowlist, OnDenylist, SubscriptionDisabled,
            SubscriptionRateLimited, SubscriptionExhausted, PaidNeedsApproval, ReserveReached, NoFundingProfile,
            ConcurrencyReached}
  }

  function Max(a: real, b: real): real { if a >= b then a else b }

  function Remaining(p: Profile): real {
    if p.monthlyLimit.None? || p.monthlyLimit.value == 0.0 then 0.0
    else Max(0.0, (p.monthlyLimit.value - p.usedAmount) / p.monthlyLimit.value)
  }

  function Asked(req: Request, h: Harness, env: Env): Adjustment {
    if env.quota.None? then Adjustment(false, 0.0)
    else env.quota.value(h.id, |req.allowed| == 1 && h.id in req.allowed)
  }

  // ---------------------------------------------------------------- what the checks amount to

  /** The harness itself meets the request. */
  predicate HarnessFits(req: Request, h: Harness, env: Env) {
    && h.available && req.required <= h.capabilities
    && (req.allowed == {} || h.id in req.allowed) && h.id !in req.denied
    && !Asked(req, h, env).hardBlock
  }

  /** The subscription may pay for another run. A profile in the state Disabled but enabled may. */
  predicate ProfileFits(req: Request, p: Profile) {
    && p.enabled && p.state != RateLimited && p.state != Exhausted
    && (p.requiresPaidApproval ==> req.paidApproved)
    && (p.quotaKnown && p.monthlyLimit.Some? ==> Max(0.0, p.monthlyLimit.value - p.usedAmount) > p.quotaReserve)
  }

  function ConcurrencyLimit(h: Harness, profile: Option<Profile>): int {
    if profile.Some? && profile.value.maxConcurrency < h.maxConcurrency then profile.value.maxConcurrency
    else h.maxConcurrency
  }

  function IdOf(profile: Option<Profile>): Option<string> {
    if profile.Some? then Some(profile.value.id) else None
  }

  /** Every hard requirement of a route. */
  predicate Usable(req: Request, h: Harness, profile: Option<Profile>, env: Env) {
    && HarnessFits(req, h, env) && profile.Some? && ProfileFits(req, profile.value)
    && env.active(h.id, IdOf(profile)) < ConcurrencyLimit(h, profile)
  }

  function HarnessScore(req: Request, h: Harness, env: Env): real {
    100.0
    - (if h.maturity in {"experimental", "discovery_only"} then 10.0 else 0.0)
    - (if h.conformant then 0.0 else 5.0)
    + (if req.preferred == Some(h.id) then 25.0 else 0.0)
    + Asked(req, h, env).delta
  }

  function ProfileScore(profile: Option<Profile>): real {
    match profile
    case None => -30.0
    case Some(p) =>
      (if p.quotaKnown && p.monthlyLimit.Some? then Remaining(p) * 10.0 else if !p.quotaKnown then -15.0 else 0.0)
      - p.costWeight
  }

  function CandidateOf(req: Request, h: Harness, profile: Option<Profile>, env: Env): Candidate {
    Candidate(h.id, IdOf(profile), env.rounded(HarnessScore(req, h, env) + ProfileScore(profile)),
              Usable(req, h, profile, env))
  }

  // ---------------------------------------------------------------- the reasons

  /** When a reason about the harness is given. */
  predicate HarnessGives(req: Request, h: Harness, env: Env, r: Reason) {
    match r
    case MaturityNamed => true
    case ConformancePassed => h.conformant
    case ConformanceMissing => !h.conformant
    case HarnessUnavailable => !h.available
    case CapabilitiesMissing => !(req.required <= h.capabilities)
    case CapabilitiesSatisfied => req.required <= h.capabilities
    case UserPreferred => req.preferred == Some(h.id)
    case NotOnAllowlist => req.allowed != {} && h.id !in req.allowed
    case OnDenylist => h.id in req.denied
    case QuotaSays(hardBlock) => env.quota.Some? && hardBlock == Asked(req, h, env).hardBlock
    case _ => false
  }

  /** When a reason about the subscription is given. */
  predicate ProfileGives(req: Request, p: Profile, r: Reason) {
    match r
    case SubscriptionDisabled => !p.enabled
    case SubscriptionRateLimited => p.state == RateLimited
    case SubscriptionExhausted => p.state == Exhausted
    case PaidNeedsApproval => p.requiresPaidApproval && !req.paidApproved
    case PaidApproved => p.requiresPaidApproval && req.paidApproved
    case ReserveReached =>
      p.quotaKnown && p.monthlyLimit.Some? && Max(0.0, p.monthlyLimit.value - p.usedAmount) <= p.quotaReserve
    case QuotaRemaining =>
      p.quotaKnown && p.monthlyLimit.Some? && Max(0.0, p.monthlyLimit.value - p.usedAmount) > p.quotaReserve
    case QuotaUnknown => !p.quotaKnown
    case CostNamed => true
    case _ => false
  }

  /** When a reason is given at all. */
  predicate Gives(req: Request, h: Harness, profile: Option<Profile>, env: Env, r: Reason) {
    match r
    case NoFundingProfile => profile.None?
    case ConcurrencyReached => env.active(h.id, IdOf(profile)) >= ConcurrencyLimit(h, profile)
    case ConcurrencyAvailable => env.active(h.id, IdOf(profile)) < ConcurrencyLimit(h, profile)
    case _ => HarnessGives(req, h, env, r) || (profile.Some? && ProfileGives(req, profile.value, r))
  }

  lemma NothingMissing(required: set<string>, given: set<string>)
    ensures required - given == {} <==> required <= given
  {
    forall x | x in required && x !in given
      ensures required - given != {}
    {
      assert x in required - given;
    }
  }

  /** Maturity, conformance, availability and capabilities of the harness. */
  method CheckQuality(req: Request, h: Harness) returns (eligible: bool, score: real, reasons: seq<Reason>)
    ensures eligible == (h.available && req.required <= h.capabilities)
    ensures score == 100.0 - (if h.maturity in {"experimental", "discovery_only"} then 10.0 else 0.0)
                           - (if h.conformant then 0.0 else 5.0)
    ensures forall r :: r in reasons <==>
              || r == MaturityNamed || r == (if h.conformant then ConformancePassed else ConformanceMissing)
              || (!h.available && r == HarnessUnavailable)
              || r == (if req.required <= h.capabilities then CapabilitiesSatisfied else CapabilitiesMissing)
  {
    eligible, score, reasons := true, 100.0, [MaturityNamed];
    NothingMissing(req.required, h.capabilities);
    if h.maturity in {"experimental", "discovery_only"} { score := score - 10.0; }
    if h.conformant {
      reasons := reasons + [ConformancePassed];
    } else {
      score := score - 5.0;
      reasons := reasons + [ConformanceMissing];
    }
    if !h.available {
      eligible, reasons := false, reasons + [HarnessUnavailable];
    }
    var missing := req.required - h.capabilities;
    if missing != {} {
      eligible, reasons := false, reasons + [CapabilitiesMissing];
    } else {
      reasons := reasons + [CapabilitiesSatisfied];
    }
  }

  /** What the request says about this harness: preference, allowlist and denylist. */
  method CheckWishes(req: Request, h: Harness) returns (eligible: bool, score: real, reasons: seq<Reason>)
    ensures eligible == ((req.allowed == {} || h.id in req.allowed) && h.id !in req.denied)
    ensures score == if req.preferred == Some(h.id) then 25.0 else 0.0
    ensures forall r :: r in reasons <==>
              || (req.preferred == Some(h.id) && r == UserPreferred)
              || (req.allowed != {} && h.id !in req.allowed && r == NotOnAllowlist)
              || (h.id in req.denied && r == OnDenylist)
  {
    eligible, score, reasons := true, 0.0, [];
    if req.preferred == Some(h.id) {
      score, reasons := 25.0, [UserPreferred];
    }
    if req.allowed != {} && h.id !in req.allowed {
      eligible, reasons := false, reasons + [NotOnAllowlist];
    }
    if h.id in req.denied {
      eligible, reasons := false, reasons + [OnDenylist];
    }
  }

  /** The checks on the harness, in the order in which the router makes them. */
  method CheckHarness(req: Request, h: Harness, env: Env) returns (eligible: bool, score: real, reasons: seq<Reason>)
    ensures eligible == HarnessFits(req, h, env) && score == HarnessScore(req, h, env)
    ensures forall r :: r in reasons <==> HarnessGives(req, h, env, r)
  {
    eligible, score, reasons := CheckQuality(req, h);
    var wanted, bonus, more := CheckWishes(req, h);
    eligible, score, reasons := eligible && wanted, score + bonus, reasons + more;
    if env.quota.Some? {
      var answer := env.quota.value(h.id, |req.allowed| == 1 && h.id in req.allowed);
      score := score + answer.delta;
      reasons := reasons + [QuotaSays(answer.hardBlock)];
      if answer.hardBlock { eligible := false; }
    }
  }

  /** Whether the subscription is open to another run at all, and approved if it is paid. */
  method CheckOpen(req: Request, p: Profile) returns (eligible: bool, reasons: seq<Reason>)
    ensures eligible == (p.enabled && p.state != RateLimited && p.state != Exhausted && (p.requiresPaidApproval ==> req.paidApproved))
    ensures forall r :: r in reasons <==>
              || (!p.enabled && r == SubscriptionDisabled) || (p.state == RateLimited && r == SubscriptionRateLimited)
              || (p.state == Exhausted && r == SubscriptionExhausted)
              || (p.requiresPaidApproval && r == if req.paidApproved then PaidApproved else PaidNeedsApproval)
  {
    eligible, reasons := true, [];
    if !p.enabled {
      eligible, reasons := false, reasons + [SubscriptionDisabled];
    }
    if p.state == RateLimited {
      eligible, reasons := false, reasons + [SubscriptionRateLimited];
    }
    if p.state == Exhausted {
      eligible, reasons := false, reasons + [SubscriptionExhausted];
    }
    if p.requiresPaidApproval && !req.paidApproved {
      eligible, reasons := false, reasons + [PaidNeedsApproval];
    } else if p.requiresPaidApproval {
      reasons := reasons + [PaidApproved];
    }
  }

  /** The checks on the subscription, continuing with what the harness was given. */
  method CheckProfile(req: Request, p: Profile, eligible0: bool, score0: real, reasons0: seq<Reason>)
    returns (eligible: bool, score: real, reasons: seq<Reason>)
    ensures eligible == (eligible0 && ProfileFits(req, p)) && score == score0 + ProfileScore(Some(p))
    ensures forall r :: r in reasons <==> r in reasons0 || ProfileGives(req, p, r)
  {
    score := score0;
    var open, more := CheckOpen(req, p);
    eligible, reasons := eligible0 && open, reasons0 + more;
    if p.quotaKnown && p.monthlyLimit.Some? {
      score := score + Remaining(p) * 10.0;
      if Max(0.0, p.monthlyLimit.value - p.usedAmount) <= p.quotaReserve {
        eligible, reasons := false, reasons + [ReserveReached];
      } else {
        reasons := reasons + [QuotaRemaining];
      }
    } else if !p.quotaKnown {
      score := score - 15.0;
      reasons := reasons + [QuotaUnknown];
    }
    score := score - p.costWeight;
    reasons := reasons + [CostNamed];
  }

  /** A route is unusable exactly when a blocking reason is given. */
  lemma UnusableIsExplained(req: Request, h: Harness, profile: Option<Profile>, env: Env)
    ensures Usable(req, h, profile, env) <==> forall r :: Gives(req, h, profile, env, r) ==> !Blocking(r)
  {
    if !Usable(req, h, profile, env) {
      var blocked :=
        if !h.available then HarnessUnavailable
        else if !(req.required <= h.capabilities) then CapabilitiesMissing
        else if req.allowed != {} && h.id !in req.allowed then NotOnAllowlist
        else if h.id in req.denied then OnDenylist
        else if Asked(req, h, env).hardBlock then QuotaSays(true)
        else if profile.None? then NoFundingProfile
        else if !profile.value.enabled then SubscriptionDisabled
        else if profile.value.state == RateLimited then SubscriptionRateLimited
        else if profile.value.state == Exhausted then SubscriptionExhausted
        else if profile.value.requiresPaidApproval && !req.paidApproved then PaidNeedsApproval
        else if env.active(h.id, IdOf(profile)) >= ConcurrencyLimit(h, profile) then ConcurrencyReached
        else ReserveReached;
      assert Gives(req, h, profile, env, blocked) && Blocking(blocked);
    }
  }

  /** One candidate; every reason is given exactly when it applies, and it is eligible exactly when no blocking one is. */
  method BuildCandidate(req: Request, h: Harness, profile: Option<Profile>, env: Env)
    returns (candidate: Candidate, reasons: seq<Reason>)
    ensures candidate == CandidateOf(req, h, profile, env)
    ensures forall r :: r in reasons <==> Gives(req, h, profile, env, r)
    ensures candidate.eligible <==> forall r :: r in reasons ==> !Blocking(r)
  {
    var eligible, score;
    eligible, score, reasons := CheckHarness(req, h, env);
    var limit := h.maxConcurrency;
    if profile.Some? {
      if profile.value.maxConcurrency < limit { limit := profile.value.maxConcurrency; }
      eligible, score, reasons := CheckProfile(req, profile.value, eligible, score, reasons);
    } else {
      eligible, score, reasons := false, score - 30.0, reasons + [NoFundingProfile];
    }
    if env.active(h.id, IdOf(profile)) >= limit {
      eligible, reasons := false, reasons + [ConcurrencyReached];
    } else {
      reasons := reasons + [ConcurrencyAvailable];
    }
    candidate := Candidate(h.id, IdOf(profile), env.rounded(score), eligible);
    UnusableIsExplained(req, h, profile, env);
  }

  // ---------------------------------------------------------------- all candidates

  datatype Pair = Pair(harness: Harness, profile: Option<Profile>)

  /** The profiles of a harness, in order. */
  function ProfilesOf(profiles: seq<Profile>, id: string): (own: seq<Profile>)
    ensures forall p :: p in own <==> p in profiles && p.harnessId == id
  {
    if profiles == [] then []
    else
      assert forall p :: p in profiles <==> p == profiles[0] || p in profiles[1..];
      (if profiles[0].harnessId == id then [profiles[0]] else []) + ProfilesOf(profiles[1..], id)
  }

  function PairsOf(h: Harness, own: seq<Profile>): seq<Pair> {
    if own == [] then [Pair(h, None)] else seq(|own|, i requires 0 <= i < |own| => Pair(h, Some(own[i])))
  }

  function Pairs(harnesses: seq<Harness>, profiles: seq<Profile>): seq<Pair> {
    if harnesses == [] then []
    else PairsOf(harnesses[0], ProfilesOf(profiles, harnesses[0].id)) + Pairs(harnesses[1..], profiles)
  }

  function Candidates(req: Request, env: Env, pairs: seq<Pair>): (cs: seq<Candidate>)
    ensures |cs| == |pairs|
    ensures forall i :: 0 <= i < |cs| ==> cs[i] == CandidateOf(req, pairs[i].harness, pairs[i].profile, env)
  {
    seq(|pairs|, i requires 0 <= i < |pairs| => CandidateOf(req, pairs[i].harness, pairs[i].profile, env))
  }

  lemma CandidatesConcat(req: Request, env: Env, a: seq<Pair>, b: seq<Pair>)
    ensures Candidates(req, env, a + b) == Candidates(req, env, a) + Candidates(req, env, b)
  {
  }

  /** The whole preview: a candidate for each harness and each of its profiles, sorted, and the first eligible one. */
  method PreviewRoutes(req: Request, harnesses: seq<Harness>, profiles: seq<Profile>, env: Env)
    returns (selected: Option<Candidate>, sorted: seq<Candidate>)
    ensures sorted == Sort(Candidates(req, env, Pairs(harnesses, profiles)))
    ensures selected == Selected(sorted)
  {
    hide *;
    var candidates: seq<Candidate> := [];
    assert harnesses[0..] == harnesses;
    for i := 0 to |harnesses|
      invariant candidates + Candidates(req, env, Pairs(harnesses[i..], profiles))
             == Candidates(req, env, Pairs(harnesses, profiles))
    {
      var added := CandidatesFor(req, harnesses[i], ProfilesOf(profiles, harnesses[i].id), env);
      CandidatesStep(req, env, harnesses, profiles, i);
      ghost var rest := Candidates(req, env, Pairs(harnesses[i + 1..], profiles));
      assert candidates + (added + rest) == (candidates + added) + rest;
      candidates := candidates + added;
    }
    CandidatesEnd(req, env, harnesses, profiles);
    assert candidates == Candidates(req, env, Pairs(harnesses, profiles));
    selected, sorted := Preview(candidates);
  }

  lemma CandidatesStep(req: Request, env: Env, harnesses: seq<Harness>, profiles: seq<Profile>, i: nat)
    requires i < |harnesses|
    ensures Candidates(req, env, Pairs(harnesses[i..], profiles))
         == Candidates(req, env, PairsOf(harnesses[i], ProfilesOf(profiles, harnesses[i].id)))
            + Candidates(req, env, Pairs(harnesses[i + 1..], profiles))
  {
    assert harnesses[i..][1..] == harnesses[i + 1..];
    hide Candidates, PairsOf, ProfilesOf;
    CandidatesConcat(req, env, PairsOf(harnesses[i], ProfilesOf(profiles, harnesses[i].id)), Pairs(harnesses[i + 1..], profiles));
  }

  lemma CandidatesEnd(req: Request, env: Env, harnesses: seq<Harness>, profiles: seq<Profile>)
    ensures Candidates(req, env, Pairs(harnesses[|harnesses|..], profiles)) == []
  {
    assert harnesses[|harnesses|..] == [];
  }

  /** The inner loop, over the profiles of one harness or over None. */
  method CandidatesFor(req: Request, h: Harness, own: seq<Profile>, env: Env) returns (added: seq<Candidate>)
    ensures added == Candidates(req, env, PairsOf(h, own))
  {
    added := [];
    if own == [] {
      var c, _ := BuildCandidate(req, h, None, env);
      return [c];
    }
    for i := 0 to |own|
      invariant |added| == i
      invariant forall j :: 0 <= j < i ==> added[j] == CandidateOf(req, h, Some(own[j]), env)
    {
      var c, _ := BuildCandidate(req, h, Some(own[i]), env);
      added := added + [c];
    }
  }

  // ---------------------------------------------------------------- what is selected

  /** The selected route meets every hard requirement, none that does scores higher, and none is selected only when none does. */
  lemma SelectedIsUsable(req: Request, env: Env, pairs: seq<Pair>)
    ensures var chosen := Selected(Sort(Candidates(req, env, pairs)));
            && (chosen == None <==> forall pair :: pair in pairs ==> !Usable(req, pair.harness, pair.profile, env))
            && (chosen.Some? ==>
                  exists pair :: pair in pairs && Usable(req, pair.harness, pair.profile, env)
                    && chosen.value == CandidateOf(req, pair.harness, pair.profile, env)
                    && forall other :: other in pairs && Usable(req, other.harness, other.profile, env)
                         ==> CandidateOf(req, other.harness, other.profile, env).score <= chosen.value.score)
  {
    var cs := Candidates(req, env, pairs);
    SelectedIsBest(cs);
    hide Usable, Sort, Selected;
    forall pair | pair in pairs
      ensures CandidateOf(req, pair.harness, pair.profile, env) in cs
    {
      var i :| 0 <= i < |pairs| && pairs[i] == pair;
      assert cs[i] == CandidateOf(req, pair.harness, pair.profile, env);
    }
    var chosen := Selected(Sort(cs));
    if chosen.Some? {
      var i :| 0 <= i < |cs| && cs[i] == chosen.value;
      assert pairs[i] in pairs;
    } else {
      forall pair | pair in pairs
        ensures !Usable(req, pair.harness, pair.profile, env)
      {
        assert !CandidateOf(req, pair.harness, pair.profile, env).eligible;
      }
    }
  }

  /** Harness ids and subscription ids are unique keys, so candidates are told apart by theirs. */
  lemma {:induction false} PairsAreDistinct(req: Request, env: Env, harnesses: seq<Harness>, profiles: seq<Profile>)
    requires forall i, j :: 0 <= i < j < |harnesses| ==> harnesses[i].id != harnesses[j].id
    requires forall i, j :: 0 <= i < j < |profiles| ==> profiles[i].id != profiles[j].id
    ensures DistinctIds(Candidates(req, env, Pairs(harnesses, profiles)))
    ensures forall c :: c in Candidates(req, env, Pairs(harnesses, profiles))
                ==> exists i :: 0 <= i < |harnesses| && harnesses[i].id == c.harnessId
  {
    if harnesses != [] {
      var h, rest := harnesses[0], harnesses[1..];
      var own := ProfilesOf(profiles, h.id);
      var a, b := Candidates(req, env, PairsOf(h, own)), Candidates(req, env, Pairs(rest, profiles));
      CandidatesConcat(req, env, PairsOf(h, own), Pairs(rest, profiles));
      assert Candidates(req, env, Pairs(harnesses, profiles)) == a + b;
      hide *;
      PairsAreDistinct(req, env, rest, profiles);
      OwnAreDistinct(profiles, h.id);
      OneHarness(req, env, h, own);
      forall c | c in b
        ensures c.harnessId != h.id && exists i :: 0 <= i < |harnesses| && harnesses[i].id == c.harnessId
      {
        var i :| 0 <= i < |rest| && rest[i].id == c.harnessId;
        assert rest[i] == harnesses[i + 1];
      }
      DistinctConcat(a, b, h.id);
    }
  }

  lemma OneHarness(req: Request, env: Env, h: Harness, own: seq<Profile>)
    requires forall i, j :: 0 <= i < j < |own| ==> own[i].id != own[j].id
    ensures DistinctIds(Candidates(req, env, PairsOf(h, own)))
    ensures forall c :: c in Candidates(req, env, PairsOf(h, own)) ==> c.harnessId == h.id
  {
  }

  lemma {:induction false} OwnAreDistinct(profiles: seq<Profile>, id: string)
    requires forall i, j :: 0 <= i < j < |profiles| ==> profiles[i].id != profiles[j].id
    ensures forall i, j :: 0 <= i < j < |ProfilesOf(profiles, id)| ==> ProfilesOf(profiles, id)[i].id != ProfilesOf(profiles, id)[j].id
  {
    if profiles != [] {
      var rest := ProfilesOf(profiles[1..], id);
      OwnAreDistinct(profiles[1..], id);
      forall k | 0 <= k < |rest|
        ensures rest[k].id != profiles[0].id
      {
        assert rest[k] in profiles[1..];
      }
    }
  }

  lemma DistinctConcat(a: seq<Candidate>, b: seq<Candidate>, id: string)
    requires DistinctIds(a) && DistinctIds(b)
    requires (forall c :: c in a ==> c.harnessId == id) && forall c :: c in b ==> c.harnessId != id
    ensures DistinctIds(a + b)
  {
    var all := a + b;
    forall i, j | 0 <= i < j < |all|
      ensures !SameKey(all[i], all[j])
    {
      if i < |a| <= j { assert all[i] in a && all[j] in b; }
    }
  }
}
