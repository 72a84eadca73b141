/** Routing a request to a model under a budget of cost and of depth. */
module Routing {
  import opened Wrappers
  import opened Ordering

  datatype ModelInfo = ModelInfo(name: string, tier: string, cost: real)

  datatype Request = Request(riskTier: string, purpose: string)

  datatype Decision = Decision(model: string, tier: string, cost: real, reason: string)

  datatype Evidence =
    | Denied(model: string, tier: string)
    | Routed(decision: Decision)
    | Exhausted

  datatype RouteOutcome = Chosen(model: string) | DepthExhausted | NoModels | InvalidDecision | BudgetExhausted

  /** The environment: the registered models and the verdict of the policy on a tier. */
  datatype Provider = Provider(models: seq<ModelInfo>, allows: string -> bool)

  // ---------------------------------------------------------------------------------------------
  // Candidates

  predicate NeedsVerifier(r: Request) {
    r.riskTier == "high" || r.purpose == "verification"
  }

  predicate WantsCheapest(r: Request) {
    !NeedsVerifier(r) && r.purpose == "formatting"
  }

  predicate IsEligible(r: Request, m: ModelInfo) {
    NeedsVerifier(r) ==> m.tier == "tier2"
  }

  predicate Cheaper(a: ModelInfo, b: ModelInfo) {
    a.cost <= b.cost
  }

  predicate Costlier(a: ModelInfo, b: ModelInfo) {
    a.cost >= b.cost
  }

  function KeepTier2(models: seq<ModelInfo>): (kept: seq<ModelInfo>)
    ensures forall m :: m in kept <==> m in models && m.tier == "tier2"
  {
    if models == [] then []
    else (if models[0].tier == "tier2" then [models[0]] else []) + KeepTier2(models[1..])
  }

  /** `_ordered_candidates`: both sorts are stable. */
  function OrderedCandidates(p: Provider, r: Request): seq<ModelInfo> {
    if NeedsVerifier(r) then SortBy(KeepTier2(p.models), Costlier)
    else if r.purpose == "formatting" then SortBy(p.models, Cheaper)
    else SortBy(p.models, Costlier)
  }

  function RouteReason(r: Request, index: nat): string {
    if NeedsVerifier(r) then "verifier-approved tier required"
    else if r.purpose == "formatting" then "low-risk formatting uses cheapest allowed tier"
    else if index == 0 then "within budget" else "fallback due to budget"
  }

  // ---------------------------------------------------------------------------------------------
  // One call, as a function

  datatype RouterState = RouterState(
    log: seq<string>, decisions: seq<Decision>, evidence: seq<Evidence>, spent: real, depth: int)

  datatype Limits = Limits(maxBudget: real, maxDepth: int)

  const EXPECTED_TOKENS: real := 1000.0

  function EstimatedCost(m: ModelInfo): real {
    (EXPECTED_TOKENS / 1000.0) * m.cost
  }

  predicate Usable(p: Provider, limits: Limits, spent: real, m: ModelInfo) {
    p.allows(m.tier) && spent + EstimatedCost(m) <= limits.maxBudget
  }

  /** The loop over the candidates from index `i` on.  The decision is built after the charge, and
      building it fails for a negative cost. */
  function TryFrom(p: Provider, limits: Limits, r: Request, candidates: seq<ModelInfo>, i: nat, s: RouterState)
    : (RouterState, RouteOutcome)
    requires i <= |candidates|
    decreases |candidates| - i
  {
    if i == |candidates| then (s.(evidence := s.evidence + [Exhausted]), BudgetExhausted)
    else
      var m := candidates[i];
      if !p.allows(m.tier) then
        TryFrom(p, limits, r, candidates, i + 1, s.(evidence := s.evidence + [Denied(m.name, m.tier)]))
      else if s.spent + EstimatedCost(m) <= limits.maxBudget then
        var charged := s.(spent := s.spent + EstimatedCost(m), log := s.log + [m.name]);
        if EstimatedCost(m) < 0.0 then (charged, InvalidDecision)
        else
          var decision := Decision(m.name, m.tier, EstimatedCost(m), RouteReason(r, i));
          (charged.(decisions := s.decisions + [decision], evidence := s.evidence + [Routed(decision)]), Chosen(m.name))
      else TryFrom(p, limits, r, candidates, i + 1, s)
  }

  function RouteStep(p: Provider, limits: Limits, s: RouterState, r: Request): (RouterState, RouteOutcome) {
    var deeper := s.(depth := s.depth + 1);
    if deeper.depth > limits.maxDepth then (deeper, DepthExhausted)
    else if OrderedCandidates(p, r) == [] then (deeper, NoModels)
    else TryFrom(p, limits, r, OrderedCandidates(p, r), 0, deeper)
  }

  // ---------------------------------------------------------------------------------------------
  // The classes

  class BudgetManager {
    const maxBudget: real
    const maxDepth: int
    var spent: real
    var currentDepth: int

    constructor (maxBudget: real, maxDepth: int)
      ensures this.maxBudget == maxBudget && this.maxDepth == maxDepth && spent == 0.0 && currentDepth == 0
    {
      this.maxBudget, this.maxDepth, spent, currentDepth := maxBudget, maxDepth, 0.0, 0;
    }

    /** Charges first and complains afterwards. */
    method Charge(amount: real) returns (raised: bool)
      modifies this`spent
      ensures spent == old(spent) + amount && (raised <==> spent > maxBudget)
    {
      spent := spent + amount;
      raised := spent > maxBudget;
    }

    method IncrementDepth() returns (raised: bool)
      modifies this`currentDepth
      ensures currentDepth == old(currentDepth) + 1 && (raised <==> currentDepth > maxDepth)
    {
      currentDepth := currentDepth + 1;
      raised := currentDepth > maxDepth;
    }
  }

  class Router {
    const provider: Provider
    var log: seq<string>
    var decisions: seq<Decision>
    var evidence: seq<Evidence>

    constructor (provider: Provider)
      ensures this.provider == provider && log == [] && decisions == [] && evidence == []
    {
      this.provider := provider;
      log, decisions, evidence := [], [], [];
    }

    function StateWith(budget: BudgetManager): RouterState
      reads this, budget
    {
      RouterState(log, decisions, evidence, budget.spent, budget.currentDepth)
    }

    method Route(r: Request, budget: BudgetManager) returns (outcome: RouteOutcome)
      modifies this, budget
      ensures (StateWith(budget), outcome)
           == RouteStep(provider, Limits(budget.maxBudget, budget.maxDepth), old(StateWith(budget)), r)
    {
      hide SortBy, RouteReason;
      var tooDeep := budget.IncrementDepth();
      if tooDeep {
        return DepthExhausted;
      }
      var candidates := OrderedCandidates(provider, r);
      if |candidates| == 0 {
        return NoModels;
      }
      ghost var limits, start := Limits(budget.maxBudget, budget.maxDepth), StateWith(budget);
      for i := 0 to |candidates|
        invariant TryFrom(provider, limits, r, candidates, 0, start)
               == TryFrom(provider, limits, r, candidates, i, StateWith(budget))
      {
        var m := candidates[i];
        if !provider.allows(m.tier) {
          evidence := evidence + [Denied(m.name, m.tier)];
        } else if budget.spent + EstimatedCost(m) <= budget.maxBudget {
          var exhausted := budget.Charge(EstimatedCost(m));
          assert !exhausted;
          log := log + [m.name];
          if EstimatedCost(m) < 0.0 {
            return InvalidDecision;
          }
          var decision := Decision(m.name, m.tier, EstimatedCost(m), RouteReason(r, i));
          decisions := decisions + [decision];
          evidence := evidence + [Routed(decision)];
          return Chosen(m.name);
        }
      }
      evidence := evidence + [Exhausted];
      return BudgetExhausted;
    }
  }

  // ---------------------------------------------------------------------------------------------
  // What is chosen

  predicate Wanted(p: Provider, limits: Limits, spent: real, r: Request, m: ModelInfo) {
    m in p.models && IsEligible(r, m) && Usable(p, limits, spent, m)
  }

  /** The best of the wanted models: the cheapest for low-risk formatting, otherwise the costliest. */
  ghost predicate Best(p: Provider, limits: Limits, spent: real, r: Request, m: ModelInfo) {
    && Wanted(p, limits, spent, r, m)
    && forall other :: Wanted(p, limits, spent, r, other) ==>
         if WantsCheapest(r) then Cheaper(m, other) else Costlier(m, other)
  }

  lemma CandidatesAreEligible(p: Provider, r: Request, m: ModelInfo)
    ensures m in OrderedCandidates(p, r) <==> m in p.models && IsEligible(r, m)
  {
    var models := if NeedsVerifier(r) then KeepTier2(p.models) else p.models;
    SortPermutes(models, Costlier);
    SortPermutes(models, Cheaper);
    SameElements(SortBy(models, Costlier), models);
    SameElements(SortBy(models, Cheaper), models);
  }

  lemma CandidatesAreSorted(p: Provider, r: Request)
    ensures SortedBy(OrderedCandidates(p, r), if WantsCheapest(r) then Cheaper else Costlier)
  {
    assert TotalPreorder(Cheaper) && TotalPreorder(Costlier);
    SortSorts(p.models, Cheaper);
    SortSorts(p.models, Costlier);
    SortSorts(KeepTier2(p.models), Costlier);
  }

  /** The loop charges and logs one candidate; the decision is recorded unless its cost is negative. */
  ghost predicate ChargedFor(m: ModelInfo, reason: string, s: RouterState, t: RouterState, outcome: RouteOutcome) {
    && t.spent == s.spent + m.cost && t.log == s.log + [m.name]
    && if m.cost < 0.0 then outcome == InvalidDecision && t.decisions == s.decisions
       else outcome == Chosen(m.name) && t.decisions == s.decisions + [Decision(m.name, m.tier, m.cost, reason)]
  }

  /** The loop stops at the first usable candidate, if there is one. */
  lemma {:induction false} TryStops(p: Provider, limits: Limits, r: Request, candidates: seq<ModelInfo>, i: nat,
                                    k: nat, s: RouterState)
    requires i <= k <= |candidates|
    requires forall j :: i <= j < k ==> !Usable(p, limits, s.spent, candidates[j])
    requires k < |candidates| ==> Usable(p, limits, s.spent, candidates[k])
    ensures var (t, outcome) := TryFrom(p, limits, r, candidates, i, s);
      && t.depth == s.depth
      && if k < |candidates| then ChargedFor(candidates[k], RouteReason(r, k), s, t, outcome)
         else outcome == BudgetExhausted && t == s.(evidence := t.evidence)
    decreases |candidates| - i
  {
    hide RouteReason;
    if i < |candidates| {
      var m := candidates[i];
      assert i < k ==> !Usable(p, limits, s.spent, candidates[i]);
      if !p.allows(m.tier) {
        TryStops(p, limits, r, candidates, i + 1, k, s.(evidence := s.evidence + [Denied(m.name, m.tier)]));
      } else if !Usable(p, limits, s.spent, m) {
        TryStops(p, limits, r, candidates, i + 1, k, s);
      }
    }
  }

  /** One record for each candidate among those from `i` to `k` whose tier policy denies. */
  function DeniedAmong(p: Provider, candidates: seq<ModelInfo>, i: nat, k: nat): seq<Evidence>
    requires i <= k <= |candidates|
    decreases k - i
  {
    if i == k then []
    else (if p.allows(candidates[i].tier) then [] else [Denied(candidates[i].name, candidates[i].tier)])
         + DeniedAmong(p, candidates, i + 1, k)
  }

  /** The evidence: the denials met on the way, then the decision, or the exhaustion. */
  lemma {:induction false} TryLeavesEvidence(p: Provider, limits: Limits, r: Request, candidates: seq<ModelInfo>,
                                             i: nat, k: nat, s: RouterState)
    requires i <= k <= |candidates|
    requires forall j :: i <= j < k ==> !Usable(p, limits, s.spent, candidates[j])
    requires k < |candidates| ==> Usable(p, limits, s.spent, candidates[k]) && candidates[k].cost >= 0.0
    ensures var t := TryFrom(p, limits, r, candidates, i, s).0;
      t.evidence == s.evidence + DeniedAmong(p, candidates, i, k)
        + if k < |candidates|
          then [Routed(Decision(candidates[k].name, candidates[k].tier, candidates[k].cost, RouteReason(r, k)))]
          else [Exhausted]
    decreases |candidates| - i
  {
    hide RouteReason;
    if i < k {
      var m := candidates[i];
      assert !Usable(p, limits, s.spent, candidates[i]);
      if !p.allows(m.tier) {
        TryLeavesEvidence(p, limits, r, candidates, i + 1, k, s.(evidence := s.evidence + [Denied(m.name, m.tier)]));
      } else {
        TryLeavesEvidence(p, limits, r, candidates, i + 1, k, s);
      }
    }
  }

  /** The model that was charged and logged is the best of the wanted ones. */
  ghost predicate Routes(p: Provider, limits: Limits, r: Request, s: RouterState, t: RouterState, m: ModelInfo,
                         outcome: RouteOutcome)
  {
    Best(p, limits, s.spent, r, m) && exists reason :: ChargedFor(m, reason, s, t, outcome)
  }

  /** A call within depth routes to the best wanted model; when no model is wanted nothing is
      charged, logged or decided. */
  lemma RouteChoosesBest(p: Provider, limits: Limits, s: RouterState, r: Request)
    requires s.depth + 1 <= limits.maxDepth
    ensures var (t, outcome) := RouteStep(p, limits, s, r);
      if exists m :: Wanted(p, limits, s.spent, r, m) then exists m :: Routes(p, limits, r, s, t, m, outcome)
      else (outcome == NoModels || outcome == BudgetExhausted) && t == s.(depth := s.depth + 1, evidence := t.evidence)
  {
    var candidates := OrderedCandidates(p, r);
    forall m ensures m in candidates <==> m in p.models && IsEligible(r, m) {
      CandidatesAreEligible(p, r, m);
    }
    CandidatesAreSorted(p, r);
    hide OrderedCandidates, ChargedFor, Usable, Best, TryFrom;
    var deeper := s.(depth := s.depth + 1);
    var k := FirstUsable(p, limits, s.spent, candidates);
    TryStops(p, limits, r, candidates, 0, k, deeper);
    if k < |candidates| {
      FirstIsBest(p, limits, s.spent, r, candidates, k);
      assert Wanted(p, limits, s.spent, r, candidates[k]) by { BestIsWanted(p, limits, s.spent, r, candidates[k]); }
      var (t, outcome) := RouteStep(p, limits, s, r);
      DepthAside(candidates[k], RouteReason(r, k), deeper, s, t, outcome);
      assert Routes(p, limits, r, s, t, candidates[k], outcome);
    } else {
      NoneWanted(p, limits, s.spent, r, candidates);
    }
  }

  // What a decision says, written out

  predicate Affords(p: Provider, limits: Limits, spent: real, m: ModelInfo) {
    m in p.models && p.allows(m.tier) && spent + m.cost <= limits.maxBudget
  }

  /** For high risk or for verification the costliest affordable model of the second tier, for other
      formatting the cheapest affordable model, otherwise the costliest; in this last case the reason
      tells whether it is the costliest of all. */
  ghost predicate Justified(p: Provider, limits: Limits, spent: real, r: Request, m: ModelInfo, reason: string) {
    && Affords(p, limits, spent, m)
    && if r.riskTier == "high" || r.purpose == "verification" then
         && m.tier == "tier2" && reason == "verifier-approved tier required"
         && (forall o :: Affords(p, limits, spent, o) && o.tier == "tier2" ==> o.cost <= m.cost)
       else if r.purpose == "formatting" then
         && reason == "low-risk formatting uses cheapest allowed tier"
         && (forall o :: Affords(p, limits, spent, o) ==> m.cost <= o.cost)
       else
         && (forall o :: Affords(p, limits, spent, o) ==> o.cost <= m.cost)
         && reason == if TopAffords(p, limits, spent) then "within budget" else "fallback due to budget"
  }

  /** The costliest model, the first listed of several, can be afforded. */
  ghost predicate TopAffords(p: Provider, limits: Limits, spent: real) {
    exists i :: IsTop(p.models, i) && Affords(p, limits, spent, p.models[i])
  }

  ghost predicate IsTop(models: seq<ModelInfo>, i: int) {
    && 0 <= i < |models|
    && (forall j :: 0 <= j < |models| ==> models[j].cost <= models[i].cost)
    && (forall j :: 0 <= j < i ==> models[j].cost < models[i].cost)
  }

  lemma {:induction false} HeadIsTop(models: seq<ModelInfo>) returns (i: nat)
    requires models != []
    ensures IsTop(models, i) && SortBy(models, Costlier) != [] && SortBy(models, Costlier)[0] == models[i]
  {
    if |models| == 1 {
      i := 0;
    } else {
      var rest := models[1..];
      var j := HeadIsTop(rest);
      i := if models[0].cost >= rest[j].cost then 0 else j + 1;
    }
  }

  lemma BestIsJustified(p: Provider, limits: Limits, spent: real, r: Request, m: ModelInfo, k: nat)
    requires Best(p, limits, spent, r, m)
    requires k < |OrderedCandidates(p, r)| && OrderedCandidates(p, r)[k] == m
    requires forall j :: 0 <= j < k ==> !Usable(p, limits, spent, OrderedCandidates(p, r)[j])
    ensures Justified(p, limits, spent, r, m, RouteReason(r, k))
  {
    forall o ensures Wanted(p, limits, spent, r, o) <==>
      Affords(p, limits, spent, o) && (r.riskTier == "high" || r.purpose == "verification" ==> o.tier == "tier2")
    {
    }
    CandidatesAreSorted(p, r);
    if !NeedsVerifier(r) && r.purpose != "formatting" {
      CandidatesAreEligible(p, r, m);
      var i := HeadIsTop(p.models);
      assert OrderedCandidates(p, r)[0] == p.models[i];
      assert forall j :: IsTop(p.models, j) ==> j == i;
    }
    hide OrderedCandidates;
  }

  /** A call that chooses a model records one decision for it, with a reason, and the model is the one
      that its request justifies. */
  lemma DecisionIsJustified(p: Provider, limits: Limits, s: RouterState, r: Request)
    ensures var (t, outcome) := RouteStep(p, limits, s, r);
      outcome.Chosen? ==>
        exists m, reason :: Justified(p, limits, s.spent, r, m, reason) && outcome.model == m.name
          && t.decisions == s.decisions + [Decision(m.name, m.tier, m.cost, reason)]
          && t.log == s.log + [m.name] && t.spent == s.spent + m.cost
  {
    var candidates := OrderedCandidates(p, r);
    forall m ensures m in candidates <==> m in p.models && IsEligible(r, m) {
      CandidatesAreEligible(p, r, m);
    }
    CandidatesAreSorted(p, r);
    hide OrderedCandidates, Usable, Best, TryFrom, RouteReason, Justified;
    var k := FirstUsable(p, limits, s.spent, candidates);
    TryStops(p, limits, r, candidates, 0, k, s.(depth := s.depth + 1));
    if k < |candidates| {
      FirstIsBest(p, limits, s.spent, r, candidates, k);
      BestIsJustified(p, limits, s.spent, r, candidates[k], k);
    }
  }

  lemma DepthAside(m: ModelInfo, reason: string, s: RouterState, u: RouterState, t: RouterState, outcome: RouteOutcome)
    requires u.spent == s.spent && u.log == s.log && u.decisions == s.decisions
    requires ChargedFor(m, reason, s, t, outcome)
    ensures ChargedFor(m, reason, u, t, outcome)
  {
  }

  lemma NoneWanted(p: Provider, limits: Limits, spent: real, r: Request, candidates: seq<ModelInfo>)
    requires forall m :: m in candidates <==> m in p.models && IsEligible(r, m)
    requires forall k :: 0 <= k < |candidates| ==> !Usable(p, limits, spent, candidates[k])
    ensures forall m :: !Wanted(p, limits, spent, r, m)
  {
    hide Usable, IsEligible;
    forall m ensures !Wanted(p, limits, spent, r, m) {
      if m in candidates {
        var k :| 0 <= k < |candidates| && candidates[k] == m;
      }
    }
  }

  lemma FirstUsable(p: Provider, limits: Limits, spent: real, candidates: seq<ModelInfo>) returns (k: nat)
    ensures k <= |candidates| && (k < |candidates| ==> Usable(p, limits, spent, candidates[k]))
    ensures forall j :: 0 <= j < k ==> !Usable(p, limits, spent, candidates[j])
  {
    k := 0;
    while k < |candidates| && !Usable(p, limits, spent, candidates[k])
      invariant k <= |candidates| && forall j :: 0 <= j < k ==> !Usable(p, limits, spent, candidates[j])
    {
      k := k + 1;
    }
  }

  lemma FirstIsBest(p: Provider, limits: Limits, spent: real, r: Request, candidates: seq<ModelInfo>, k: nat)
    requires forall m :: m in candidates <==> m in p.models && IsEligible(r, m)
    requires SortedBy(candidates, if WantsCheapest(r) then Cheaper else Costlier)
    requires k < |candidates| && Usable(p, limits, spent, candidates[k])
    requires forall j :: 0 <= j < k ==> !Usable(p, limits, spent, candidates[j])
    ensures Best(p, limits, spent, r, candidates[k])
  {
    hide Usable, IsEligible, WantsCheapest;
    assert candidates[k] in candidates;
    forall other | Wanted(p, limits, spent, r, other)
      ensures if WantsCheapest(r) then Cheaper(candidates[k], other) else Costlier(candidates[k], other)
    {
      assert other in candidates;
      var j :| 0 <= j < |candidates| && candidates[j] == other;
      assert j >= k;
    }
  }

  // ---------------------------------------------------------------------------------------------
  // Runs

  function RouteAll(p: Provider, limits: Limits, s: RouterState, requests: seq<Request>)
    : (RouterState, seq<RouteOutcome>)
  {
    if requests == [] then (s, [])
    else
      var n := |requests| - 1;
      var (t, outcomes) := RouteAll(p, limits, s, requests[..n]);
      var (u, outcome) := RouteStep(p, limits, t, requests[n]);
      (u, outcomes + [outcome])
  }

  function Sum(decisions: seq<Decision>): real {
    if decisions == [] then 0.0 else Sum(decisions[..|decisions| - 1]) + decisions[|decisions| - 1].cost
  }

  function Successes(outcomes: seq<RouteOutcome>): nat {
    if outcomes == [] then 0
    else Successes(outcomes[..|outcomes| - 1]) + if outcomes[|outcomes| - 1].Chosen? then 1 else 0
  }

  function Fresh(): RouterState {
    RouterState([], [], [], 0.0, 0)
  }

  /** A charge that cannot be recorded: the best wanted model has a negative cost. */
  ghost predicate Unrecordable(p: Provider, limits: Limits, spent: real, r: Request) {
    exists m :: Best(p, limits, spent, r, m) && m.cost < 0.0
  }

  /** The same, as a caller can check it before the call. */
  lemma UnrecordableExactly(p: Provider, limits: Limits, spent: real, r: Request)
    ensures Unrecordable(p, limits, spent, r)
       <==> if WantsCheapest(r) then exists m :: Wanted(p, limits, spent, r, m) && m.cost < 0.0
            else (exists m :: Wanted(p, limits, spent, r, m))
                 && forall m :: Wanted(p, limits, spent, r, m) ==> m.cost < 0.0
  {
    hide Wanted, WantsCheapest, RouteStep;
    if exists m :: Wanted(p, limits, spent, r, m) {
      var s := RouterState([], [], [], spent, limits.maxDepth - 1);
      RouteChoosesBest(p, limits, s, r);
      var (t, outcome) := RouteStep(p, limits, s, r);
      var best :| Routes(p, limits, r, s, t, best, outcome);
      assert Best(p, limits, spent, r, best) && Wanted(p, limits, spent, r, best);
    }
  }

  /** One call within depth keeps the books, what is spent being what the recorded decisions add,
      exactly when the charge can be recorded. */
  lemma RouteKeepsBooks(p: Provider, limits: Limits, s: RouterState, r: Request)
    requires s.depth + 1 <= limits.maxDepth
    ensures var (t, outcome) := RouteStep(p, limits, s, r);
      && (t.spent - s.spent == Sum(t.decisions) - Sum(s.decisions) <==> !Unrecordable(p, limits, s.spent, r))
      && (outcome == InvalidDecision <==> Unrecordable(p, limits, s.spent, r))
  {
    hide TryFrom, Wanted, OrderedCandidates, Sum, RouteStep;
    RouteChoosesBest(p, limits, s, r);
    var (t, outcome) := RouteStep(p, limits, s, r);
    if exists m :: Wanted(p, limits, s.spent, r, m) {
      var m :| Routes(p, limits, r, s, t, m, outcome);
      BestIsWanted(p, limits, s.spent, r, m);
      var reason :| ChargedFor(m, reason, s, t, outcome);
      if m.cost >= 0.0 {
        SumSnoc(s.decisions, Decision(m.name, m.tier, m.cost, reason));
      }
      forall other | Best(p, limits, s.spent, r, other) ensures other.cost == m.cost {
        BestIsWanted(p, limits, s.spent, r, other);
      }
    }
  }

  /** What every call keeps: spending rises only up to the budget, never above the recorded
      decisions, and only a call that fails to record its decision moves it below them. */
  ghost predicate BooksMove(limits: Limits, s: RouterState, t: RouterState, outcome: RouteOutcome) {
    && t.depth == s.depth + 1
    && (t.spent == s.spent || t.spent <= limits.maxBudget)
    && t.spent - s.spent <= Sum(t.decisions) - Sum(s.decisions)
    && (t.spent - s.spent == Sum(t.decisions) - Sum(s.decisions) <==> outcome != InvalidDecision)
    && |t.decisions| == |s.decisions| + (if outcome.Chosen? then 1 else 0)
    && (outcome.Chosen? ==> s.depth + 1 <= limits.maxDepth)
  }

  lemma RouteMovesBooks(p: Provider, limits: Limits, s: RouterState, r: Request)
    ensures var (t, outcome) := RouteStep(p, limits, s, r); BooksMove(limits, s, t, outcome)
  {
    if s.depth + 1 <= limits.maxDepth {
      hide TryFrom, Best, Wanted, OrderedCandidates, Sum;
      RouteKeepsDepth(p, limits, s, r);
      RouteChoosesBest(p, limits, s, r);
      var (t, outcome) := RouteStep(p, limits, s, r);
      if exists m :: Wanted(p, limits, s.spent, r, m) {
        var m :| Routes(p, limits, r, s, t, m, outcome);
        BestIsWanted(p, limits, s.spent, r, m);
        var reason :| ChargedFor(m, reason, s, t, outcome);
        if m.cost >= 0.0 {
          SumSnoc(s.decisions, Decision(m.name, m.tier, m.cost, reason));
        }
      }
    }
  }

  lemma BestIsWanted(p: Provider, limits: Limits, spent: real, r: Request, m: ModelInfo)
    requires Best(p, limits, spent, r, m)
    ensures Wanted(p, limits, spent, r, m) && m in p.models && spent + m.cost <= limits.maxBudget
  {
  }

  lemma RouteKeepsDepth(p: Provider, limits: Limits, s: RouterState, r: Request)
    ensures RouteStep(p, limits, s, r).0.depth == s.depth + 1
  {
    hide TryFrom, ChargedFor;
    var candidates := OrderedCandidates(p, r);
    var k := FirstUsable(p, limits, s.spent, candidates);
    TryStops(p, limits, r, candidates, 0, k, s.(depth := s.depth + 1));
  }

  lemma SumSnoc(decisions: seq<Decision>, d: Decision)
    ensures Sum(decisions + [d]) == Sum(decisions) + d.cost
  {
    assert (decisions + [d])[..|decisions|] == decisions;
  }

  /** Over any sequence of calls on one router and one budget: spending exceeds neither the budget
      nor the sum of the recorded decisions, each success has its decision, and at most `maxDepth`
      calls succeed. */
  lemma {:induction false} BudgetBound(p: Provider, limits: Limits, requests: seq<Request>)
    ensures var (t, outcomes) := RouteAll(p, limits, Fresh(), requests);
      && t.spent <= (if limits.maxBudget > 0.0 then limits.maxBudget else 0.0)
      && t.spent <= Sum(t.decisions)
      && (t.spent == Sum(t.decisions) <==> InvalidDecision !in outcomes)
      && |t.decisions| == Successes(outcomes) && t.depth == |requests| == |outcomes|
      && Successes(outcomes) <= (if limits.maxDepth > 0 then limits.maxDepth else 0)
      && Successes(outcomes) <= |requests|
  {
    hide RouteStep;
    if requests != [] {
      var n := |requests| - 1;
      BudgetBound(p, limits, requests[..n]);
      var (t, outcomes) := RouteAll(p, limits, Fresh(), requests[..n]);
      RouteMovesBooks(p, limits, t, requests[n]);
      var outcome := RouteStep(p, limits, t, requests[n]).1;
      assert (outcomes + [outcome])[..n] == outcomes;
    }
  }

  /** What was spent when call `k` of the run began. */
  function SpentBefore(p: Provider, limits: Limits, requests: seq<Request>, k: nat): real
    requires k <= |requests|
  {
    RouteAll(p, limits, Fresh(), requests[..k]).0.spent
  }

  /** Each call decides by itself, from what was spent before it, whether it breaks the books. */
  lemma {:induction false} CallBreaksBooks(p: Provider, limits: Limits, requests: seq<Request>, k: nat)
    requires k < |requests|
    ensures var outcomes := RouteAll(p, limits, Fresh(), requests).1;
      && |outcomes| == |requests|
      && (outcomes[k] == InvalidDecision
          <==> k < limits.maxDepth && Unrecordable(p, limits, SpentBefore(p, limits, requests, k), requests[k]))
  {
    hide RouteStep, Unrecordable, Successes;
    var n := |requests| - 1;
    BudgetBound(p, limits, requests[..n]);
    if k < n {
      CallBreaksBooks(p, limits, requests[..n], k);
      assert requests[..n][..k] == requests[..k];
    } else {
      var t := RouteAll(p, limits, Fresh(), requests[..n]).0;
      if t.depth + 1 <= limits.maxDepth {
        RouteKeepsBooks(p, limits, t, requests[n]);
      } else {
        TooDeep(p, limits, t, requests[n]);
      }
    }
  }

  lemma TooDeep(p: Provider, limits: Limits, s: RouterState, r: Request)
    requires s.depth + 1 > limits.maxDepth
    ensures RouteStep(p, limits, s, r) == (s.(depth := s.depth + 1), DepthExhausted)
  {
  }

  /** The books balance after a run exactly when no call within depth met a charge it could not
      record. */
  lemma RunKeepsBooks(p: Provider, limits: Limits, requests: seq<Request>)
    ensures var t := RouteAll(p, limits, Fresh(), requests).0;
      t.spent == Sum(t.decisions)
      <==> forall k :: 0 <= k < |requests| && k < limits.maxDepth
                       ==> !Unrecordable(p, limits, SpentBefore(p, limits, requests, k), requests[k])
  {
    hide RouteAll, Unrecordable, Sum, Successes, SpentBefore;
    BudgetBound(p, limits, requests);
    forall k | 0 <= k < |requests|
      ensures RouteAll(p, limits, Fresh(), requests).1[k] == InvalidDecision
         <==> k < limits.maxDepth && Unrecordable(p, limits, SpentBefore(p, limits, requests, k), requests[k])
    {
      CallBreaksBooks(p, limits, requests, k);
    }
  }

  /** A negative cost breaks the books: the charge is made, but no decision can be recorded. */
  lemma NegativeCostUnrecorded(limits: Limits)
    requires limits.maxBudget >= 0.0 && limits.maxDepth >= 1
    ensures var p := Provider([ModelInfo("m", "tier1", -1.0)], (tier: string) => true);
      var (t, outcome) := RouteStep(p, limits, Fresh(), Request("low", "general"));
      outcome == InvalidDecision && t.spent == -1.0 && Sum(t.decisions) == 0.0
  {
    var m := ModelInfo("m", "tier1", -1.0);
    assert SortBy([m], Costlier) == [m];
  }
}
