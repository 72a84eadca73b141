/** EIP documents dumped as JSON, and `diff_eips`. */
module EipDiff {
  import opened Wrappers
  import opened Ordering
  import opened JsonDiff
  import opened JsonPaths
  import opened Eip

  const GOAL_NAMES: seq<string> := ["description", "success_criteria"]
  const OBLIGATION_NAMES: seq<string> := ["id", "kind", "description"]
  const INVARIANT_NAMES: seq<string> := ["security", "performance", "functional"]
  const CONSTRAINT_NAMES: seq<string> := ["security", "privacy", "operational"]
  const TOOL_NAMES: seq<string> := ["allowed", "denied"]
  const MEMORY_NAMES: seq<string> := ["scope", "purpose", "max_payload_size"]
  const BUDGET_NAMES: seq<string> := ["max_tokens", "max_cost", "max_loop_depth"]
  const RELEASE_NAMES: seq<string> := ["required", "strategy", "gates"]
  const TELEMETRY_NAMES: seq<string> := ["required", "signals"]

  const EIP_NAMES: seq<string> := [
    "version", "name", "goal", "non_goals", "risk_tier", "autonomy_tier", "scope_boundaries", "invariants",
    "constraints", "proof_obligations", "tool_permissions", "memory_requirements", "model_budget",
    "release_requirements", "telemetry_requirements"]

  lemma SectionNamesDistinct()
    ensures Distinct(GOAL_NAMES) && Distinct(OBLIGATION_NAMES) && Distinct(INVARIANT_NAMES)
    ensures Distinct(CONSTRAINT_NAMES) && Distinct(TOOL_NAMES) && Distinct(MEMORY_NAMES)
    ensures Distinct(BUDGET_NAMES) && Distinct(RELEASE_NAMES) && Distinct(TELEMETRY_NAMES)
  {
    assert RELEASE_NAMES[0][0] != RELEASE_NAMES[1][0];
  }

  lemma EipNamesDistinct()
    ensures Distinct(EIP_NAMES)
  {
    assert EIP_NAMES[1][0] != EIP_NAMES[2][0];
    assert EIP_NAMES[3][0] != EIP_NAMES[4][0];
    assert EIP_NAMES[6][0] != EIP_NAMES[10][0];
  }

  function GoalJson(g: Goal): Json {
    Record(GOAL_NAMES, [Str(g.description), StrList(g.successCriteria)])
  }

  function ObligationJson(o: ProofObligation): Json {
    Record(OBLIGATION_NAMES, [Str(o.id), Str(KindText(o.kind)), Str(o.description)])
  }

  function InvariantsJson(i: Invariants): Json {
    Record(INVARIANT_NAMES, [StrList(i.security), StrList(i.performance), StrList(i.functional)])
  }

  function ConstraintsJson(c: Constraints): Json {
    Record(CONSTRAINT_NAMES, [StrList(c.security), StrList(c.privacy), StrList(c.operational)])
  }

  function ToolsJson(t: ToolPermissions): Json {
    Record(TOOL_NAMES, [StrList(t.allowed), StrList(t.denied)])
  }

  function MemoryJson(m: MemoryRequirement): Json {
    Record(MEMORY_NAMES, [Str(m.scope), Str(m.purpose), Int(m.maxPayloadSize)])
  }

  function BudgetJson(b: ModelBudget): Json {
    Record(BUDGET_NAMES, [Int(b.maxTokens), Float(b.maxCost), Int(b.maxLoopDepth)])
  }

  function StrategyJson(s: Option<string>): Json {
    match s case None => Null case Some(text) => Str(text)
  }

  function ReleaseJson(r: ReleaseRequirements): Json {
    Record(RELEASE_NAMES, [Bool(r.required), StrategyJson(r.strategy), StrList(r.gates)])
  }

  function TelemetryJson(t: TelemetryRequirements): Json {
    Record(TELEMETRY_NAMES, [Bool(t.required), StrList(t.signals)])
  }

  function EipFields(e: Eip): seq<Json> {
    [Str(e.version), Str(e.name), GoalJson(e.goal), StrList(e.nonGoals), Str(RiskText(e.riskTier)),
     Str(AutonomyText(e.autonomyTier)), StrList(e.scopeBoundaries), InvariantsJson(e.invariants),
     ConstraintsJson(e.constraints), ListJson(e.obligations, ObligationJson), ToolsJson(e.tools),
     ListJson(e.memory, MemoryJson), BudgetJson(e.budget), ReleaseJson(e.release), TelemetryJson(e.telemetry)]
  }

  /** `eip.model_dump(mode="json")` */
  function EipJson(e: Eip): Json {
    Record(EIP_NAMES, EipFields(e))
  }

  // ---------------------------------------------------------------------------------------------
  // Documents are equal as JSON exactly when they are equal

  lemma Records3Equal(names: seq<string>, a: seq<Json>, b: seq<Json>)
    requires |names| == |a| == |b| == 3 && Distinct(names)
    ensures PyEq(Record(names, a), Record(names, b)) <==> PyEq(a[0], b[0]) && PyEq(a[1], b[1]) && PyEq(a[2], b[2])
  {
    RecordsEqual(names, a, b);
    if PyEq(a[0], b[0]) && PyEq(a[1], b[1]) && PyEq(a[2], b[2]) {
      forall i | 0 <= i < |a| ensures PyEq(a[i], b[i]) {
        assert i == 0 || i == 1 || i == 2;
      }
    }
  }

  lemma GoalsEqual(a: Goal, b: Goal)
    ensures PyEq(GoalJson(a), GoalJson(b)) <==> a == b
  {
    SectionNamesDistinct();
    RecordsEqual(GOAL_NAMES, [Str(a.description), StrList(a.successCriteria)],
                 [Str(b.description), StrList(b.successCriteria)]);
    StrListsEqual(a.successCriteria, b.successCriteria);
  }

  lemma ObligationsEqual(a: ProofObligation, b: ProofObligation)
    ensures PyEq(ObligationJson(a), ObligationJson(b)) <==> a == b
  {
    SectionNamesDistinct();
    Records3Equal(OBLIGATION_NAMES, [Str(a.id), Str(KindText(a.kind)), Str(a.description)],
                 [Str(b.id), Str(KindText(b.kind)), Str(b.description)]);
    if KindText(a.kind) == KindText(b.kind) {
      KindTextInjective(a.kind, b.kind);
    }
  }

  lemma InvariantsEqual(a: Invariants, b: Invariants)
    ensures PyEq(InvariantsJson(a), InvariantsJson(b)) <==> a == b
  {
    SectionNamesDistinct();
    Records3Equal(INVARIANT_NAMES, [StrList(a.security), StrList(a.performance), StrList(a.functional)],
                 [StrList(b.security), StrList(b.performance), StrList(b.functional)]);
    StrListsEqual(a.security, b.security);
    StrListsEqual(a.performance, b.performance);
    StrListsEqual(a.functional, b.functional);
  }

  lemma ConstraintsEqual(a: Constraints, b: Constraints)
    ensures PyEq(ConstraintsJson(a), ConstraintsJson(b)) <==> a == b
  {
    SectionNamesDistinct();
    Records3Equal(CONSTRAINT_NAMES, [StrList(a.security), StrList(a.privacy), StrList(a.operational)],
                 [StrList(b.security), StrList(b.privacy), StrList(b.operational)]);
    StrListsEqual(a.security, b.security);
    StrListsEqual(a.privacy, b.privacy);
    StrListsEqual(a.operational, b.operational);
  }

  lemma ToolsEqual(a: ToolPermissions, b: ToolPermissions)
    ensures PyEq(ToolsJson(a), ToolsJson(b)) <==> a == b
  {
    SectionNamesDistinct();
    RecordsEqual(TOOL_NAMES, [StrList(a.allowed), StrList(a.denied)], [StrList(b.allowed), StrList(b.denied)]);
    StrListsEqual(a.allowed, b.allowed);
    StrListsEqual(a.denied, b.denied);
  }

  lemma MemoryEqual(a: MemoryRequirement, b: MemoryRequirement)
    ensures PyEq(MemoryJson(a), MemoryJson(b)) <==> a == b
  {
    SectionNamesDistinct();
    Records3Equal(MEMORY_NAMES, [Str(a.scope), Str(a.purpose), Int(a.maxPayloadSize)],
                 [Str(b.scope), Str(b.purpose), Int(b.maxPayloadSize)]);
  }

  lemma BudgetsEqual(a: ModelBudget, b: ModelBudget)
    ensures PyEq(BudgetJson(a), BudgetJson(b)) <==> a == b
  {
    SectionNamesDistinct();
    Records3Equal(BUDGET_NAMES, [Int(a.maxTokens), Float(a.maxCost), Int(a.maxLoopDepth)],
                 [Int(b.maxTokens), Float(b.maxCost), Int(b.maxLoopDepth)]);
  }

  lemma ReleasesEqual(a: ReleaseRequirements, b: ReleaseRequirements)
    ensures PyEq(ReleaseJson(a), ReleaseJson(b)) <==> a == b
  {
    SectionNamesDistinct();
    Records3Equal(RELEASE_NAMES, [Bool(a.required), StrategyJson(a.strategy), StrList(a.gates)],
                 [Bool(b.required), StrategyJson(b.strategy), StrList(b.gates)]);
    StrListsEqual(a.gates, b.gates);
  }

  lemma TelemetryEqual(a: TelemetryRequirements, b: TelemetryRequirements)
    ensures PyEq(TelemetryJson(a), TelemetryJson(b)) <==> a == b
  {
    SectionNamesDistinct();
    RecordsEqual(TELEMETRY_NAMES, [Bool(a.required), StrList(a.signals)], [Bool(b.required), StrList(b.signals)]);
    StrListsEqual(a.signals, b.signals);
  }

  lemma TiersEqual(a: Eip, b: Eip)
    ensures RiskText(a.riskTier) == RiskText(b.riskTier) <==> a.riskTier == b.riskTier
    ensures AutonomyText(a.autonomyTier) == AutonomyText(b.autonomyTier) <==> a.autonomyTier == b.autonomyTier
  {
    assert RiskText(a.riskTier)[0] == match a.riskTier case LowRisk => 'l' case MediumRisk => 'm' case HighRisk => 'h';
    assert RiskText(b.riskTier)[0] == match b.riskTier case LowRisk => 'l' case MediumRisk => 'm' case HighRisk => 'h';
    AutonomyTextShape(a.autonomyTier);
    AutonomyTextShape(b.autonomyTier);
  }

  lemma AutonomyTextShape(t: AutonomyTier)
    ensures AutonomyText(t)[1] == match t
                                  case Manual => 'a' case Assisted => 's' case Bounded => 'o' case Autonomous => 'u'
  {
  }

  lemma SectionsEqual(a: Eip, b: Eip)
    ensures (forall i :: 0 <= i < |EipFields(a)| ==> PyEq(EipFields(a)[i], EipFields(b)[i])) <==> a == b
  {
    var x, y := EipFields(a), EipFields(b);
    if forall i :: 0 <= i < |x| ==> PyEq(x[i], y[i]) {
      assert PyEq(x[0], y[0]) && PyEq(x[1], y[1]) && PyEq(x[2], y[2]) && PyEq(x[3], y[3]) && PyEq(x[4], y[4]);
      assert PyEq(x[5], y[5]) && PyEq(x[6], y[6]) && PyEq(x[7], y[7]) && PyEq(x[8], y[8]) && PyEq(x[9], y[9]);
      assert PyEq(x[10], y[10]) && PyEq(x[11], y[11]) && PyEq(x[12], y[12]) && PyEq(x[13], y[13]) && PyEq(x[14], y[14]);
      ScalarSectionsEqual(a, b);
      StructuredSectionsEqual(a, b);
    }
    if a == b {
      forall i | 0 <= i < |x| ensures PyEq(x[i], y[i]) {
        PyEqReflexive(x[i]);
      }
    }
  }

  lemma ScalarSectionsEqual(a: Eip, b: Eip)
    requires PyEq(Str(a.version), Str(b.version)) && PyEq(Str(a.name), Str(b.name))
    requires PyEq(GoalJson(a.goal), GoalJson(b.goal)) && PyEq(StrList(a.nonGoals), StrList(b.nonGoals))
    requires PyEq(Str(RiskText(a.riskTier)), Str(RiskText(b.riskTier)))
    requires PyEq(Str(AutonomyText(a.autonomyTier)), Str(AutonomyText(b.autonomyTier)))
    requires PyEq(StrList(a.scopeBoundaries), StrList(b.scopeBoundaries))
    ensures a.version == b.version && a.name == b.name && a.goal == b.goal && a.nonGoals == b.nonGoals
    ensures a.riskTier == b.riskTier && a.autonomyTier == b.autonomyTier && a.scopeBoundaries == b.scopeBoundaries
  {
    GoalsEqual(a.goal, b.goal);
    StrListsEqual(a.nonGoals, b.nonGoals);
    TiersEqual(a, b);
    StrListsEqual(a.scopeBoundaries, b.scopeBoundaries);
  }

  lemma StructuredSectionsEqual(a: Eip, b: Eip)
    requires PyEq(InvariantsJson(a.invariants), InvariantsJson(b.invariants))
    requires PyEq(ConstraintsJson(a.constraints), ConstraintsJson(b.constraints))
    requires PyEq(ListJson(a.obligations, ObligationJson), ListJson(b.obligations, ObligationJson))
    requires PyEq(ToolsJson(a.tools), ToolsJson(b.tools))
    requires PyEq(ListJson(a.memory, MemoryJson), ListJson(b.memory, MemoryJson))
    requires PyEq(BudgetJson(a.budget), BudgetJson(b.budget)) && PyEq(ReleaseJson(a.release), ReleaseJson(b.release))
    requires PyEq(TelemetryJson(a.telemetry), TelemetryJson(b.telemetry))
    ensures a.invariants == b.invariants && a.constraints == b.constraints && a.obligations == b.obligations
    ensures a.tools == b.tools && a.memory == b.memory && a.budget == b.budget && a.release == b.release
    ensures a.telemetry == b.telemetry
  {
    InvariantsEqual(a.invariants, b.invariants);
    ConstraintsEqual(a.constraints, b.constraints);
    ObligationListsEqual(a.obligations, b.obligations);
    ToolsEqual(a.tools, b.tools);
    MemoryListsEqual(a.memory, b.memory);
    BudgetsEqual(a.budget, b.budget);
    ReleasesEqual(a.release, b.release);
    TelemetryEqual(a.telemetry, b.telemetry);
  }

  lemma ObligationListsEqual(a: seq<ProofObligation>, b: seq<ProofObligation>)
    ensures PyEq(ListJson(a, ObligationJson), ListJson(b, ObligationJson)) <==> a == b
  {
    forall x, y ensures PyEq(ObligationJson(x), ObligationJson(y)) <==> x == y {
      ObligationsEqual(x, y);
    }
    ListsEqual(a, b, ObligationJson);
  }

  lemma MemoryListsEqual(a: seq<MemoryRequirement>, b: seq<MemoryRequirement>)
    ensures PyEq(ListJson(a, MemoryJson), ListJson(b, MemoryJson)) <==> a == b
  {
    forall x, y ensures PyEq(MemoryJson(x), MemoryJson(y)) <==> x == y {
      MemoryEqual(x, y);
    }
    ListsEqual(a, b, MemoryJson);
  }

  lemma EipsEqual(a: Eip, b: Eip)
    ensures PyEq(EipJson(a), EipJson(b)) <==> a == b
  {
    EipNamesDistinct();
    RecordsEqual(EIP_NAMES, EipFields(a), EipFields(b));
    SectionsEqual(a, b);
  }

  /** `diff_eips`: no change is reported exactly when the documents are equal up to the order of
      the lists that the normal form sorts. */
  method DiffEips(old_: Eip, new_: Eip) returns (changes: seq<Change<string>>)
    ensures changes == Texts("", Diff(EipJson(Normalized(old_)), EipJson(Normalized(new_))))
    ensures changes == [] <==> SameUpToOrder(old_, new_)
  {
    var a := NormalizeEip(old_);
    var b := NormalizeEip(new_);
    changes := DiffValues("", EipJson(a), EipJson(b));
    NoChanges(EipJson(a), EipJson(b));
    EipsEqual(a, b);
    NormalFormIsCanonical(old_, new_);
  }

  // ---------------------------------------------------------------------------------------------
  // The reported text of an EIP diff can be replayed

  ghost predicate PlainNames(names: seq<string>) {
    forall i :: 0 <= i < |names| ==> names[i] != "" && PlainKey(names[i])
  }

  lemma GoalNamesPlain()
    ensures PlainNames(GOAL_NAMES)
  {
  }

  lemma ObligationNamesPlain()
    ensures PlainNames(OBLIGATION_NAMES)
  {
  }

  lemma InvariantNamesPlain()
    ensures PlainNames(INVARIANT_NAMES)
  {
  }

  lemma ConstraintNamesPlain()
    ensures PlainNames(CONSTRAINT_NAMES)
  {
  }

  lemma MemoryNamesPlain()
    ensures PlainNames(MEMORY_NAMES)
  {
  }

  lemma BudgetNamesPlain()
    ensures PlainNames(BUDGET_NAMES)
  {
  }

  lemma SmallNamesPlain()
    ensures PlainNames(TOOL_NAMES) && PlainNames(RELEASE_NAMES) && PlainNames(TELEMETRY_NAMES)
  {
  }

  lemma EipNamesPlain()
    ensures PlainNames(EIP_NAMES)
  {
    assert PlainNames(EIP_NAMES[..5]);
    assert PlainNames(EIP_NAMES[5..9]);
    assert PlainNames(EIP_NAMES[9..12]);
    assert PlainNames(EIP_NAMES[12..]);
    PlainPieces(EIP_NAMES, 5, 9, 12);
  }

  lemma PlainPieces(names: seq<string>, i: nat, j: nat, k: nat)
    requires i <= j <= k <= |names|
    requires PlainNames(names[..i]) && PlainNames(names[i..j]) && PlainNames(names[j..k]) && PlainNames(names[k..])
    ensures PlainNames(names)
  {
    forall n | 0 <= n < |names| ensures names[n] != "" && PlainKey(names[n]) {
      if n < i {
        assert names[n] == names[..i][n];
      } else if n < j {
        assert names[n] == names[i..j][n - i];
      } else if n < k {
        assert names[n] == names[j..k][n - j];
      } else {
        assert names[n] == names[k..][n - k];
      }
    }
  }

  lemma RecordPlain(names: seq<string>, values: seq<Json>)
    requires |names| == |values| && Distinct(names) && PlainNames(names)
    requires forall i :: 0 <= i < |values| ==> PlainJson(values[i])
    ensures PlainJson(Record(names, values))
  {
    RecordFields(names, values);
    var m := Record(names, values).fields;
    forall k | k in m ensures k != "" && PlainKey(k) && PlainJson(m[k]) {
      var i :| 0 <= i < |names| && names[i] == k;
    }
  }

  lemma GoalPlain(g: Goal)
    ensures PlainJson(GoalJson(g))
  {
    SectionNamesDistinct();
    GoalNamesPlain();
    RecordPlain(GOAL_NAMES, [Str(g.description), StrList(g.successCriteria)]);
  }

  lemma InvariantsPlain(i: Invariants)
    ensures PlainJson(InvariantsJson(i))
  {
    SectionNamesDistinct();
    InvariantNamesPlain();
    RecordPlain(INVARIANT_NAMES, [StrList(i.security), StrList(i.performance), StrList(i.functional)]);
  }

  lemma ConstraintsPlain(c: Constraints)
    ensures PlainJson(ConstraintsJson(c))
  {
    SectionNamesDistinct();
    ConstraintNamesPlain();
    RecordPlain(CONSTRAINT_NAMES, [StrList(c.security), StrList(c.privacy), StrList(c.operational)]);
  }

  lemma SmallSectionsPlain(t: ToolPermissions, r: ReleaseRequirements, m: TelemetryRequirements)
    ensures PlainJson(ToolsJson(t)) && PlainJson(ReleaseJson(r)) && PlainJson(TelemetryJson(m))
  {
    SectionNamesDistinct();
    SmallNamesPlain();
    RecordPlain(TOOL_NAMES, [StrList(t.allowed), StrList(t.denied)]);
    RecordPlain(RELEASE_NAMES, [Bool(r.required), StrategyJson(r.strategy), StrList(r.gates)]);
    RecordPlain(TELEMETRY_NAMES, [Bool(m.required), StrList(m.signals)]);
  }

  lemma BudgetPlain(b: ModelBudget)
    ensures PlainJson(BudgetJson(b))
  {
    SectionNamesDistinct();
    BudgetNamesPlain();
    RecordPlain(BUDGET_NAMES, [Int(b.maxTokens), Float(b.maxCost), Int(b.maxLoopDepth)]);
  }

  lemma ObligationsPlain(s: seq<ProofObligation>)
    ensures PlainJson(ListJson(s, ObligationJson))
  {
    SectionNamesDistinct();
    ObligationNamesPlain();
    forall o: ProofObligation ensures PlainJson(ObligationJson(o)) {
      RecordPlain(OBLIGATION_NAMES, [Str(o.id), Str(KindText(o.kind)), Str(o.description)]);
    }
  }

  lemma MemoryPlain(s: seq<MemoryRequirement>)
    ensures PlainJson(ListJson(s, MemoryJson))
  {
    SectionNamesDistinct();
    MemoryNamesPlain();
    forall m: MemoryRequirement ensures PlainJson(MemoryJson(m)) {
      RecordPlain(MEMORY_NAMES, [Str(m.scope), Str(m.purpose), Int(m.maxPayloadSize)]);
    }
  }

  lemma EipPlain(e: Eip)
    ensures PlainJson(EipJson(e))
  {
    GoalPlain(e.goal);
    InvariantsPlain(e.invariants);
    ConstraintsPlain(e.constraints);
    SmallSectionsPlain(e.tools, e.release, e.telemetry);
    BudgetPlain(e.budget);
    ObligationsPlain(e.obligations);
    MemoryPlain(e.memory);
    EipNamesDistinct();
    EipNamesPlain();
    RecordPlain(EIP_NAMES, EipFields(e));
  }

  /** The change list of `diff_eips`, read as text, rebuilds the new normal form from the old one. */
  lemma EipDiffReplays(old_: Eip, new_: Eip)
    ensures var a, b := EipJson(Normalized(old_)), EipJson(Normalized(new_));
      PyEq(Replay(a, ReadAll(Texts("", Diff(a, b)))), b)
  {
    EipPlain(Normalized(old_));
    EipPlain(Normalized(new_));
    TextReplayLosesNothing(EipJson(Normalized(old_)), EipJson(Normalized(new_)));
  }
}
