/** The normal form of a document in its orders, and the names under which its dump shows its fields. */
module EipReports {
  import opened Wrappers
  import opened Ordering
  import opened JsonDiff
  import opened Eip
  import opened EipDiff

  // ---------------------------------------------------------------------------------------------
  // Orders

  /** The same strings, letter by letter. */
  ghost predicate SortedFrom(sorted: seq<string>, given: seq<string>) {
    && multiset(sorted) == multiset(given)
    && forall i, j :: 0 <= i < j < |sorted| ==> Alphabetical(sorted[i], sorted[j])
  }

  lemma SortStringsIs(given: seq<string>)
    ensures SortedFrom(SortStrings(given), given)
  {
    var sorted := SortStrings(given);
    LexIsTotalOrder();
    SortPermutes(given, LexLe);
    SortSorts(given, LexLe);
    forall i, j | 0 <= i < j < |sorted| ensures Alphabetical(sorted[i], sorted[j]) {
      LexIsAlphabetical(sorted[i], sorted[j]);
    }
  }

  /** By id, then by the word for the kind, then by description. */
  ghost predicate ObligationsInOrder(a: ProofObligation, b: ProofObligation) {
    || (a.id != b.id && Alphabetical(a.id, b.id))
    || (a.id == b.id && KindText(a.kind) != KindText(b.kind) && Alphabetical(KindText(a.kind), KindText(b.kind)))
    || (a.id == b.id && KindText(a.kind) == KindText(b.kind) && Alphabetical(a.description, b.description))
  }

  /** By scope, then by purpose, then by the smaller size. */
  ghost predicate MemoryInOrder(a: MemoryRequirement, b: MemoryRequirement) {
    || (a.scope != b.scope && Alphabetical(a.scope, b.scope))
    || (a.scope == b.scope && a.purpose != b.purpose && Alphabetical(a.purpose, b.purpose))
    || (a.scope == b.scope && a.purpose == b.purpose && a.maxPayloadSize <= b.maxPayloadSize)
  }

  lemma ObligationsSorted(given: seq<ProofObligation>)
    ensures var sorted := SortBy(given, ObligationLe);
      && multiset(sorted) == multiset(given)
      && forall i, j :: 0 <= i < j < |sorted| ==> ObligationsInOrder(sorted[i], sorted[j])
  {
    hide KindText;
    var sorted := SortBy(given, ObligationLe);
    ObligationsOrdered();
    SortPermutes(given, ObligationLe);
    SortSorts(given, ObligationLe);
    forall i, j | 0 <= i < j < |sorted| ensures ObligationsInOrder(sorted[i], sorted[j]) {
      var a, b := sorted[i], sorted[j];
      LexIsAlphabetical(a.id, b.id);
      LexIsAlphabetical(KindText(a.kind), KindText(b.kind));
      LexIsAlphabetical(a.description, b.description);
    }
  }

  lemma MemorySorted(given: seq<MemoryRequirement>)
    ensures var sorted := SortBy(given, MemoryLe);
      && multiset(sorted) == multiset(given)
      && forall i, j :: 0 <= i < j < |sorted| ==> MemoryInOrder(sorted[i], sorted[j])
  {
    var sorted := SortBy(given, MemoryLe);
    MemoryOrdered();
    SortPermutes(given, MemoryLe);
    SortSorts(given, MemoryLe);
    forall i, j | 0 <= i < j < |sorted| ensures MemoryInOrder(sorted[i], sorted[j]) {
      LexIsAlphabetical(sorted[i].scope, sorted[j].scope);
      LexIsAlphabetical(sorted[i].purpose, sorted[j].purpose);
    }
  }

  /** The lists of the normal form hold what the document holds, each in its order. */
  lemma NormalFormInOrder(e: Eip)
    ensures var n := Normalized(e);
      && SortedFrom(n.nonGoals, e.nonGoals) && SortedFrom(n.scopeBoundaries, e.scopeBoundaries)
      && SortedFrom(n.invariants.security, e.invariants.security)
      && SortedFrom(n.invariants.performance, e.invariants.performance)
      && SortedFrom(n.invariants.functional, e.invariants.functional)
      && SortedFrom(n.constraints.security, e.constraints.security)
      && SortedFrom(n.constraints.privacy, e.constraints.privacy)
      && SortedFrom(n.constraints.operational, e.constraints.operational)
      && SortedFrom(n.tools.allowed, e.tools.allowed) && SortedFrom(n.tools.denied, e.tools.denied)
      && SortedFrom(n.release.gates, e.release.gates) && SortedFrom(n.telemetry.signals, e.telemetry.signals)
      && multiset(n.obligations) == multiset(e.obligations) && multiset(n.memory) == multiset(e.memory)
      && (forall i, j :: 0 <= i < j < |n.obligations| ==> ObligationsInOrder(n.obligations[i], n.obligations[j]))
      && (forall i, j :: 0 <= i < j < |n.memory| ==> MemoryInOrder(n.memory[i], n.memory[j]))
      && n.goal == e.goal && n.budget == e.budget
  {
    hide SortStrings, SortBy, SortedFrom, ObligationsInOrder, MemoryInOrder;
    forall given: seq<string> ensures SortedFrom(SortStrings(given), given) {
      SortStringsIs(given);
    }
    ObligationsSorted(e.obligations);
    MemorySorted(e.memory);
  }

  // ---------------------------------------------------------------------------------------------
  // Names

  function Field(j: Json, name: string): Json {
    if j.Obj? && name in j.fields then j.fields[name] else Null
  }

  lemma FieldOfRecord(names: seq<string>, values: seq<Json>, i: nat, name: string)
    requires |names| == |values| && Distinct(names) && i < |names| && names[i] == name
    ensures Field(Record(names, values), name) == values[i]
  {
    RecordFields(names, values);
    assert names[i] in names;
  }

  lemma DumpField(e: Eip, i: nat, name: string)
    requires i < |EIP_NAMES| && EIP_NAMES[i] == name
    ensures Field(EipJson(e), name) == EipFields(e)[i]
  {
    hide Record, Field, GoalJson, StrList, InvariantsJson, ConstraintsJson, ToolsJson, BudgetJson,
         ReleaseJson, TelemetryJson, RiskText, AutonomyText, ListJson;
    EipNamesDistinct();
    FieldOfRecord(EIP_NAMES, EipFields(e), i, name);
  }

  lemma DumpShowsHead(e: Eip)
    ensures Field(EipJson(e), "version") == Str(e.version)
    ensures Field(EipJson(e), "name") == Str(e.name)
    ensures Field(EipJson(e), "goal") == GoalJson(e.goal)
    ensures Field(EipJson(e), "non_goals") == StrList(e.nonGoals)
    ensures Field(EipJson(e), "risk_tier") == Str(RiskText(e.riskTier))
  {
    hide Record, Field, EipJson, GoalJson, StrList, InvariantsJson, ConstraintsJson, ToolsJson, BudgetJson,
         ReleaseJson, TelemetryJson, RiskText, AutonomyText, ListJson;
    DumpField(e, 0, "version");
    DumpField(e, 1, "name");
    DumpField(e, 2, "goal");
    DumpField(e, 3, "non_goals");
    DumpField(e, 4, "risk_tier");
  }

  lemma DumpShowsBody(e: Eip)
    ensures Field(EipJson(e), "autonomy_tier") == Str(AutonomyText(e.autonomyTier))
    ensures Field(EipJson(e), "scope_boundaries") == StrList(e.scopeBoundaries)
    ensures Field(EipJson(e), "invariants") == InvariantsJson(e.invariants)
    ensures Field(EipJson(e), "constraints") == ConstraintsJson(e.constraints)
    ensures Field(EipJson(e), "proof_obligations") == ListJson(e.obligations, ObligationJson)
  {
    hide Record, Field, EipJson, GoalJson, StrList, InvariantsJson, ConstraintsJson, ToolsJson, BudgetJson,
         ReleaseJson, TelemetryJson, RiskText, AutonomyText, ListJson;
    DumpField(e, 5, "autonomy_tier");
    DumpField(e, 6, "scope_boundaries");
    DumpField(e, 7, "invariants");
    DumpField(e, 8, "constraints");
    DumpField(e, 9, "proof_obligations");
  }

  lemma DumpShowsTail(e: Eip)
    ensures Field(EipJson(e), "tool_permissions") == ToolsJson(e.tools)
    ensures Field(EipJson(e), "memory_requirements") == ListJson(e.memory, MemoryJson)
    ensures Field(EipJson(e), "model_budget") == BudgetJson(e.budget)
    ensures Field(EipJson(e), "release_requirements") == ReleaseJson(e.release)
    ensures Field(EipJson(e), "telemetry_requirements") == TelemetryJson(e.telemetry)
  {
    hide Record, Field, EipJson, GoalJson, StrList, InvariantsJson, ConstraintsJson, ToolsJson, BudgetJson,
         ReleaseJson, TelemetryJson, RiskText, AutonomyText, ListJson;
    DumpField(e, 10, "tool_permissions");
    DumpField(e, 11, "memory_requirements");
    DumpField(e, 12, "model_budget");
    DumpField(e, 13, "release_requirements");
    DumpField(e, 14, "telemetry_requirements");
  }

  /** The dump shows each field under its name. */
  lemma DumpShows(e: Eip)
    ensures var d := EipJson(e);
      && Field(d, "version") == Str(e.version)
      && Field(d, "name") == Str(e.name)
      && Field(d, "goal") == GoalJson(e.goal)
      && Field(d, "non_goals") == StrList(e.nonGoals)
      && Field(d, "risk_tier") == Str(RiskText(e.riskTier))
      && Field(d, "autonomy_tier") == Str(AutonomyText(e.autonomyTier))
      && Field(d, "scope_boundaries") == StrList(e.scopeBoundaries)
      && Field(d, "invariants") == InvariantsJson(e.invariants)
      && Field(d, "constraints") == ConstraintsJson(e.constraints)
      && Field(d, "proof_obligations") == ListJson(e.obligations, ObligationJson)
      && Field(d, "tool_permissions") == ToolsJson(e.tools)
      && Field(d, "memory_requirements") == ListJson(e.memory, MemoryJson)
      && Field(d, "model_budget") == BudgetJson(e.budget)
      && Field(d, "release_requirements") == ReleaseJson(e.release)
      && Field(d, "telemetry_requirements") == TelemetryJson(e.telemetry)
  {
    hide *;
    DumpShowsHead(e);
    DumpShowsBody(e);
    DumpShowsTail(e);
  }

  lemma GoalShows(g: Goal)
    ensures Field(GoalJson(g), "description") == Str(g.description)
    ensures Field(GoalJson(g), "success_criteria") == StrList(g.successCriteria)
  {
    hide Record, Field, StrList, Distinct;
    SectionNamesDistinct();
    FieldOfRecord(GOAL_NAMES, [Str(g.description), StrList(g.successCriteria)], 0, "description");
    FieldOfRecord(GOAL_NAMES, [Str(g.description), StrList(g.successCriteria)], 1, "success_criteria");
  }

  lemma ObligationShows(o: ProofObligation)
    ensures Field(ObligationJson(o), "id") == Str(o.id)
    ensures Field(ObligationJson(o), "kind") == Str(KindText(o.kind))
    ensures Field(ObligationJson(o), "description") == Str(o.description)
  {
    hide Record, Field, StrList, Distinct;
    SectionNamesDistinct();
    FieldOfRecord(OBLIGATION_NAMES, [Str(o.id), Str(KindText(o.kind)), Str(o.description)], 0, "id");
    FieldOfRecord(OBLIGATION_NAMES, [Str(o.id), Str(KindText(o.kind)), Str(o.description)], 1, "kind");
    FieldOfRecord(OBLIGATION_NAMES, [Str(o.id), Str(KindText(o.kind)), Str(o.description)], 2, "description");
  }

  lemma InvariantsShows(v: Invariants)
    ensures Field(InvariantsJson(v), "security") == StrList(v.security)
    ensures Field(InvariantsJson(v), "performance") == StrList(v.performance)
    ensures Field(InvariantsJson(v), "functional") == StrList(v.functional)
  {
    hide Record, Field, StrList, Distinct;
    SectionNamesDistinct();
    var values := [StrList(v.security), StrList(v.performance), StrList(v.functional)];
    FieldOfRecord(INVARIANT_NAMES, values, 0, "security");
    FieldOfRecord(INVARIANT_NAMES, values, 1, "performance");
    FieldOfRecord(INVARIANT_NAMES, values, 2, "functional");
  }

  lemma ConstraintsShows(c: Constraints)
    ensures Field(ConstraintsJson(c), "security") == StrList(c.security)
    ensures Field(ConstraintsJson(c), "privacy") == StrList(c.privacy)
    ensures Field(ConstraintsJson(c), "operational") == StrList(c.operational)
  {
    hide Record, Field, StrList, Distinct;
    SectionNamesDistinct();
    var values := [StrList(c.security), StrList(c.privacy), StrList(c.operational)];
    FieldOfRecord(CONSTRAINT_NAMES, values, 0, "security");
    FieldOfRecord(CONSTRAINT_NAMES, values, 1, "privacy");
    FieldOfRecord(CONSTRAINT_NAMES, values, 2, "operational");
  }

  lemma ToolsShows(t: ToolPermissions)
    ensures Field(ToolsJson(t), "allowed") == StrList(t.allowed)
    ensures Field(ToolsJson(t), "denied") == StrList(t.denied)
  {
    hide Record, Field, StrList, Distinct;
    SectionNamesDistinct();
    FieldOfRecord(TOOL_NAMES, [StrList(t.allowed), StrList(t.denied)], 0, "allowed");
    FieldOfRecord(TOOL_NAMES, [StrList(t.allowed), StrList(t.denied)], 1, "denied");
  }

  lemma MemoryShows(m: MemoryRequirement)
    ensures Field(MemoryJson(m), "scope") == Str(m.scope)
    ensures Field(MemoryJson(m), "purpose") == Str(m.purpose)
    ensures Field(MemoryJson(m), "max_payload_size") == Int(m.maxPayloadSize)
  {
    hide Record, Field, StrList, Distinct;
    SectionNamesDistinct();
    FieldOfRecord(MEMORY_NAMES, [Str(m.scope), Str(m.purpose), Int(m.maxPayloadSize)], 0, "scope");
    FieldOfRecord(MEMORY_NAMES, [Str(m.scope), Str(m.purpose), Int(m.maxPayloadSize)], 1, "purpose");
    FieldOfRecord(MEMORY_NAMES, [Str(m.scope), Str(m.purpose), Int(m.maxPayloadSize)], 2, "max_payload_size");
  }

  lemma BudgetShows(b: ModelBudget)
    ensures Field(BudgetJson(b), "max_tokens") == Int(b.maxTokens)
    ensures Field(BudgetJson(b), "max_cost") == Float(b.maxCost)
    ensures Field(BudgetJson(b), "max_loop_depth") == Int(b.maxLoopDepth)
  {
    hide Record, Field, StrList, Distinct;
    SectionNamesDistinct();
    FieldOfRecord(BUDGET_NAMES, [Int(b.maxTokens), Float(b.maxCost), Int(b.maxLoopDepth)], 0, "max_tokens");
    FieldOfRecord(BUDGET_NAMES, [Int(b.maxTokens), Float(b.maxCost), Int(b.maxLoopDepth)], 1, "max_cost");
    FieldOfRecord(BUDGET_NAMES, [Int(b.maxTokens), Float(b.maxCost), Int(b.maxLoopDepth)], 2, "max_loop_depth");
  }

  lemma ReleaseShows(r: ReleaseRequirements)
    ensures Field(ReleaseJson(r), "required") == Bool(r.required)
    ensures Field(ReleaseJson(r), "strategy") == (match r.strategy case None => Null case Some(text) => Str(text))
    ensures Field(ReleaseJson(r), "gates") == StrList(r.gates)
  {
    hide Record, Field, StrList, Distinct;
    SectionNamesDistinct();
    FieldOfRecord(RELEASE_NAMES, [Bool(r.required), StrategyJson(r.strategy), StrList(r.gates)], 0, "required");
    FieldOfRecord(RELEASE_NAMES, [Bool(r.required), StrategyJson(r.strategy), StrList(r.gates)], 1, "strategy");
    FieldOfRecord(RELEASE_NAMES, [Bool(r.required), StrategyJson(r.strategy), StrList(r.gates)], 2, "gates");
  }

  lemma TelemetryShows(t: TelemetryRequirements)
    ensures Field(TelemetryJson(t), "required") == Bool(t.required)
    ensures Field(TelemetryJson(t), "signals") == StrList(t.signals)
  {
    hide Record, Field, StrList, Distinct;
    SectionNamesDistinct();
    FieldOfRecord(TELEMETRY_NAMES, [Bool(t.required), StrList(t.signals)], 0, "required");
    FieldOfRecord(TELEMETRY_NAMES, [Bool(t.required), StrList(t.signals)], 1, "signals");
  }

  /** The words for the tiers. */
  lemma TierWords()
    ensures RiskText(LowRisk) == "low" && RiskText(MediumRisk) == "medium" && RiskText(HighRisk) == "high"
    ensures AutonomyText(Manual) == "manual" && AutonomyText(Assisted) == "assisted"
    ensures AutonomyText(Bounded) == "bounded" && AutonomyText(Autonomous) == "autonomous"
  {
  }
}
