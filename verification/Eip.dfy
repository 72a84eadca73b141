/** The Engineering Intent Protocol document, its normal form, and the diff of two documents. */
module Eip {
  import opened Wrappers
  import opened Ordering
  import opened JsonDiff

  datatype RiskTier = LowRisk | MediumRisk | HighRisk

  datatype AutonomyTier = Manual | Assisted | Bounded | Autonomous

  datatype ProofKind =
    | UnitProof | PropertyProof | ContractProof | SecurityProof | PerformanceProof
    | PolicyProof | ReleaseProof | TelemetryProof | ManualGate

  datatype Goal = Goal(description: string, successCriteria: seq<string>)

  datatype ProofObligation = ProofObligation(id: string, kind: ProofKind, description: string)

  datatype Invariants = Invariants(security: seq<string>, performance: seq<string>, functional: seq<string>)

  datatype Constraints = Constraints(security: seq<string>, privacy: seq<string>, operational: seq<string>)

  datatype ToolPermissions = ToolPermissions(allowed: seq<string>, denied: seq<string>)

  datatype MemoryRequirement = MemoryRequirement(scope: string, purpose: string, maxPayloadSize: int)

  datatype ModelBudget = ModelBudget(maxTokens: int, maxCost: real, maxLoopDepth: int)

  datatype ReleaseRequirements = ReleaseRequirements(required: bool, strategy: Option<string>, gates: seq<string>)

  datatype TelemetryRequirements = TelemetryRequirements(required: bool, signals: seq<string>)

  datatype Eip = Eip(
    version: string,
    name: string,
    goal: Goal,
    nonGoals: seq<string>,
    riskTier: RiskTier,
    autonomyTier: AutonomyTier,
    scopeBoundaries: seq<string>,
    invariants: Invariants,
    constraints: Constraints,
    obligations: seq<ProofObligation>,
    tools: ToolPermissions,
    memory: seq<MemoryRequirement>,
    budget: ModelBudget,
    release: ReleaseRequirements,
    telemetry: TelemetryRequirements)

  // ---------------------------------------------------------------------------------------------
  // Orders of the keyed lists

  function RiskText(t: RiskTier): string {
    match t case LowRisk => "low" case MediumRisk => "medium" case HighRisk => "high"
  }

  function AutonomyText(t: AutonomyTier): string {
    match t
    case Manual => "manual"
    case Assisted => "assisted"
    case Bounded => "bounded"
    case Autonomous => "autonomous"
  }

  function KindText(k: ProofKind): string {
    match k
    case UnitProof => "unit"
    case PropertyProof => "property"
    case ContractProof => "contract"
    case SecurityProof => "security"
    case PerformanceProof => "performance"
    case PolicyProof => "policy"
    case ReleaseProof => "release"
    case TelemetryProof => "telemetry"
    case ManualGate => "manual_gate"
  }

  lemma KindTextInjective(a: ProofKind, b: ProofKind)
    requires KindText(a) == KindText(b)
    ensures a == b
  {
    KindTextShape(a);
    KindTextShape(b);
  }

  /** Length and one letter tell the kinds apart. */
  lemma KindTextShape(k: ProofKind)
    ensures |KindText(k)| == match k
      case UnitProof => 4 case PropertyProof => 8 case ContractProof => 8 case SecurityProof => 8
      case PerformanceProof => 11 case PolicyProof => 6 case ReleaseProof => 7 case TelemetryProof => 9
      case ManualGate => 11
    ensures KindText(k)[0] == match k
      case UnitProof => 'u' case PropertyProof => 'p' case ContractProof => 'c' case SecurityProof => 's'
      case PerformanceProof => 'p' case PolicyProof => 'p' case ReleaseProof => 'r' case TelemetryProof => 't'
      case ManualGate => 'm'
  {
  }

  /** The tuple (id, kind, description). */
  predicate ObligationLe(a: ProofObligation, b: ProofObligation) {
    if a.id != b.id then LexLe(a.id, b.id)
    else if KindText(a.kind) != KindText(b.kind) then LexLe(KindText(a.kind), KindText(b.kind))
    else LexLe(a.description, b.description)
  }

  /** The tuple (scope, purpose, max_payload_size). */
  predicate MemoryLe(a: MemoryRequirement, b: MemoryRequirement) {
    if a.scope != b.scope then LexLe(a.scope, b.scope)
    else if a.purpose != b.purpose then LexLe(a.purpose, b.purpose)
    else a.maxPayloadSize <= b.maxPayloadSize
  }

  lemma ObligationsOrdered()
    ensures TotalOrder(ObligationLe)
  {
    LexIsTotalOrder();
    forall a, b | ObligationLe(a, b) && ObligationLe(b, a) ensures a == b {
      KindTextInjective(a.kind, b.kind);
    }
  }

  lemma MemoryOrdered()
    ensures TotalOrder(MemoryLe)
  {
    LexIsTotalOrder();
  }

  // ---------------------------------------------------------------------------------------------
  // The normal form

  function Normalized(e: Eip): Eip {
    e.(nonGoals := SortStrings(e.nonGoals),
       scopeBoundaries := SortStrings(e.scopeBoundaries),
       invariants := Invariants(SortStrings(e.invariants.security), SortStrings(e.invariants.performance),
                                SortStrings(e.invariants.functional)),
       constraints := Constraints(SortStrings(e.constraints.security), SortStrings(e.constraints.privacy),
                                  SortStrings(e.constraints.operational)),
       obligations := SortBy(e.obligations, ObligationLe),
       tools := ToolPermissions(SortStrings(e.tools.allowed), SortStrings(e.tools.denied)),
       memory := SortBy(e.memory, MemoryLe),
       release := e.release.(gates := SortStrings(e.release.gates)),
       telemetry := e.telemetry.(signals := SortStrings(e.telemetry.signals)))
  }

  /** `normalize_eip`: the dumped document is overwritten entry by entry. */
  method NormalizeEip(e: Eip) returns (data: Eip)
    ensures data == Normalized(e)
  {
    data := e;
    data := data.(nonGoals := SortStrings(data.nonGoals));
    data := data.(scopeBoundaries := SortStrings(data.scopeBoundaries));
    data := data.(invariants := data.invariants.(security := SortStrings(data.invariants.security)));
    data := data.(invariants := data.invariants.(performance := SortStrings(data.invariants.performance)));
    data := data.(invariants := data.invariants.(functional := SortStrings(data.invariants.functional)));
    data := data.(constraints := data.constraints.(security := SortStrings(data.constraints.security)));
    data := data.(constraints := data.constraints.(privacy := SortStrings(data.constraints.privacy)));
    data := data.(constraints := data.constraints.(operational := SortStrings(data.constraints.operational)));
    data := data.(obligations := SortBy(data.obligations, ObligationLe));
    data := data.(tools := data.tools.(allowed := SortStrings(data.tools.allowed)));
    data := data.(tools := data.tools.(denied := SortStrings(data.tools.denied)));
    data := data.(memory := SortBy(data.memory, MemoryLe));
    data := data.(release := data.release.(gates := SortStrings(data.release.gates)));
    data := data.(telemetry := data.telemetry.(signals := SortStrings(data.telemetry.signals)));
  }

  /** Normalising twice is the same as normalising once. */
  lemma NormalizeTwice(e: Eip)
    ensures Normalized(Normalized(e)) == Normalized(e)
  {
    SortStringsTwice(e.nonGoals);
    SortStringsTwice(e.scopeBoundaries);
    SortStringsTwice(e.invariants.security);
    SortStringsTwice(e.invariants.performance);
    SortStringsTwice(e.invariants.functional);
    SortStringsTwice(e.constraints.security);
    SortStringsTwice(e.constraints.privacy);
    SortStringsTwice(e.constraints.operational);
    SortStringsTwice(e.tools.allowed);
    SortStringsTwice(e.tools.denied);
    SortStringsTwice(e.release.gates);
    SortStringsTwice(e.telemetry.signals);
    ObligationsOrdered();
    SortSorts(e.obligations, ObligationLe);
    SortOfSorted(SortBy(e.obligations, ObligationLe), ObligationLe);
    MemoryOrdered();
    SortSorts(e.memory, MemoryLe);
    SortOfSorted(SortBy(e.memory, MemoryLe), MemoryLe);
  }

  predicate Permuted<T(==)>(a: seq<T>, b: seq<T>) {
    multiset(a) == multiset(b)
  }

  /** Equal except for the order of the lists whose order carries no meaning. */
  predicate SameUpToOrder(a: Eip, b: Eip) {
    && a.version == b.version && a.name == b.name && a.goal == b.goal
    && a.riskTier == b.riskTier && a.autonomyTier == b.autonomyTier && a.budget == b.budget
    && Permuted(a.nonGoals, b.nonGoals)
    && Permuted(a.scopeBoundaries, b.scopeBoundaries)
    && Permuted(a.invariants.security, b.invariants.security)
    && Permuted(a.invariants.performance, b.invariants.performance)
    && Permuted(a.invariants.functional, b.invariants.functional)
    && Permuted(a.constraints.security, b.constraints.security)
    && Permuted(a.constraints.privacy, b.constraints.privacy)
    && Permuted(a.constraints.operational, b.constraints.operational)
    && Permuted(a.obligations, b.obligations)
    && Permuted(a.tools.allowed, b.tools.allowed)
    && Permuted(a.tools.denied, b.tools.denied)
    && Permuted(a.memory, b.memory)
    && a.release.required == b.release.required && a.release.strategy == b.release.strategy
    && Permuted(a.release.gates, b.release.gates)
    && a.telemetry.required == b.telemetry.required
    && Permuted(a.telemetry.signals, b.telemetry.signals)
  }

  /** The normal form identifies exactly the documents that are equal up to order. */
  lemma NormalFormIsCanonical(a: Eip, b: Eip)
    ensures Normalized(a) == Normalized(b) <==> SameUpToOrder(a, b)
  {
    SortStringsCanonical(a.nonGoals, b.nonGoals);
    SortStringsCanonical(a.scopeBoundaries, b.scopeBoundaries);
    SortStringsCanonical(a.invariants.security, b.invariants.security);
    SortStringsCanonical(a.invariants.performance, b.invariants.performance);
    SortStringsCanonical(a.invariants.functional, b.invariants.functional);
    SortStringsCanonical(a.constraints.security, b.constraints.security);
    SortStringsCanonical(a.constraints.privacy, b.constraints.privacy);
    SortStringsCanonical(a.constraints.operational, b.constraints.operational);
    SortStringsCanonical(a.tools.allowed, b.tools.allowed);
    SortStringsCanonical(a.tools.denied, b.tools.denied);
    SortStringsCanonical(a.release.gates, b.release.gates);
    SortStringsCanonical(a.telemetry.signals, b.telemetry.signals);
    KeyedListsCanonical(a, b);
  }

  lemma KeyedListsCanonical(a: Eip, b: Eip)
    ensures SortBy(a.obligations, ObligationLe) == SortBy(b.obligations, ObligationLe) <==>
      Permuted(a.obligations, b.obligations)
    ensures SortBy(a.memory, MemoryLe) == SortBy(b.memory, MemoryLe) <==> Permuted(a.memory, b.memory)
  {
    ObligationsOrdered();
    SortCanonical(a.obligations, b.obligations, ObligationLe);
    MemoryOrdered();
    SortCanonical(a.memory, b.memory, MemoryLe);
  }

  // ---------------------------------------------------------------------------------------------
  // The document as JSON

  /** An object with the given field names, which differ in length or in their first letter. */
  function Record(names: seq<string>, values: seq<Json>): Json
    requires |names| == |values|
  {
    if names == [] then Obj(map[])
    else
      var n := |names| - 1;
      Obj(Record(names[..n], values[..n]).fields[names[n] := values[n]])
  }

  ghost predicate Distinct(names: seq<string>) {
    forall i, j :: 0 <= i < j < |names| ==> names[i] != names[j]
  }

  lemma {:induction false} RecordFields(names: seq<string>, values: seq<Json>)
    requires |names| == |values| && Distinct(names)
    ensures Record(names, values).Obj?
    ensures forall k :: k in Record(names, values).fields <==> k in names
    ensures forall i :: 0 <= i < |names| ==> Record(names, values).fields[names[i]] == values[i]
  {
    if names != [] {
      var n := |names| - 1;
      RecordFields(names[..n], values[..n]);
      assert names == names[..n] + [names[n]];
    }
  }

  lemma RecordsEqual(names: seq<string>, a: seq<Json>, b: seq<Json>)
    requires |names| == |a| == |b| && Distinct(names)
    ensures PyEq(Record(names, a), Record(names, b)) <==> forall i :: 0 <= i < |a| ==> PyEq(a[i], b[i])
  {
    RecordFields(names, a);
    RecordFields(names, b);
    var ra, rb := Record(names, a).fields, Record(names, b).fields;
    if PyEq(Record(names, a), Record(names, b)) {
      forall i | 0 <= i < |a| ensures PyEq(a[i], b[i]) {
        assert names[i] in ra;
        assert PyEq(ra[names[i]], rb[names[i]]);
      }
    }
    if forall i :: 0 <= i < |a| ==> PyEq(a[i], b[i]) {
      forall k | k in ra ensures k in rb && PyEq(ra[k], rb[k]) {
        var i :| 0 <= i < |names| && names[i] == k;
        assert PyEq(a[i], b[i]);
      }
      assert ra.Keys == rb.Keys;
    }
  }

  function StrList(s: seq<string>): Json {
    Arr(seq(|s|, i requires 0 <= i < |s| => Str(s[i])))
  }

  lemma StrListsEqual(a: seq<string>, b: seq<string>)
    ensures PyEq(StrList(a), StrList(b)) <==> a == b
  {
    if PyEq(StrList(a), StrList(b)) {
      forall i | 0 <= i < |a| ensures a[i] == b[i] {
        assert PyEq(StrList(a).items[i], StrList(b).items[i]);
      }
    }
  }

  function ListJson<T>(s: seq<T>, f: T -> Json): Json {
    Arr(seq(|s|, i requires 0 <= i < |s| => f(s[i])))
  }

  lemma ListsEqual<T(!new)>(a: seq<T>, b: seq<T>, f: T -> Json)
    requires forall x, y :: PyEq(f(x), f(y)) <==> x == y
    ensures PyEq(ListJson(a, f), ListJson(b, f)) <==> a == b
  {
    if PyEq(ListJson(a, f), ListJson(b, f)) {
      forall i | 0 <= i < |a| ensures a[i] == b[i] {
        assert PyEq(ListJson(a, f).items[i], ListJson(b, f).items[i]);
      }
    } else if a == b {
      PyEqReflexive(ListJson(a, f));
    }
  }
}
