/** Mapping the obligations of an EIP to test commands and manual gates. */
module ProofPlans {
  import opened Wrappers
  import opened Ordering
  import opened Eip
  import Feedback

  datatype ProofMapping = ProofMapping(obligationId: string, command: string)

  datatype ProofPlan = ProofPlan(version: string, mappings: seq<ProofMapping>, manualGates: seq<string>)

  datatype MapError = NotCovered | DuplicateMappings

  /** `COMMANDS_BY_KIND`; a manual gate has no command. */
  function CommandOf(kind: ProofKind): Option<string> {
    match kind
    case UnitProof => Some("pytest")
    case PropertyProof => Some("pytest")
    case ContractProof => Some("pytest -m contract")
    case SecurityProof => Some("pytest -m security")
    case PerformanceProof => Some("pytest -m performance")
    case PolicyProof => Some("pytest -m policy")
    case ReleaseProof => Some("pytest -m release")
    case TelemetryProof => Some("pytest -m telemetry")
    case ManualGate => None
  }

  predicate IdLe(a: ProofObligation, b: ProofObligation) {
    LexLe(a.id, b.id)
  }

  // ---------------------------------------------------------------------------------------------
  // The plan

  /** `get_mapping` */
  function GetMapping(plan: ProofPlan, id: string): Option<ProofMapping> {
    FirstMapping(plan.mappings, id)
  }

  function FirstMapping(mappings: seq<ProofMapping>, id: string): Option<ProofMapping> {
    if mappings == [] then None
    else if mappings[0].obligationId == id then Some(mappings[0])
    else FirstMapping(mappings[1..], id)
  }

  predicate CoversObligation(plan: ProofPlan, id: string) {
    GetMapping(plan, id).Some? || id in plan.manualGates
  }

  lemma {:induction false} FirstMappingFound(mappings: seq<ProofMapping>, id: string)
    ensures FirstMapping(mappings, id).Some? <==> exists m :: m in mappings && m.obligationId == id
    ensures FirstMapping(mappings, id).Some? ==>
      FirstMapping(mappings, id).value in mappings && FirstMapping(mappings, id).value.obligationId == id
  {
    if mappings != [] && mappings[0].obligationId != id {
      FirstMappingFound(mappings[1..], id);
      assert forall m :: m in mappings <==> m == mappings[0] || m in mappings[1..];
    }
  }

  function MappingIds(mappings: seq<ProofMapping>): seq<string> {
    seq(|mappings|, i requires 0 <= i < |mappings| => mappings[i].obligationId)
  }

  // ---------------------------------------------------------------------------------------------
  // Mapping

  predicate HasClaims(e: Eip) {
    |e.invariants.security| + |e.invariants.performance| + |e.invariants.functional| + |e.goal.successCriteria| > 0
  }

  predicate Covered(e: Eip) {
    HasClaims(e) ==> e.obligations != []
  }

  /** The mappings and gates of the first `n` obligations, in their order. */
  ghost function MappingsOf(obligations: seq<ProofObligation>, n: nat): seq<ProofMapping>
    requires n <= |obligations|
  {
    if n == 0 then []
    else
      var o := obligations[n - 1];
      MappingsOf(obligations, n - 1)
        + if CommandOf(o.kind).Some? then [ProofMapping(o.id, CommandOf(o.kind).value)] else []
  }

  ghost function GatesOf(obligations: seq<ProofObligation>, n: nat): seq<string>
    requires n <= |obligations|
  {
    if n == 0 then []
    else GatesOf(obligations, n - 1) + if obligations[n - 1].kind == ManualGate then [obligations[n - 1].id] else []
  }

  ghost function PlanOf(e: Eip): ProofPlan {
    var sorted := SortBy(e.obligations, IdLe);
    ProofPlan(e.version, MappingsOf(sorted, |sorted|), GatesOf(sorted, |sorted|))
  }

  /** `map_proofs`; the constructor of the plan rejects repeated mappings. */
  method MapProofs(e: Eip) returns (r: Result<ProofPlan, MapError>)
    ensures !Covered(e) ==> r == Failure(NotCovered)
    ensures Covered(e) && !UniqueCommands(e) ==> r == Failure(DuplicateMappings)
    ensures Covered(e) && UniqueCommands(e) ==> r == Success(PlanOf(e))
  {
    if HasClaims(e) && |e.obligations| == 0 {
      return Failure(NotCovered);
    }
    var sorted := SortBy(e.obligations, IdLe);
    var mappings: seq<ProofMapping>, gates: seq<string> := [], [];
    for i := 0 to |sorted|
      invariant mappings == MappingsOf(sorted, i) && gates == GatesOf(sorted, i)
    {
      var o := sorted[i];
      if o.kind == ManualGate {
        gates := gates + [o.id];
      } else {
        mappings := mappings + [ProofMapping(o.id, CommandOf(o.kind).value)];
      }
    }
    DuplicatesExactly(e);
    DistinctCount(MappingIds(mappings));
    var ids := MappingIds(mappings);
    if |ids| != |set id | id in ids| {
      return Failure(DuplicateMappings);
    }
    return Success(ProofPlan(e.version, mappings, gates));
  }

  // ---------------------------------------------------------------------------------------------
  // When mapping succeeds and what it covers

  /** No two obligations with a command share their id; manual gates may. */
  predicate UniqueCommands(e: Eip) {
    DistinctCommands(e.obligations)
  }

  predicate DistinctCommands(s: seq<ProofObligation>) {
    forall i, j :: 0 <= i < j < |s| && s[i].kind != ManualGate && s[j].kind != ManualGate ==> s[i].id != s[j].id
  }

  predicate RunsAs(o: ProofObligation, id: string) {
    o.kind != ManualGate && o.id == id
  }

  /** The ids of the obligations that have a command. */
  ghost function CommandIds(obligations: seq<ProofObligation>): multiset<string> {
    if obligations == [] then multiset{}
    else (if obligations[0].kind == ManualGate then multiset{} else multiset{obligations[0].id})
         + CommandIds(obligations[1..])
  }

  lemma {:induction false} CommandIdsInsert(o: ProofObligation, s: seq<ProofObligation>)
    ensures CommandIds(Insert(o, s, IdLe))
         == (if o.kind == ManualGate then multiset{} else multiset{o.id}) + CommandIds(s)
  {
    var r := Insert(o, s, IdLe);
    if s == [] || IdLe(o, s[0]) {
      assert r[0] == o && r[1..] == s;
    } else {
      CommandIdsInsert(o, s[1..]);
      assert r[0] == s[0] && r[1..] == Insert(o, s[1..], IdLe);
    }
  }

  lemma {:induction false} CommandIdsSorted(s: seq<ProofObligation>)
    ensures CommandIds(SortBy(s, IdLe)) == CommandIds(s)
  {
    if s != [] {
      CommandIdsSorted(s[1..]);
      CommandIdsInsert(s[0], SortBy(s[1..], IdLe));
    }
  }

  lemma {:induction false} CommandIdsSnoc(s: seq<ProofObligation>, o: ProofObligation)
    ensures CommandIds(s + [o]) == CommandIds(s) + (if o.kind == ManualGate then multiset{} else multiset{o.id})
  {
    if s == [] {
      assert (s + [o])[1..] == [];
    } else {
      CommandIdsSnoc(s[1..], o);
      assert (s + [o])[1..] == s[1..] + [o];
    }
  }

  lemma {:induction false} MappingIdsAre(s: seq<ProofObligation>, n: nat)
    requires n <= |s|
    ensures multiset(MappingIds(MappingsOf(s, n))) == CommandIds(s[..n])
  {
    if n == 0 {
      assert s[..0] == [];
    } else {
      MappingIdsAre(s, n - 1);
      CommandIdsSnoc(s[..n - 1], s[n - 1]);
      assert s[..n] == s[..n - 1] + [s[n - 1]];
      var before, o := MappingsOf(s, n - 1), s[n - 1];
      if o.kind != ManualGate {
        assert MappingIds(MappingsOf(s, n)) == MappingIds(before) + [o.id];
      } else {
        assert MappingsOf(s, n) == before;
      }
    }
  }

  lemma {:induction false} OnceEach(ids: seq<string>)
    ensures NoDuplicates(ids) <==> AtMostOnce(multiset(ids))
  {
    if ids != [] {
      OnceEach(ids[1..]);
      assert ids == [ids[0]] + ids[1..];
      if NoDuplicates(ids) {
        forall id ensures multiset(ids)[id] <= 1 {
          assert NoDuplicates(ids[1..]);
          assert ids[0] !in ids[1..];
        }
      } else if NoDuplicates(ids[1..]) {
        var i, j :| 0 <= i < j < |ids| && ids[i] == ids[j];
        assert i == 0 && ids[1..][j - 1] == ids[0];
        assert ids[0] in multiset(ids[1..]);
        assert multiset(ids)[ids[0]] >= 2;
      } else {
        var id :| multiset(ids[1..])[id] > 1;
        assert multiset(ids)[id] > 1;
      }
    }
  }

  ghost predicate SomeRunsAs(s: seq<ProofObligation>, id: string) {
    exists i :: 0 <= i < |s| && RunsAs(s[i], id)
  }

  lemma RunsAsTail(s: seq<ProofObligation>, id: string)
    requires s != []
    ensures SomeRunsAs(s, id) <==> RunsAs(s[0], id) || SomeRunsAs(s[1..], id)
  {
    if i :| 0 <= i < |s[1..]| && RunsAs(s[1..][i], id) {
      assert RunsAs(s[i + 1], id);
    }
    if i :| 0 < i < |s| && RunsAs(s[i], id) {
      assert RunsAs(s[1..][i - 1], id);
    }
  }

  lemma DistinctTail(s: seq<ProofObligation>)
    requires s != []
    ensures DistinctCommands(s)
       <==> DistinctCommands(s[1..]) && (s[0].kind == ManualGate || !SomeRunsAs(s[1..], s[0].id))
  {
    assert forall i :: 0 <= i < |s[1..]| ==> s[1..][i] == s[i + 1];
    if s[0].kind != ManualGate && SomeRunsAs(s[1..], s[0].id) {
      var i :| 0 <= i < |s[1..]| && RunsAs(s[1..][i], s[0].id);
      assert s[i + 1].id == s[0].id;
    } else if DistinctCommands(s[1..]) {
      forall i, j | 0 <= i < j < |s| && s[i].kind != ManualGate && s[j].kind != ManualGate ensures s[i].id != s[j].id {
        assert s[j] == s[1..][j - 1];
        if i == 0 {
          assert RunsAs(s[1..][j - 1], s[j].id);
        } else {
          assert s[i] == s[1..][i - 1];
        }
      }
    }
  }

  lemma {:induction false} CommandOnce(s: seq<ProofObligation>, id: string)
    ensures CommandIds(s)[id] >= 1 <==> SomeRunsAs(s, id)
  {
    hide SomeRunsAs;
    if s != [] {
      CommandOnce(s[1..], id);
      RunsAsTail(s, id);
    } else {
      NothingRuns(id);
    }
  }

  lemma NothingRuns(id: string)
    ensures !SomeRunsAs([], id)
  {
  }

  ghost predicate AtMostOnce(ids: multiset<string>) {
    forall id :: ids[id] <= 1
  }

  lemma AtMostOnceMore(ids: multiset<string>, id: string)
    ensures AtMostOnce(multiset{id} + ids) <==> AtMostOnce(ids) && ids[id] == 0
  {
    var more := multiset{id} + ids;
    assert more[id] == ids[id] + 1;
    forall other ensures other != id ==> more[other] == ids[other] {
    }
  }

  lemma {:induction false} UniqueByCount(s: seq<ProofObligation>)
    ensures AtMostOnce(CommandIds(s)) <==> DistinctCommands(s)
  {
    hide AtMostOnce, DistinctCommands, SomeRunsAs;
    if s == [] {
      NoneDistinct();
    } else {
      UniqueByCount(s[1..]);
      CommandOnce(s[1..], s[0].id);
      DistinctTail(s);
      AtMostOnceMore(CommandIds(s[1..]), s[0].id);
      assert multiset{} + CommandIds(s[1..]) == CommandIds(s[1..]);
    }
  }

  lemma NoneDistinct()
    ensures AtMostOnce(multiset{}) && DistinctCommands([])
  {
  }

  /** The mappings repeat an id exactly when two obligations with commands share one. */
  lemma DuplicatesExactly(e: Eip)
    ensures NoDuplicates(MappingIds(PlanOf(e).mappings)) <==> UniqueCommands(e)
  {
    var sorted := SortBy(e.obligations, IdLe);
    MappingIdsAre(sorted, |sorted|);
    assert sorted[..|sorted|] == sorted;
    CommandIdsSorted(e.obligations);
    OnceEach(MappingIds(PlanOf(e).mappings));
    UniqueByCount(e.obligations);
  }

  lemma {:induction false} MappedExactly(s: seq<ProofObligation>, n: nat, m: ProofMapping)
    requires n <= |s|
    ensures m in MappingsOf(s, n) <==>
      exists i :: 0 <= i < n && s[i].kind != ManualGate && m == ProofMapping(s[i].id, CommandOf(s[i].kind).value)
  {
    if n != 0 {
      MappedExactly(s, n - 1, m);
    }
  }

  lemma {:induction false} GatedExactly(s: seq<ProofObligation>, n: nat, id: string)
    requires n <= |s|
    ensures id in GatesOf(s, n) <==> exists i :: 0 <= i < n && s[i].kind == ManualGate && s[i].id == id
  {
    if n != 0 {
      GatedExactly(s, n - 1, id);
    }
  }

  lemma InSorted(obligations: seq<ProofObligation>, o: ProofObligation)
    ensures o in SortBy(obligations, IdLe) <==> o in obligations
  {
    SortPermutes(obligations, IdLe);
    SameElements(SortBy(obligations, IdLe), obligations);
  }

  lemma GateIsListed(s: seq<ProofObligation>, o: ProofObligation)
    requires o in s && o.kind == ManualGate
    ensures o.id in GatesOf(s, |s|)
  {
    GatedExactly(s, |s|, o.id);
  }

  lemma CommandIsMapped(s: seq<ProofObligation>, o: ProofObligation)
    requires o in s && o.kind != ManualGate
    ensures ProofMapping(o.id, CommandOf(o.kind).value) in MappingsOf(s, |s|)
  {
    MappedExactly(s, |s|, ProofMapping(o.id, CommandOf(o.kind).value));
  }

  lemma PlannedIsCovered(e: Eip, o: ProofObligation)
    requires o in e.obligations
    ensures CoversObligation(PlanOf(e), o.id)
  {
    hide SortBy, MappingsOf, GatesOf, FirstMapping;
    var sorted := SortBy(e.obligations, IdLe);
    InSorted(e.obligations, o);
    if o.kind == ManualGate {
      GateIsListed(sorted, o);
    } else {
      CommandIsMapped(sorted, o);
      FirstMappingFound(PlanOf(e).mappings, o.id);
      assert ProofMapping(o.id, CommandOf(o.kind).value).obligationId == o.id;
    }
  }

  lemma CoveredIsPlanned(e: Eip, id: string)
    requires CoversObligation(PlanOf(e), id)
    ensures exists o :: o in e.obligations && o.id == id
  {
    hide SortBy, MappingsOf, GatesOf, FirstMapping;
    var sorted := SortBy(e.obligations, IdLe);
    GatedExactly(sorted, |sorted|, id);
    FirstMappingFound(PlanOf(e).mappings, id);
    if id !in PlanOf(e).manualGates {
      MappedExactly(sorted, |sorted|, GetMapping(PlanOf(e), id).value);
    }
    var i :| 0 <= i < |sorted| && sorted[i].id == id;
    InSorted(e.obligations, sorted[i]);
  }

  /** The plan covers exactly the ids of the obligations, whatever their kind. */
  lemma CoverageIsExact(e: Eip, id: string)
    ensures CoversObligation(PlanOf(e), id) <==> exists o :: o in e.obligations && o.id == id
  {
    hide CoversObligation, PlanOf;
    if o :| o in e.obligations && o.id == id {
      PlannedIsCovered(e, o);
    }
    if CoversObligation(PlanOf(e), id) {
      CoveredIsPlanned(e, id);
    }
  }

  lemma OneCommandPerId(s: seq<ProofObligation>, a: ProofObligation, b: ProofObligation)
    requires DistinctCommands(s) && a in s && b in s && a.kind != ManualGate && b.kind != ManualGate && a.id == b.id
    ensures a == b
  {
    var i :| 0 <= i < |s| && s[i] == a;
    var j :| 0 <= j < |s| && s[j] == b;
  }

  /** Where ids are unique, an obligation is mapped to the command of its own kind. */
  lemma MappedByKind(e: Eip, o: ProofObligation)
    requires o in e.obligations && o.kind != ManualGate && UniqueCommands(e)
    ensures GetMapping(PlanOf(e), o.id) == Some(ProofMapping(o.id, CommandOf(o.kind).value))
  {
    hide SortBy, MappingsOf, GatesOf, FirstMapping, DistinctCommands;
    var sorted := SortBy(e.obligations, IdLe);
    InSorted(e.obligations, o);
    CommandIsMapped(sorted, o);
    FirstMappingFound(PlanOf(e).mappings, o.id);
    assert ProofMapping(o.id, CommandOf(o.kind).value).obligationId == o.id;
    var found := GetMapping(PlanOf(e), o.id).value;
    MappedExactly(sorted, |sorted|, found);
    var i :| 0 <= i < |sorted| && sorted[i].kind != ManualGate
      && found == ProofMapping(sorted[i].id, CommandOf(sorted[i].kind).value);
    InSorted(e.obligations, sorted[i]);
    OneCommandPerId(e.obligations, o, sorted[i]);
  }

  /** Feedback keeps an EIP provable: if ids were unique and the result has an obligation, mapping
      the result succeeds and covers every obligation, old and new. */
  lemma FeedbackKeepsProvable(e: Eip, proposals: seq<Feedback.Proposal>, f: Eip)
    requires Feedback.UniqueIds(e.obligations)
    requires Feedback.ApplyFirst(e, proposals, |proposals|) == Success(f)
    ensures UniqueCommands(f)
    ensures f.obligations != [] ==> Covered(f)
    ensures forall o :: o in f.obligations ==> CoversObligation(PlanOf(f), o.id)
    ensures forall o :: o in e.obligations ==> CoversObligation(PlanOf(f), o.id)
  {
    Feedback.AppliedOnlyAdds(e, proposals, |proposals|);
    forall o | o in f.obligations ensures CoversObligation(PlanOf(f), o.id) {
      PlannedIsCovered(f, o);
    }
  }
}
