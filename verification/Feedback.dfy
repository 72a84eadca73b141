/** Feedback proposals: the approved ones add invariants and proof obligations to an EIP. */
module Feedback {
  import opened Wrappers
  import opened Ordering
  import opened Text
  import opened Eip

  datatype ProposalType =
    | AddInvariant | StrengthenInvariant | AddProofObligation | ReduceAutonomy | RestrictTool
    | ChangeModelTier | AdjustBudget | AddReleaseGate

  /** The entries of the payload that are read; None stands for an absent key. */
  datatype Payload = Payload(
    category: Option<string>, description: Option<string>, id: Option<string>, kind: Option<string>)

  datatype Proposal = Proposal(kind: ProposalType, reason: string, payload: Payload, approved: bool)

  datatype ProposalError = UnknownCategory | UnknownKind

  function OrElse(value: Option<string>, fallback: string): string {
    if value.Some? then value.value else fallback
  }

  // ---------------------------------------------------------------------------------------------
  // Invariants

  datatype Category = Security | Performance | Functional

  function CategoryOf(name: string): Option<Category> {
    if name == "security" then Some(Security)
    else if name == "performance" then Some(Performance)
    else if name == "functional" then Some(Functional)
    else None
  }

  function InvariantsOf(i: Invariants, c: Category): seq<string> {
    match c case Security => i.security case Performance => i.performance case Functional => i.functional
  }

  function WithInvariant(i: Invariants, c: Category, description: string): Invariants {
    match c
    case Security => i.(security := i.security + [description])
    case Performance => i.(performance := i.performance + [description])
    case Functional => i.(functional := i.functional + [description])
  }

  function ApplyInvariant(e: Eip, p: Proposal): Result<Eip, ProposalError> {
    var category := CategoryOf(OrElse(p.payload.category, "functional"));
    var description := OrElse(p.payload.description, p.reason);
    if category.None? then Failure(UnknownCategory)
    else if description in InvariantsOf(e.invariants, category.value) then Success(e)
    else Success(e.(invariants := WithInvariant(e.invariants, category.value, description)))
  }

  // ---------------------------------------------------------------------------------------------
  // Obligation ids

  function IdsOf(obligations: seq<ProofObligation>): set<string> {
    set o | o in obligations :: o.id
  }

  function PoId(k: nat): string {
    "po-" + Decimal(k)
  }

  lemma PoIdInjective(j: nat, k: nat)
    requires PoId(j) == PoId(k)
    ensures j == k
  {
    assert Decimal(j) == PoId(j)[3..] && Decimal(k) == PoId(k)[3..];
    DecimalInjective(j, k);
  }

  /** The names po-1 to po-n. */
  ghost function PoIds(n: nat): (ids: set<string>)
    ensures |ids| == n
    ensures forall id :: id in ids <==> exists k :: 1 <= k <= n && id == PoId(k)
  {
    if n == 0 then {}
    else
      assert PoId(n) !in PoIds(n - 1) by {
        forall k | 1 <= k <= n - 1 ensures PoId(k) != PoId(n) {
          if PoId(k) == PoId(n) {
            PoIdInjective(k, n);
          }
        }
      }
      PoIds(n - 1) + {PoId(n)}
  }

  lemma SubsetSize<T>(a: set<T>, b: set<T>)
    requires a <= b
    ensures |a| <= |b|
  {
    if a != {} {
      var x :| x in a;
      SubsetSize(a - {x}, b - {x});
    }
  }

  /** As long as po-1 to po-n are all taken, there are at least n ids. */
  lemma Pigeonhole(ids: set<string>, n: nat)
    requires forall k :: 1 <= k <= n ==> PoId(k) in ids
    ensures n <= |ids|
  {
    assert PoIds(n) <= ids;
    SubsetSize(PoIds(n), ids);
  }

  /** The first free index. */
  ghost predicate IsNext(ids: set<string>, k: nat) {
    1 <= k && PoId(k) !in ids && forall j :: 1 <= j < k ==> PoId(j) in ids
  }

  lemma NextUnique(ids: set<string>, j: nat, k: nat)
    requires IsNext(ids, j) && IsNext(ids, k)
    ensures j == k
  {
  }

  lemma NextExists(ids: set<string>, n: nat) returns (k: nat)
    requires 1 <= n <= |ids| + 1 && forall j :: 1 <= j < n ==> PoId(j) in ids
    ensures IsNext(ids, k) && k <= |ids| + 1
    decreases |ids| + 1 - n
  {
    if PoId(n) !in ids {
      k := n;
    } else {
      Pigeonhole(ids, n);
      k := NextExists(ids, n + 1);
    }
  }

  ghost function NextIndex(ids: set<string>): (k: nat)
    ensures IsNext(ids, k) && k <= |ids| + 1
  {
    assert exists k: nat :: IsNext(ids, k) && k <= |ids| + 1 by {
      var k := NextExists(ids, 1);
    }
    var k: nat :| IsNext(ids, k) && k <= |ids| + 1;
    k
  }

  /** `_next_obligation_id`: stops at the latest at index |ids| + 1. */
  method NextObligationId(ids: set<string>) returns (id: string)
    ensures id == PoId(NextIndex(ids))
    ensures id !in ids
  {
    var index: nat := 1;
    while PoId(index) in ids
      invariant 1 <= index <= |ids| + 1
      invariant forall j :: 1 <= j < index ==> PoId(j) in ids
      decreases |ids| + 1 - index
    {
      Pigeonhole(ids, index);
      index := index + 1;
    }
    NextUnique(ids, index, NextIndex(ids));
    id := PoId(index);
  }

  // ---------------------------------------------------------------------------------------------
  // Obligations

  function KindOf(name: string): Option<ProofKind> {
    match name
    case "unit" => Some(UnitProof)
    case "property" => Some(PropertyProof)
    case "contract" => Some(ContractProof)
    case "security" => Some(SecurityProof)
    case "performance" => Some(PerformanceProof)
    case "policy" => Some(PolicyProof)
    case "release" => Some(ReleaseProof)
    case "telemetry" => Some(TelemetryProof)
    case "manual_gate" => Some(ManualGate)
    case _ => None
  }

  /** An empty id counts as none. */
  predicate NamesId(p: Proposal) {
    p.payload.id.Some? && p.payload.id.value != ""
  }

  ghost function IdFor(e: Eip, p: Proposal): string {
    if NamesId(p) then p.payload.id.value else PoId(NextIndex(IdsOf(e.obligations)))
  }

  ghost function ApplyObligation(e: Eip, p: Proposal): Result<Eip, ProposalError> {
    var id, kind := IdFor(e, p), KindOf(OrElse(p.payload.kind, "unit"));
    if id in IdsOf(e.obligations) then Success(e)
    else if kind.None? then Failure(UnknownKind)
    else Success(e.(obligations := e.obligations
      + [ProofObligation(id, kind.value, OrElse(p.payload.description, p.reason))]))
  }

  ghost function ApplyOne(e: Eip, p: Proposal): Result<Eip, ProposalError> {
    if !p.approved then Success(e)
    else if p.kind == AddInvariant || p.kind == StrengthenInvariant then ApplyInvariant(e, p)
    else if p.kind == AddProofObligation then ApplyObligation(e, p)
    else Success(e)
  }

  ghost function ApplyFirst(e: Eip, proposals: seq<Proposal>, n: nat): Result<Eip, ProposalError>
    requires n <= |proposals|
  {
    if n == 0 then Success(e)
    else
      var before := ApplyFirst(e, proposals, n - 1);
      if before.Failure? then before else ApplyOne(before.value, proposals[n - 1])
  }

  lemma {:induction false} FailureStays(e: Eip, proposals: seq<Proposal>, n: nat, m: nat)
    requires n <= m <= |proposals| && ApplyFirst(e, proposals, n).Failure?
    ensures ApplyFirst(e, proposals, m) == ApplyFirst(e, proposals, n)
  {
    if n < m {
      FailureStays(e, proposals, n, m - 1);
    }
  }

  method AddObligation(e: Eip, p: Proposal) returns (r: Result<Eip, ProposalError>)
    ensures r == ApplyObligation(e, p)
  {
    var ids := IdsOf(e.obligations);
    var id := "";
    if NamesId(p) {
      id := p.payload.id.value;
    } else {
      id := NextObligationId(ids);
    }
    if id in ids {
      return Success(e);
    }
    var kind := KindOf(OrElse(p.payload.kind, "unit"));
    if kind.None? {
      return Failure(UnknownKind);
    }
    return Success(e.(obligations := e.obligations
      + [ProofObligation(id, kind.value, OrElse(p.payload.description, p.reason))]));
  }

  /** The first proposal that cannot be applied ends the call; the EIP passed in is not touched. */
  method ApplyApprovedProposals(e: Eip, proposals: seq<Proposal>) returns (r: Result<Eip, ProposalError>)
    ensures r == ApplyFirst(e, proposals, |proposals|)
    ensures r.Success? ==> OnlyAdds(e, proposals, r.value)
  {
    var updated := e;
    for i := 0 to |proposals|
      invariant ApplyFirst(e, proposals, i) == Success(updated)
    {
      var p := proposals[i];
      if p.approved {
        var next := Success(updated);
        if p.kind == AddInvariant || p.kind == StrengthenInvariant {
          next := ApplyInvariant(updated, p);
        } else if p.kind == AddProofObligation {
          next := AddObligation(updated, p);
        }
        if next.Failure? {
          FailureStays(e, proposals, i + 1, |proposals|);
          return Failure(next.error);
        }
        updated := next.value;
      }
    }
    AppliedOnlyAdds(e, proposals, |proposals|);
    return Success(updated);
  }

  // ---------------------------------------------------------------------------------------------
  // What may change

  predicate UniqueIds(obligations: seq<ProofObligation>) {
    forall i, j :: 0 <= i < j < |obligations| ==> obligations[i].id != obligations[j].id
  }

  predicate Unchanged(e: Eip, f: Eip) {
    f == e.(invariants := f.invariants, obligations := f.obligations)
  }

  /** Existing invariants and obligations keep their places; what comes after them is new. */
  ghost predicate Extends(e: Eip, f: Eip) {
    && Unchanged(e, f)
    && (forall c :: InvariantsOf(e.invariants, c) <= InvariantsOf(f.invariants, c))
    && e.obligations <= f.obligations
  }

  /** No repetition is introduced. */
  ghost predicate StaysDistinct(e: Eip, f: Eip) {
    && (UniqueIds(e.obligations) ==> UniqueIds(f.obligations))
    && (forall c :: NoDuplicates(InvariantsOf(e.invariants, c)) ==> NoDuplicates(InvariantsOf(f.invariants, c)))
  }

  /** The approved proposal asks for this invariant. */
  predicate AsksInvariant(p: Proposal, c: Category, description: string) {
    && p.approved && (p.kind == AddInvariant || p.kind == StrengthenInvariant)
    && CategoryOf(OrElse(p.payload.category, "functional")) == Some(c)
    && OrElse(p.payload.description, p.reason) == description
  }

  /** The approved proposal asks for this obligation, up to a generated id. */
  predicate AsksObligation(p: Proposal, o: ProofObligation) {
    && p.approved && p.kind == AddProofObligation
    && KindOf(OrElse(p.payload.kind, "unit")) == Some(o.kind)
    && OrElse(p.payload.description, p.reason) == o.description
    && (NamesId(p) ==> p.payload.id.value == o.id)
  }

  predicate AsksForId(p: Proposal) {
    p.approved && p.kind == AddProofObligation && NamesId(p)
  }

  /** Every addition was asked for by one of the first `n` proposals, and every request was met. */
  ghost predicate Answers(e: Eip, proposals: seq<Proposal>, n: nat, f: Eip)
    requires n <= |proposals|
  {
    && (forall c, d :: d in InvariantsOf(f.invariants, c) <==>
          d in InvariantsOf(e.invariants, c) || exists i :: 0 <= i < n && AsksInvariant(proposals[i], c, d))
    && (forall o :: o in f.obligations ==>
          o in e.obligations || exists i :: 0 <= i < n && AsksObligation(proposals[i], o))
    && (forall i :: 0 <= i < n && AsksForId(proposals[i]) ==> proposals[i].payload.id.value in IdsOf(f.obligations))
  }

  ghost predicate OnlyAdds(e: Eip, proposals: seq<Proposal>, f: Eip) {
    Extends(e, f) && StaysDistinct(e, f) && Answers(e, proposals, |proposals|, f)
  }

  lemma InvariantAdded(i: Invariants, c: Category, description: string)
    ensures var j := WithInvariant(i, c, description);
      forall d :: InvariantsOf(j, d) == InvariantsOf(i, d) + (if d == c then [description] else [])
  {
  }

  lemma OneExtends(e: Eip, p: Proposal)
    requires ApplyOne(e, p).Success?
    ensures Extends(e, ApplyOne(e, p).value) && StaysDistinct(e, ApplyOne(e, p).value)
  {
    var category := CategoryOf(OrElse(p.payload.category, "functional"));
    if p.approved && category.Some? {
      InvariantAdded(e.invariants, category.value, OrElse(p.payload.description, p.reason));
    }
    hide WithInvariant, InvariantsOf, CategoryOf, KindOf, NextIndex;
    var f := ApplyOne(e, p).value;
    if f.obligations != e.obligations {
      var o := f.obligations[|e.obligations|];
      forall i | 0 <= i < |e.obligations| ensures e.obligations[i].id != o.id {
        assert e.obligations[i] in e.obligations;
      }
    }
  }

  lemma ExtendsCompose(e: Eip, f: Eip, g: Eip)
    requires Extends(e, f) && StaysDistinct(e, f) && Extends(f, g) && StaysDistinct(f, g)
    ensures Extends(e, g) && StaysDistinct(e, g)
  {
    hide InvariantsOf, UniqueIds;
  }

  lemma AnswersNext(e: Eip, proposals: seq<Proposal>, n: nat, f: Eip)
    requires n < |proposals| && Answers(e, proposals, n, f) && ApplyOne(f, proposals[n]).Success?
    ensures Answers(e, proposals, n + 1, ApplyOne(f, proposals[n]).value)
  {
    InvariantsNext(e, proposals, n, f);
    ObligationsNext(e, proposals, n, f);
  }

  lemma InvariantsNext(e: Eip, proposals: seq<Proposal>, n: nat, f: Eip)
    requires n < |proposals| && Answers(e, proposals, n, f) && ApplyOne(f, proposals[n]).Success?
    ensures var g := ApplyOne(f, proposals[n]).value;
      forall c, d :: d in InvariantsOf(g.invariants, c) <==>
        d in InvariantsOf(e.invariants, c) || exists i :: 0 <= i < n + 1 && AsksInvariant(proposals[i], c, d)
  {
    var p, g := proposals[n], ApplyOne(f, proposals[n]).value;
    forall c, d
      ensures d in InvariantsOf(g.invariants, c) <==> d in InvariantsOf(f.invariants, c) || AsksInvariant(p, c, d)
    {
    }
  }

  lemma ObligationsNext(e: Eip, proposals: seq<Proposal>, n: nat, f: Eip)
    requires n < |proposals| && Answers(e, proposals, n, f) && ApplyOne(f, proposals[n]).Success?
    ensures var g := ApplyOne(f, proposals[n]).value;
      && (forall o :: o in g.obligations ==>
            o in e.obligations || exists i :: 0 <= i < n + 1 && AsksObligation(proposals[i], o))
      && (forall i :: 0 <= i < n + 1 && AsksForId(proposals[i]) ==>
            proposals[i].payload.id.value in IdsOf(g.obligations))
  {
    hide KindOf, CategoryOf, WithInvariant, InvariantsOf, NextIndex;
    var p, g := proposals[n], ApplyOne(f, proposals[n]).value;
    forall o | o in g.obligations ensures o in f.obligations || AsksObligation(p, o) {
    }
    forall o | o in f.obligations ensures o.id in IdsOf(g.obligations) {
      assert o in g.obligations;
    }
    if p.approved && p.kind == AddProofObligation && g.obligations != f.obligations {
      assert g.obligations[|f.obligations|] in g.obligations;
    }
  }

  lemma AnswersNone(e: Eip, proposals: seq<Proposal>)
    ensures Extends(e, e) && StaysDistinct(e, e) && Answers(e, proposals, 0, e)
  {
  }

  lemma {:induction false} AppliedOnlyAdds(e: Eip, proposals: seq<Proposal>, n: nat)
    requires n <= |proposals| && ApplyFirst(e, proposals, n).Success?
    ensures var f := ApplyFirst(e, proposals, n).value;
      Extends(e, f) && StaysDistinct(e, f) && Answers(e, proposals, n, f)
  {
    hide Extends, StaysDistinct, Answers, ApplyOne;
    if n == 0 {
      AnswersNone(e, proposals);
    } else {
      AppliedOnlyAdds(e, proposals, n - 1);
      var f := ApplyFirst(e, proposals, n - 1).value;
      OneExtends(f, proposals[n - 1]);
      ExtendsCompose(e, f, ApplyOne(f, proposals[n - 1]).value);
      AnswersNext(e, proposals, n - 1, f);
    }
  }

  /** The proposal names a category and a kind that exist. */
  predicate WellFormed(p: Proposal) {
    p.approved ==>
      && (p.kind == AddInvariant || p.kind == StrengthenInvariant ==>
            CategoryOf(OrElse(p.payload.category, "functional")).Some?)
      && (p.kind == AddProofObligation ==> KindOf(OrElse(p.payload.kind, "unit")).Some?)
  }

  /** The call fails only over an approved proposal with an unknown category, or with an unknown kind
      for an id that is not yet taken when its turn comes. */
  lemma {:induction false} FailsExactly(e: Eip, proposals: seq<Proposal>, n: nat)
    requires n <= |proposals|
    ensures ApplyFirst(e, proposals, n).Failure? <==>
      exists i :: 0 <= i < n && ApplyFirst(e, proposals, i).Success?
                  && Refused(ApplyFirst(e, proposals, i).value, proposals[i])
  {
    hide Refused;
    if n != 0 {
      FailsExactly(e, proposals, n - 1);
      var before := ApplyFirst(e, proposals, n - 1);
      if before.Success? {
        RefusedFails(before.value, proposals[n - 1]);
      }
    }
  }

  ghost predicate Refused(e: Eip, p: Proposal) {
    !WellFormed(p) && (p.kind == AddProofObligation ==> IdFor(e, p) !in IdsOf(e.obligations))
  }

  lemma RefusedFails(e: Eip, p: Proposal)
    ensures ApplyOne(e, p).Failure? <==> Refused(e, p)
  {
    hide KindOf, CategoryOf, NextIndex;
  }
}
