/** The words of feedback and proof plans: what each proposal adds, and which command each kind runs. */
module PlanWords {
  import opened Wrappers
  import opened Ordering
  import opened Text
  import opened Eip
  import Feedback
  import ProofPlans

  // ---------------------------------------------------------------------------------------------
  // Proposals

  /** The kind that a proposal names is the one with that word. */
  lemma KindsByWord(name: string, k: ProofKind)
    ensures Feedback.KindOf(name) == Some(k) <==> name == KindText(k)
  {
  }

  function With(list: seq<string>, text: string): seq<string> {
    if text in list then list else list + [text]
  }

  /** The list that the category names gains the description once; "functional" is the default, and so is
      the reason of the proposal. */
  lemma InvariantIsAdded(e: Eip, p: Feedback.Proposal)
    requires p.approved && (p.kind == Feedback.AddInvariant || p.kind == Feedback.StrengthenInvariant)
    ensures var category := if p.payload.category.Some? then p.payload.category.value else "functional";
      var text := if p.payload.description.Some? then p.payload.description.value else p.reason;
      var i := e.invariants;
      Feedback.ApplyOne(e, p)
      == if category == "security" then Success(e.(invariants := i.(security := With(i.security, text))))
         else if category == "performance" then Success(e.(invariants := i.(performance := With(i.performance, text))))
         else if category == "functional" then Success(e.(invariants := i.(functional := With(i.functional, text))))
         else Failure(Feedback.UnknownCategory)
  {
    assert "security"[0] != "performance"[0] && "security"[0] != "functional"[0];
    assert "performance"[0] != "functional"[0];
  }

  /** The id that the proposal gives, or the first free one. */
  ghost predicate IsItsId(e: Eip, p: Feedback.Proposal, id: string) {
    if p.payload.id.Some? && p.payload.id.value != "" then id == p.payload.id.value else IsFirstFree(e, id)
  }

  /** An id that is taken adds nothing; otherwise the kind must be one of the words for kinds. */
  ghost predicate AddsUnder(e: Eip, p: Feedback.Proposal, id: string, r: Result<Eip, Feedback.ProposalError>) {
    var word := if p.payload.kind.Some? then p.payload.kind.value else "unit";
    var text := if p.payload.description.Some? then p.payload.description.value else p.reason;
    if exists o :: o in e.obligations && o.id == id then r == Success(e)
    else if exists k :: KindText(k) == word then
      exists k :: KindText(k) == word
                  && r == Success(e.(obligations := e.obligations + [ProofObligation(id, k, text)]))
    else r == Failure(Feedback.UnknownKind)
  }

  lemma ObligationIsAdded(e: Eip, p: Feedback.Proposal)
    requires p.approved && p.kind == Feedback.AddProofObligation
    ensures exists id :: IsItsId(e, p, id) && AddsUnder(e, p, id, Feedback.ApplyOne(e, p))
  {
    var word := if p.payload.kind.Some? then p.payload.kind.value else "unit";
    forall k ensures Feedback.KindOf(word) == Some(k) <==> word == KindText(k) {
      KindsByWord(word, k);
    }
    hide Feedback.KindOf, KindText;
    var id := Feedback.IdFor(e, p);
    if !Feedback.NamesId(p) {
      FirstFree(e);
    }
    assert id in Feedback.IdsOf(e.obligations) <==> exists o :: o in e.obligations && o.id == id;
    assert IsItsId(e, p, id) && AddsUnder(e, p, id, Feedback.ApplyOne(e, p));
  }

  function Numbered(n: nat): string {
    ['p', 'o', '-'] + Decimal(n)
  }

  /** Numbered from one, it is the first that no obligation has. */
  ghost predicate IsFirstFree(e: Eip, id: string) {
    exists n: nat :: 1 <= n && id == Numbered(n)
      && (forall o :: o in e.obligations ==> o.id != id)
      && (forall m: nat :: 1 <= m < n ==> exists o :: o in e.obligations && o.id == Numbered(m))
  }

  lemma FirstFree(e: Eip)
    ensures IsFirstFree(e, Feedback.PoId(Feedback.NextIndex(Feedback.IdsOf(e.obligations))))
  {
    var ids := Feedback.IdsOf(e.obligations);
    var n := Feedback.NextIndex(ids);
    forall m: nat ensures Feedback.PoId(m) == Numbered(m) {
      assert "po-" == ['p', 'o', '-'];
    }
    forall m: nat | 1 <= m < n ensures exists o :: o in e.obligations && o.id == Numbered(m) {
      assert Feedback.PoId(m) in ids;
    }
    assert Feedback.PoId(n) !in ids;
  }

  /** Unapproved proposals and those of any other type change nothing. */
  lemma OthersChangeNothing(e: Eip, p: Feedback.Proposal)
    requires !p.approved || (p.kind != Feedback.AddInvariant && p.kind != Feedback.StrengthenInvariant
                             && p.kind != Feedback.AddProofObligation)
    ensures Feedback.ApplyOne(e, p) == Success(e)
  {
  }

  // ---------------------------------------------------------------------------------------------
  // Commands

  /** Unit and property proofs run all tests, every other kind those with its word for a mark. */
  lemma CommandsByKind(k: ProofKind)
    ensures k == ManualGate ==> ProofPlans.CommandOf(k).None?
    ensures k == UnitProof || k == PropertyProof ==> ProofPlans.CommandOf(k) == Some("pytest")
    ensures k != ManualGate && k != UnitProof && k != PropertyProof ==>
      ProofPlans.CommandOf(k) == Some("pytest -m " + KindText(k))
  {
    match k {
      case ContractProof => assert "pytest -m contract" == "pytest -m " + "contract";
      case SecurityProof => assert "pytest -m security" == "pytest -m " + "security";
      case PerformanceProof => assert "pytest -m performance" == "pytest -m " + "performance";
      case PolicyProof => assert "pytest -m policy" == "pytest -m " + "policy";
      case ReleaseProof => assert "pytest -m release" == "pytest -m " + "release";
      case TelemetryProof => assert "pytest -m telemetry" == "pytest -m " + "telemetry";
      case _ =>
    }
  }

  ghost predicate ById(s: seq<ProofObligation>) {
    forall i, j :: 0 <= i < j < |s| ==> Alphabetical(s[i].id, s[j].id)
  }

  ghost predicate MappedById(m: seq<ProofPlans.ProofMapping>) {
    forall i, j :: 0 <= i < j < |m| ==> Alphabetical(m[i].obligationId, m[j].obligationId)
  }

  ghost predicate GatedById(g: seq<string>) {
    forall i, j :: 0 <= i < j < |g| ==> Alphabetical(g[i], g[j])
  }

  lemma {:induction false} PlannedById(s: seq<ProofObligation>, n: nat)
    requires ById(s) && n <= |s|
    ensures MappedById(ProofPlans.MappingsOf(s, n)) && GatedById(ProofPlans.GatesOf(s, n))
    ensures forall m :: m in ProofPlans.MappingsOf(s, n) ==> exists i :: 0 <= i < n && s[i].id == m.obligationId
    ensures forall g :: g in ProofPlans.GatesOf(s, n) ==> exists i :: 0 <= i < n && s[i].id == g
  {
    hide Alphabetical, ProofPlans.CommandOf;
    if n > 0 {
      PlannedById(s, n - 1);
      var m, g := ProofPlans.MappingsOf(s, n - 1), ProofPlans.GatesOf(s, n - 1);
      forall i | 0 <= i < |m| ensures Alphabetical(m[i].obligationId, s[n - 1].id) {
        assert m[i] in m;
      }
      forall i | 0 <= i < |g| ensures Alphabetical(g[i], s[n - 1].id) {
        assert g[i] in g;
      }
    }
  }

  /** Mappings and gates are planned by id, letter by letter. */
  lemma PlanIsById(e: Eip)
    ensures MappedById(ProofPlans.PlanOf(e).mappings) && GatedById(ProofPlans.PlanOf(e).manualGates)
  {
    var sorted := SortBy(e.obligations, ProofPlans.IdLe);
    LexIsTotalOrder();
    SortSorts(e.obligations, ProofPlans.IdLe);
    forall i, j | 0 <= i < j < |sorted| ensures Alphabetical(sorted[i].id, sorted[j].id) {
      LexIsAlphabetical(sorted[i].id, sorted[j].id);
    }
    PlannedById(sorted, |sorted|);
  }

  /** Obligations may be missing only where nothing is claimed. */
  lemma NothingClaimed(e: Eip)
    ensures !ProofPlans.Covered(e) <==>
      && e.obligations == []
      && (e.invariants.security != [] || e.invariants.performance != [] || e.invariants.functional != []
          || e.goal.successCriteria != [])
  {
  }
}
