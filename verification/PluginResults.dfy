/** What installing, uninstalling and rolling back answer, guard by guard and field by field. */
module PluginResults {
  import opened Wrappers
  import opened Text
  import opened TextReading
  import opened Plugins

  // ---------------------------------------------------------------------------------------------
  // Guards

  /** A target is a user or workspace config under its root. */
  predicate Within(h: Host, op: Operation) {
    (op.scope == UserScope || op.scope == WorkspaceScope) && h.under(op.scope, op.path)
  }

  /** Its undo restores that very path, from a backup under the same root. */
  predicate Undoes(h: Host, op: Operation, undo: Undo) {
    && undo.action == "restore_or_remove" && undo.path == op.path
    && undo.backup.Some? && h.under(op.scope, undo.backup.value)
  }

  predicate IsDryRun(plan: Plan) {
    plan.dryRun && plan.writesPerformed == 0 && |plan.operations| == |plan.rollback|
  }

  /** A reference with something to read in it, on one line. */
  predicate Given(reference: string) {
    && '\n' !in reference && '\r' !in reference && '\t' !in reference
    && exists i :: 0 <= i < |reference| && !IsBlank(reference[i])
  }

  lemma GivenIsApproved(reference: string)
    ensures Approved(reference) <==> Given(reference)
  {
    if AllBlank(reference) {
      StripTrims("", "", reference);
      assert "" + "" + reference == reference;
    } else {
      StripKeeps(reference);
    }
  }

  lemma {:induction false} LStripKeeps(s: string)
    requires !AllBlank(s)
    ensures LStrip(s) != "" && !IsBlank(LStrip(s)[0])
  {
    SameBlanks(s[0]);
    if IsBlank(s[0]) {
      assert exists i :: 1 <= i < |s| && !IsBlank(s[i]);
      LStripKeeps(s[1..]);
    }
  }

  lemma {:induction false} RStripKeepsHead(s: string)
    requires s != "" && !IsBlank(s[0])
    ensures RStrip(s) != ""
    decreases |s|
  {
    SameBlanks(s[0]);
    if |s| > 1 {
      RStripKeepsHead(s[..|s| - 1]);
    }
  }

  lemma StripKeeps(s: string)
    requires !AllBlank(s)
    ensures Strip(s) != ""
  {
    LStripKeeps(s);
    RStripKeepsHead(LStrip(s));
  }

  // ---------------------------------------------------------------------------------------------
  // Applying

  /** Why a pair is refused: the scope comes first, then the target, the undo and the backup. */
  function PairRefusal(h: Host, op: Operation, undo: Undo): Option<Error> {
    if op.scope == ProjectScope then Some(BadScope)
    else if !h.under(op.scope, op.path) then Some(Escapes)
    else if undo.action != "restore_or_remove" || undo.path != op.path || undo.backup.None? then Some(BadUndo)
    else if !h.under(op.scope, undo.backup.value) then Some(Escapes)
    else None
  }

  lemma PairsAreRefused(h: Host, op: Operation, undo: Undo)
    ensures PairError(h, op, undo) == PairRefusal(h, op, undo)
    ensures PairRefusal(h, op, undo).None? <==> Within(h, op) && Undoes(h, op, undo)
  {
  }

  /** Pair `i` is the first that is refused. */
  ghost predicate IsFirstRefused(h: Host, plan: Plan, i: nat)
    requires |plan.operations| == |plan.rollback|
  {
    && i < |plan.operations| && PairRefusal(h, plan.operations[i], plan.rollback[i]).Some?
    && forall j :: 0 <= j < i ==> PairRefusal(h, plan.operations[j], plan.rollback[j]).None?
  }

  lemma {:induction false} FirstErrorIs(h: Host, plan: Plan, k: nat, i: nat)
    requires |plan.operations| == |plan.rollback| && IsFirstRefused(h, plan, i) && k <= i
    ensures FirstPairError(h, plan, k) == PairRefusal(h, plan.operations[i], plan.rollback[i])
    decreases i - k
  {
    PairsAreRefused(h, plan.operations[k], plan.rollback[k]);
    if k < i {
      FirstErrorIs(h, plan, k + 1, i);
    }
  }

  lemma FirstRefused(h: Host, plan: Plan) returns (i: nat)
    requires |plan.operations| == |plan.rollback|
    ensures if Guarded(h, plan) then i == |plan.operations| else IsFirstRefused(h, plan, i)
  {
    i := 0;
    while i < |plan.operations| && PairRefusal(h, plan.operations[i], plan.rollback[i]).None?
      invariant i <= |plan.operations|
      invariant forall j :: 0 <= j < i ==> PairRefusal(h, plan.operations[j], plan.rollback[j]).None?
    {
      i := i + 1;
    }
    forall j | 0 <= j < |plan.operations|
      ensures PairError(h, plan.operations[j], plan.rollback[j]) == PairRefusal(h, plan.operations[j], plan.rollback[j])
    {
      PairsAreRefused(h, plan.operations[j], plan.rollback[j]);
    }
  }

  /** A call without a reference, or with a plan that is no dry run or has a bad pair, changes no file
      and names the first of these reasons; any other call writes all the files. */
  lemma ApplyRefuses(h: Host, plan: Plan, files: Files, reference: string)
    ensures var (after, r) := ApplyResult(h, plan, files, reference);
      if !Given(reference) then after == files && r == Failure(NoApproval)
      else if !IsDryRun(plan) then after == files && r == Failure(BadPlan)
      else if exists i: nat :: IsFirstRefused(h, plan, i) then
        after == files
        && exists i: nat :: IsFirstRefused(h, plan, i)
                       && r == Failure(PairRefusal(h, plan.operations[i], plan.rollback[i]).value)
      else Applicable(h, plan) && after == ApplyFirst(h, plan, files, |plan.operations|).files
           && (r.Success? || r == Failure(BadResult))
  {
    hide Approved, Given, PairRefusal, PairError, ValidRecord, ValidEvidence;
    GivenIsApproved(reference);
    if IsDryRun(plan) {
      var i := FirstRefused(h, plan);
      if i < |plan.operations| {
        FirstErrorIs(h, plan, 0, i);
      } else {
        forall j: nat ensures !IsFirstRefused(h, plan, j) {
          if j < |plan.operations| {
            PairsAreRefused(h, plan.operations[j], plan.rollback[j]);
          }
        }
      }
    }
  }

  // ---------------------------------------------------------------------------------------------
  // Records

  /** The record of an installation names its plan, and is ready to be undone. */
  lemma RecordOfApply(h: Host, plan: Plan, files: Files, reference: string)
    ensures var r := ApplyResult(h, plan, files, reference).1;
      r.Success? ==>
        && r.value.pluginId == plan.pluginId && r.value.targetClient == plan.targetClient
        && r.value.version == plan.version
        && r.value.artifactDigest == Some(plan.artifactDigest) && r.value.manifestDigest == Some(plan.manifestDigest)
        && r.value.uninstallStatus == "available" && r.value.rollbackStatus == "ready"
  {
    hide Approved, ValidRecord, ValidEvidence, PlanError;
  }

  predicate Silent(recorded: Option<string>, digest: string) {
    recorded == None || recorded == Some("") || recorded == Some(digest)
  }

  /** A record is of the same plugin, client and version as the plan, and contradicts no digest of it. */
  predicate IsOfPlan(inventory: Inventory, plan: Plan) {
    && inventory.pluginId == plan.pluginId && inventory.targetClient == plan.targetClient
    && inventory.version == plan.version
    && Silent(inventory.artifactDigest, plan.artifactDigest) && Silent(inventory.manifestDigest, plan.manifestDigest)
  }

  lemma IsDescribed(inventory: Inventory, plan: Plan)
    ensures Describes(inventory, plan) <==> IsOfPlan(inventory, plan)
  {
  }

  /** Uninstalling needs a reference and a record of the plan; then the files are what the loop leaves,
      and an error of the loop is the answer.  Success leaves the record with no hashes and its new
      status, and otherwise as it was. */
  lemma UninstallAnswers(h: Host, plan: Plan, inventory: Inventory, files: Files, reference: string)
    ensures var (after, r) := UninstallResult(h, plan, inventory, files, reference);
      var (left, error) := RemoveFirst(h, plan, inventory.hashes, files, |plan.operations|);
      if !Given(reference) then after == files && r == Failure(NoApproval)
      else if !IsOfPlan(inventory, plan) then after == files && r == Failure(Mismatch)
      else
        && after == left && (error.Some? ==> r == Failure(error.value))
        && (r.Success? ==> r.value == inventory.(hashes := map[], uninstallStatus := "uninstalled"))
        && (error.None? && r.Failure? ==> r == Failure(BadResult))
  {
    GivenIsApproved(reference);
    IsDescribed(inventory, plan);
    hide Approved, Given, Describes, IsOfPlan, ValidEvidence, RemoveFirst;
  }

  /** So does rolling back. */
  lemma RollbackAnswers(h: Host, plan: Plan, inventory: Inventory, files: Files, reference: string)
    ensures var (after, r) := RollbackResult(h, plan, inventory, files, reference);
      var (left, error) := UndoFirst(h, plan, inventory.hashes, files, Pairs(plan));
      if !Given(reference) then after == files && r == Failure(NoApproval)
      else if !IsOfPlan(inventory, plan) then after == files && r == Failure(Mismatch)
      else
        && after == left && (error.Some? ==> r == Failure(error.value))
        && (r.Success? ==> r.value == inventory.(hashes := map[], rollbackStatus := "rolled_back"))
        && (error.None? && r.Failure? ==> r == Failure(BadResult))
  {
    GivenIsApproved(reference);
    IsDescribed(inventory, plan);
    hide Approved, Given, Describes, IsOfPlan, ValidEvidence, UndoFirst;
  }

  /** A file is undone when its hash was recorded and it is absent or still has that hash. */
  lemma UndoRefuses(h: Host, hashes: map<Key, Digest>, files: Files, op: Operation)
    ensures var k := Key(op.scope, op.path);
      UndoError(h, hashes, files, op)
      == if k !in hashes then Some(MissingHash(k))
         else if op.path in files && h.digest(files[op.path]) != hashes[k] then Some(Drifted(k))
         else None
  {
  }

  /** A record names files by scope and relative path. */
  lemma NamesInRecords(h: Host, p: Path)
    ensures KeyText(h, Key(UserScope, p)) == "user/" + h.relative(UserScope, p)
    ensures KeyText(h, Key(WorkspaceScope, p)) == "workspace/" + h.relative(WorkspaceScope, p)
    ensures KeyText(h, Key(ProjectScope, p)) == "project/" + h.relative(ProjectScope, p)
  {
    assert "user" + "/" == "user/" && "workspace" + "/" == "workspace/" && "project" + "/" == "project/";
  }

  /** Such a name has no line break or tab, no "..", and no slash in front. */
  lemma NamesAreRelative(s: string)
    ensures RelativeText(s) <==>
      && '\n' !in s && '\r' !in s && '\t' !in s && (s != "" ==> !Slash(s[0]))
      && !exists before, after :: ParentBetween(s, before, after)
  {
    hide ParentBetween, HasParent;
    ParentIsAPart(s);
  }

  /** A dry run asks for each config to be written, and to be restored from a backup beside it. */
  lemma DryRunPairs(configs: seq<ConfigPath>, n: nat, content: Content, operations: seq<Operation>, rollback: seq<Undo>)
    requires n <= |configs| && Plans(configs, n, content, operations, rollback)
    ensures |operations| == |rollback| == n
    ensures forall i :: 0 <= i < n ==>
      && operations[i].scope == configs[i].scope && operations[i].path == configs[i].path
      && operations[i].content == content && rollback[i].action == "restore_or_remove"
      && rollback[i].path == configs[i].path && rollback[i].backup == Some(configs[i].path + ".vad-backup")
  {
  }
}
