/** Applying a diff proposal that a verifier and a release guardian have approved. */
module DiffWorkflow {
  import opened Wrappers
  import opened Ordering
  import opened Text
  import opened UnifiedDiff
  import opened PatchApply

  datatype DiffProposal = DiffProposal(proposalId: string, patchText: string, changedFiles: seq<string>)

  datatype ApplyBlocker =
    | VerifierApprovalRequired
    | ReleaseGuardianApprovalRequired
    | PatchRejected(reason: Option<Blocker>)
    | FilesDoNotMatch
    | RollbackFailed(reason: Option<Blocker>)

  datatype DiffApplyRecord = DiffApplyRecord(
    proposalId: string, applied: bool, changedFiles: seq<string>, blocker: Option<ApplyBlocker>)

  function ApprovalBlocker(verifierAllows: bool, guardianAllows: bool): Option<ApplyBlocker> {
    if !verifierAllows then Some(VerifierApprovalRequired)
    else if !guardianAllows then Some(ReleaseGuardianApprovalRequired)
    else None
  }

  function PatchPaths(patches: seq<FilePatch>): (paths: seq<string>)
    ensures |paths| == |patches| && forall i :: 0 <= i < |paths| ==> paths[i] == patches[i].path
  {
    seq(|patches|, i requires 0 <= i < |patches| => patches[i].path)
  }

  /** The files that the patch writes are, counted with repetitions, the approved ones. */
  predicate WritesApproved(proposal: DiffProposal) {
    multiset(PatchPaths(ParsedPatches(SplitLines(proposal.patchText)))) == multiset(proposal.changedFiles)
  }

  /** The approved files are the written ones, when both lists are sorted. */
  lemma ApprovedWhenSorted(proposal: DiffProposal)
    ensures WritesApproved(proposal) <==>
      SortStrings(PatchPaths(ParsedPatches(SplitLines(proposal.patchText)))) == SortStrings(proposal.changedFiles)
  {
    SortStringsCanonical(PatchPaths(ParsedPatches(SplitLines(proposal.patchText))), proposal.changedFiles);
  }

  /** `apply_approved_diff_proposal`: either both decisions allow, the patch applies and it writes
      exactly the approved files, or the workspace ends up as it was. */
  method ApplyApprovedDiff(workspace: Workspace, proposal: DiffProposal, verifierAllows: bool, guardianAllows: bool)
    returns (r: DiffApplyRecord)
    modifies workspace`files
    ensures r.applied <==>
      && verifierAllows && guardianAllows
      && PatchApplies(workspace.resolve, old(workspace.files), ParsedPatches(SplitLines(proposal.patchText)))
      && WritesApproved(proposal)
    ensures !r.applied ==> workspace.files == old(workspace.files) && r.blocker.Some?
    ensures r.blocker.Some? ==> !r.blocker.value.RollbackFailed?
    ensures !verifierAllows ==> r.blocker == Some(VerifierApprovalRequired)
    ensures verifierAllows && !guardianAllows ==> r.blocker == Some(ReleaseGuardianApprovalRequired)
    ensures verifierAllows && guardianAllows ==>
      var patches := ParsedPatches(SplitLines(proposal.patchText));
      var applies := PatchApplies(workspace.resolve, old(workspace.files), patches);
      && (!applies ==> r.blocker.Some? && r.blocker.value.PatchRejected?)
      && (applies && !WritesApproved(proposal) ==> r.blocker == Some(FilesDoNotMatch))
    ensures r.applied ==> var patches := ParsedPatches(SplitLines(proposal.patchText));
      && workspace.files == WriteAll(workspace.resolve, old(workspace.files),
                                     PlannedWrites(workspace.resolve, old(workspace.files), patches))
      && r.changedFiles == SortStrings(PatchPaths(patches)) && r.blocker.None?
  {
    var denial := ApprovalBlocker(verifierAllows, guardianAllows);
    if denial.Some? {
      return DiffApplyRecord(proposal.proposalId, false, [], denial);
    }
    ghost var before := workspace.files;
    ghost var patches := ParsedPatches(SplitLines(proposal.patchText));
    var result := workspace.ApplyUnifiedDiff(proposal.patchText);
    if !result.applied || result.journal.None? {
      return DiffApplyRecord(proposal.proposalId, false, [], Some(PatchRejected(result.blocker)));
    }
    assert result.changedFiles == PatchPaths(patches);
    SortStringsCanonical(result.changedFiles, proposal.changedFiles);
    var changedFiles := SortStrings(result.changedFiles);
    if changedFiles != SortStrings(proposal.changedFiles) {
      var rollback := workspace.RollbackWrites(
        result.journal.value, before, PlannedWrites(workspace.resolve, before, patches));
      var blocker := if rollback.rolledBack then FilesDoNotMatch else RollbackFailed(rollback.blocker);
      return DiffApplyRecord(proposal.proposalId, false, changedFiles, Some(blocker));
    }
    return DiffApplyRecord(proposal.proposalId, true, changedFiles, None);
  }
}
