/** Applying a patch to a workspace, with a journal that can undo it.  A workspace is a map from
    resolved locations to contents; `resolve` stands for path resolution and may send different
    spellings to the same location, or reject a path that leaves the root. */
module PatchApply {
  import opened Wrappers
  import opened Text
  import opened Hunks
  import opened UnifiedDiff

  type Location = string

  type Files = map<Location, string>

  type Resolver = string -> Option<Location>

  datatype FileSnapshot = FileSnapshot(path: string, existed: bool, content: string)

  datatype Write = Write(path: string, content: string)

  datatype Blocker =
    | NoFilePatches
    | AbsolutePath
    | PathEscapes
    | TargetMissing(path: string)
    | DoesNotApply(path: string)
    | JournalEscapes(path: string)

  datatype RollbackResult = RollbackResult(rolledBack: bool, restored: seq<string>, blocker: Option<Blocker>)

  datatype PatchApplyResult = PatchApplyResult(
    applied: bool, changedFiles: seq<string>, journal: Option<seq<FileSnapshot>>, blocker: Option<Blocker>)

  // ---------------------------------------------------------------------------------------------
  // Effects on files

  function WriteFile(resolve: Resolver, files: Files, w: Write): Files {
    match resolve(w.path) case None => files case Some(at) => files[at := w.content]
  }

  /** Writes in order: a later write to the same location wins. */
  function WriteAll(resolve: Resolver, files: Files, writes: seq<Write>): Files {
    if writes == [] then files
    else
      var n := |writes| - 1;
      WriteFile(resolve, WriteAll(resolve, files, writes[..n]), writes[n])
  }

  function RestoreFile(resolve: Resolver, files: Files, s: FileSnapshot): Files {
    match resolve(s.path)
    case None => files
    case Some(at) => if s.existed then files[at := s.content] else files - {at}
  }

  function RestoreAll(resolve: Resolver, files: Files, snapshots: seq<FileSnapshot>): Files {
    if snapshots == [] then files
    else
      var n := |snapshots| - 1;
      RestoreFile(resolve, RestoreAll(resolve, files, snapshots[..n]), snapshots[n])
  }

  function SnapshotOf(resolve: Resolver, files: Files, path: string): FileSnapshot {
    match resolve(path)
    case None => FileSnapshot(path, false, "")
    case Some(at) => if at in files then FileSnapshot(path, true, files[at]) else FileSnapshot(path, false, "")
  }

  predicate Resolves(resolve: Resolver, path: string) {
    resolve(path).Some?
  }

  /** The snapshots were all taken of the same files, and their paths stay inside the root. */
  ghost predicate TakenFrom(resolve: Resolver, before: Files, snapshots: seq<FileSnapshot>) {
    forall i :: 0 <= i < |snapshots| ==>
      Resolves(resolve, snapshots[i].path) && snapshots[i] == SnapshotOf(resolve, before, snapshots[i].path)
  }

  /** The location is journalled. */
  ghost predicate Journalled(resolve: Resolver, snapshots: seq<FileSnapshot>, at: Location) {
    exists i :: 0 <= i < |snapshots| && resolve(snapshots[i].path) == Some(at)
  }

  predicate SameAt(a: Files, b: Files, at: Location) {
    (at in a <==> at in b) && (at in a ==> a[at] == b[at])
  }

  /** From any state of the workspace, rolling back restores every journalled location to what it
      was when the journal was captured, and touches nothing else, even when paths repeat. */
  lemma {:induction false} RollbackRestores(resolve: Resolver, before: Files, now: Files, snapshots: seq<FileSnapshot>)
    requires TakenFrom(resolve, before, snapshots)
    ensures forall at :: SameAt(RestoreAll(resolve, now, snapshots),
                                if Journalled(resolve, snapshots, at) then before else now, at)
  {
    if snapshots != [] {
      var n := |snapshots| - 1;
      RollbackRestores(resolve, before, now, snapshots[..n]);
      var last := resolve(snapshots[n].path).value;
      assert snapshots[n] == SnapshotOf(resolve, before, snapshots[n].path);
      forall at
        ensures SameAt(RestoreAll(resolve, now, snapshots),
                       if Journalled(resolve, snapshots, at) then before else now, at)
      {
        if at == last {
          assert Journalled(resolve, snapshots, at);
        } else {
          JournalledBefore(resolve, snapshots, at);
        }
      }
    }
  }

  lemma JournalledBefore(resolve: Resolver, snapshots: seq<FileSnapshot>, at: Location)
    requires snapshots != [] && resolve(snapshots[|snapshots| - 1].path) != Some(at)
    ensures Journalled(resolve, snapshots, at) <==> Journalled(resolve, snapshots[..|snapshots| - 1], at)
  {
    var front := snapshots[..|snapshots| - 1];
    if Journalled(resolve, snapshots, at) {
      var i :| 0 <= i < |snapshots| && resolve(snapshots[i].path) == Some(at);
      assert front[i] == snapshots[i];
    }
    if Journalled(resolve, front, at) {
      var i :| 0 <= i < |front| && resolve(front[i].path) == Some(at);
      assert snapshots[i] == front[i];
    }
  }

  lemma {:induction false} WritesStayPut(resolve: Resolver, files: Files, writes: seq<Write>, at: Location)
    requires forall i :: 0 <= i < |writes| ==> resolve(writes[i].path) != Some(at)
    ensures SameAt(WriteAll(resolve, files, writes), files, at)
  {
    if writes != [] {
      WritesStayPut(resolve, files, writes[..|writes| - 1], at);
    }
  }

  /** Rolling back right after the journalled writes gives back the files as they were. */
  lemma RollbackUndoesWrites(resolve: Resolver, before: Files, writes: seq<Write>, snapshots: seq<FileSnapshot>)
    requires TakenFrom(resolve, before, snapshots)
    requires |snapshots| == |writes| && forall i :: 0 <= i < |writes| ==> snapshots[i].path == writes[i].path
    ensures RestoreAll(resolve, WriteAll(resolve, before, writes), snapshots) == before
  {
    var now := WriteAll(resolve, before, writes);
    var after := RestoreAll(resolve, now, snapshots);
    RollbackRestores(resolve, before, now, snapshots);
    forall at ensures SameAt(after, before, at) {
      if !Journalled(resolve, snapshots, at) {
        assert forall i :: 0 <= i < |writes| ==> resolve(snapshots[i].path) != Some(at);
        WritesStayPut(resolve, before, writes, at);
      }
    }
    assert forall at :: SameAt(after, before, at);
    assert after.Keys == before.Keys;
  }

  // ---------------------------------------------------------------------------------------------
  // What a patch writes

  function GuardBlocker(resolve: Resolver, path: string): Option<Blocker> {
    if StartsWith(path, "/") then Some(AbsolutePath)
    else if resolve(path).None? then Some(PathEscapes)
    else None
  }

  /** Why a file patch cannot be applied to these files. */
  ghost function FileBlocker(resolve: Resolver, files: Files, p: FilePatch): Option<Blocker> {
    if GuardBlocker(resolve, p.path).Some? then GuardBlocker(resolve, p.path)
    else if resolve(p.path).value !in files then Some(TargetMissing(p.path))
    else if !HunksFit(SplitLines(files[resolve(p.path).value]), p.hunks, 0) then Some(DoesNotApply(p.path))
    else None
  }

  ghost function PlannedWrite(resolve: Resolver, files: Files, p: FilePatch): Write
    requires FileBlocker(resolve, files, p).None?
  {
    Write(p.path, Join(HunksPatched(SplitLines(files[resolve(p.path).value]), p.hunks, 0)))
  }

  /** The first reason why a patch set is rejected; it is read entirely against the old files. */
  ghost function PatchBlocker(resolve: Resolver, files: Files, patches: seq<FilePatch>): Option<Blocker> {
    if patches == [] then None
    else if FileBlocker(resolve, files, patches[0]).Some? then FileBlocker(resolve, files, patches[0])
    else PatchBlocker(resolve, files, patches[1..])
  }

  ghost predicate PatchApplies(resolve: Resolver, files: Files, patches: seq<FilePatch>) {
    patches != [] && PatchBlocker(resolve, files, patches).None?
  }

  ghost function PlannedWrites(resolve: Resolver, files: Files, patches: seq<FilePatch>): (w: seq<Write>)
    requires PatchBlocker(resolve, files, patches).None?
    ensures |w| == |patches| && forall i :: 0 <= i < |w| ==> w[i].path == patches[i].path
  {
    if patches == [] then []
    else [PlannedWrite(resolve, files, patches[0])] + PlannedWrites(resolve, files, patches[1..])
  }

  class Workspace {
    const resolve: Resolver
    var files: Files

    constructor (resolve: Resolver, files: Files)
      ensures this.resolve == resolve && this.files == files
    {
      this.resolve, this.files := resolve, files;
    }

    /** `PatchJournal.capture`: Failure names a path that leaves the root. */
    method Capture(paths: seq<string>) returns (r: Result<seq<FileSnapshot>, string>)
      ensures r.Success? <==> forall i :: 0 <= i < |paths| ==> Resolves(resolve, paths[i])
      ensures r.Success? ==> TakenFrom(resolve, files, r.value)
      ensures r.Success? ==> |r.value| == |paths| && forall i :: 0 <= i < |paths| ==> r.value[i].path == paths[i]
    {
      var snapshots := [];
      for i := 0 to |paths|
        invariant |snapshots| == i && TakenFrom(resolve, files, snapshots)
        invariant forall k :: 0 <= k < i ==> Resolves(resolve, paths[k]) && snapshots[k].path == paths[k]
      {
        var target := resolve(paths[i]);
        if target.None? {
          return Failure(paths[i]);
        }
        var existed := target.value in files;
        var s := FileSnapshot(paths[i], existed, if existed then files[target.value] else "");
        snapshots := snapshots + [s];
      }
      return Success(snapshots);
    }

    /** `PatchJournal.rollback` */
    method Rollback(snapshots: seq<FileSnapshot>) returns (r: RollbackResult)
      modifies `files
      ensures r.rolledBack <==> forall i :: 0 <= i < |snapshots| ==> Resolves(resolve, snapshots[i].path)
      ensures |r.restored| <= |snapshots|
      ensures files == RestoreAll(resolve, old(files), snapshots[..|r.restored|])
      ensures r.rolledBack ==> |r.restored| == |snapshots|
      ensures forall i :: 0 <= i < |r.restored| ==> r.restored[i] == snapshots[i].path
    {
      var restored := [];
      for i := 0 to |snapshots|
        invariant |restored| == i && files == RestoreAll(resolve, old(files), snapshots[..i])
        invariant forall k :: 0 <= k < i ==> Resolves(resolve, snapshots[k].path) && restored[k] == snapshots[k].path
      {
        var s := snapshots[i];
        var target := resolve(s.path);
        if target.None? {
          return RollbackResult(false, restored, Some(JournalEscapes(s.path)));
        }
        if s.existed {
          files := files[target.value := s.content];
        } else if target.value in files {
          files := files - {target.value};
        }
        restored := restored + [s.path];
        assert snapshots[..i + 1][..i] == snapshots[..i];
      }
      return RollbackResult(true, restored, None);
    }

    /** Rolling back while the workspace is just the captured files plus the journalled writes. */
    method RollbackWrites(snapshots: seq<FileSnapshot>, ghost before: Files, ghost writes: seq<Write>)
      returns (r: RollbackResult)
      requires TakenFrom(resolve, before, snapshots) && files == WriteAll(resolve, before, writes)
      requires |snapshots| == |writes| && forall i :: 0 <= i < |writes| ==> snapshots[i].path == writes[i].path
      modifies `files
      ensures r.rolledBack && files == before
    {
      RollbackUndoesWrites(resolve, before, writes, snapshots);
      assert forall i :: 0 <= i < |snapshots| ==> Resolves(resolve, snapshots[i].path);
      r := Rollback(snapshots);
      assert snapshots[..|snapshots|] == snapshots;
    }

    /** The first loop of `apply_unified_diff`: what would be written, or why nothing will be. */
    method PlanWrites(patches: seq<FilePatch>) returns (r: Result<seq<Write>, Blocker>)
      ensures r.Success? <==> PatchBlocker(resolve, files, patches).None?
      ensures r.Failure? ==> Some(r.error) == PatchBlocker(resolve, files, patches)
      ensures r.Success? ==> r.value == PlannedWrites(resolve, files, patches)
      ensures r.Success? ==> forall i :: 0 <= i < |patches| ==> Resolves(resolve, patches[i].path)
    {
      var planned := [];
      for i := 0 to |patches|
        invariant PatchBlocker(resolve, files, patches) == PatchBlocker(resolve, files, patches[i..])
        invariant PatchBlocker(resolve, files, patches).None? ==>
          PlannedWrites(resolve, files, patches) == planned + PlannedWrites(resolve, files, patches[i..])
        invariant forall k :: 0 <= k < i ==> Resolves(resolve, patches[k].path)
      {
        var p := patches[i];
        assert patches[i..][0] == p && patches[i..][1..] == patches[i + 1..];
        var denied := GuardBlocker(resolve, p.path);
        if denied.Some? {
          return Failure(denied.value);
        }
        var target := resolve(p.path).value;
        if target !in files {
          return Failure(TargetMissing(p.path));
        }
        var applied := ApplyHunks(SplitLines(files[target]), p.hunks);
        if applied.None? {
          return Failure(DoesNotApply(p.path));
        }
        planned := planned + [Write(p.path, Join(applied.value))];
      }
      return Success(planned);
    }

    method WritePlanned(writes: seq<Write>)
      requires forall i :: 0 <= i < |writes| ==> Resolves(resolve, writes[i].path)
      modifies `files
      ensures files == WriteAll(resolve, old(files), writes)
    {
      for i := 0 to |writes|
        invariant files == WriteAll(resolve, old(files), writes[..i])
      {
        assert writes[..i + 1][..i] == writes[..i];
        files := files[resolve(writes[i].path).value := writes[i].content];
      }
      assert writes[..|writes|] == writes;
    }

    /** `apply_unified_diff` */
    method ApplyUnifiedDiff(patchText: string) returns (r: PatchApplyResult)
      modifies `files
      ensures r.applied <==> PatchApplies(resolve, old(files), ParsedPatches(SplitLines(patchText)))
      ensures !r.applied ==> files == old(files) && r.journal.None? && r.blocker.Some?
      ensures r.applied ==> var patches := ParsedPatches(SplitLines(patchText));
        && files == WriteAll(resolve, old(files), PlannedWrites(resolve, old(files), patches))
        && |r.changedFiles| == |patches| && (forall i :: 0 <= i < |patches| ==> r.changedFiles[i] == patches[i].path)
        && r.journal.Some? && TakenFrom(resolve, old(files), r.journal.value)
        && |r.journal.value| == |patches|
        && (forall i :: 0 <= i < |patches| ==> r.journal.value[i].path == patches[i].path)
    {
      var patches := ParseUnifiedDiff(patchText);
      if patches == [] {
        return PatchApplyResult(false, [], None, Some(NoFilePatches));
      }
      var planned := PlanWrites(patches);
      if planned.Failure? {
        return PatchApplyResult(false, [], None, Some(planned.error));
      }
      var writes := planned.value;
      var paths := seq(|writes|, i requires 0 <= i < |writes| => writes[i].path);
      var journal := Capture(paths);
      if journal.Failure? {
        assert false;
      }
      WritePlanned(writes);
      return PatchApplyResult(true, paths, Some(journal.value), None);
    }
  }
}
