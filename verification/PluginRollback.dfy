/** Applying a plan and rolling it back: what comes back, and when it is not what was there. */
module PluginRollback {
  import opened Wrappers
  import opened Text
  import opened Plugins

  function Target(plan: Plan, i: nat): Path
    requires i < |plan.operations|
  {
    plan.operations[i].path
  }

  function Backup(plan: Plan, i: nat): Path
    requires i < |plan.rollback| && plan.rollback[i].backup.Some?
  {
    plan.rollback[i].backup.value
  }

  ghost predicate HasBackups(plan: Plan) {
    |plan.operations| == |plan.rollback| && forall i :: 0 <= i < |plan.rollback| ==> plan.rollback[i].backup.Some?
  }

  /** All target and backup paths are pairwise distinct. */
  ghost predicate DistinctPaths(plan: Plan) {
    && HasBackups(plan)
    && (forall i, j :: 0 <= i < j < |plan.operations| ==>
          Target(plan, i) != Target(plan, j) && Backup(plan, i) != Backup(plan, j))
    && (forall i, j :: 0 <= i < |plan.operations| && 0 <= j < |plan.operations| ==> Target(plan, i) != Backup(plan, j))
  }

  /** The path is none of the targets and backups of the first `n` operations. */
  ghost predicate Outside(plan: Plan, n: nat, p: Path)
    requires HasBackups(plan) && n <= |plan.operations|
  {
    forall i :: 0 <= i < n ==> p != Target(plan, i) && p != Backup(plan, i)
  }

  // ---------------------------------------------------------------------------------------------
  // Applying

  /** Where the file went that a target had before. */
  function Saved(plan: Plan, before: Files, i: nat): Option<Content>
    requires i < |plan.operations| && i < |plan.rollback| && plan.rollback[i].backup.Some?
  {
    if Target(plan, i) in before then Some(before[Target(plan, i)]) else At(before, Backup(plan, i))
  }

  predicate HashRecorded(h: Host, op: Operation, hashes: map<Key, Digest>) {
    KeyOf(op) in hashes && hashes[KeyOf(op)] == h.digest(op.content)
  }

  /** Targets carry the new content, backups the old one where there was one, and every other file
      is as it was. */
  ghost predicate Written(plan: Plan, before: Files, n: nat, after: Files)
    requires HasBackups(plan) && n <= |plan.operations|
  {
    && (forall i :: 0 <= i < n ==> At(after, Target(plan, i)) == Some(plan.operations[i].content))
    && (forall i :: 0 <= i < n ==> At(after, Backup(plan, i)) == Saved(plan, before, i))
    && (forall p :: Outside(plan, n, p) ==> At(after, p) == At(before, p))
  }

  ghost predicate Applied(h: Host, plan: Plan, before: Files, n: nat, after: Progress)
    requires HasBackups(plan) && n <= |plan.operations|
  {
    && Written(plan, before, n, after.files)
    && (forall i :: 0 <= i < n ==> HashRecorded(h, plan.operations[i], after.hashes))
  }

  lemma WrittenNext(plan: Plan, before: Files, n: nat, now: Files)
    requires DistinctPaths(plan) && n < |plan.operations| && Written(plan, before, n, now)
    ensures Written(plan, before, n + 1, Install(now, plan.operations[n], Backup(plan, n)))
  {
    var t, b := Target(plan, n), Backup(plan, n);
    var after := Install(now, plan.operations[n], b);
    InstallElsewhere(now, plan.operations[n], b);
    WrittenHere(plan, before, n, now);
    hide Install, At, Saved;
    forall r | Outside(plan, n + 1, r) ensures At(after, r) == At(before, r) {
      assert Outside(plan, n, r) && r != t && r != b;
    }
    forall i | 0 <= i < n ensures At(after, Target(plan, i)) == At(now, Target(plan, i))
                                  && At(after, Backup(plan, i)) == At(now, Backup(plan, i)) {
      assert Target(plan, i) != t && Target(plan, i) != b && Backup(plan, i) != t && Backup(plan, i) != b;
    }
  }

  lemma WrittenHere(plan: Plan, before: Files, n: nat, now: Files)
    requires DistinctPaths(plan) && n < |plan.operations| && Written(plan, before, n, now)
    ensures var after := Install(now, plan.operations[n], Backup(plan, n));
      && At(after, Target(plan, n)) == Some(plan.operations[n].content)
      && At(after, Backup(plan, n)) == Saved(plan, before, n)
  {
    var t, b := Target(plan, n), Backup(plan, n);
    assert Outside(plan, n, t) && Outside(plan, n, b);
    assert At(now, t) == At(before, t) && At(now, b) == At(before, b) && t != b;
  }

  lemma InstallElsewhere(files: Files, op: Operation, backup: Path)
    ensures forall p :: p != op.path && p != backup ==> At(Install(files, op, backup), p) == At(files, p)
  {
  }

  lemma AppliedNext(h: Host, plan: Plan, before: Files, n: nat, p: Progress, q: Progress)
    requires DistinctPaths(plan) && n < |plan.operations| && Applied(h, plan, before, n, p)
    requires q.files == Install(p.files, plan.operations[n], Backup(plan, n))
    requires q.hashes == p.hashes[KeyOf(plan.operations[n]) := h.digest(plan.operations[n].content)]
    ensures Applied(h, plan, before, n + 1, q)
  {
    WrittenNext(plan, before, n, p.files);
    hide Written, Install;
    forall i | 0 <= i < n + 1 ensures HashRecorded(h, plan.operations[i], q.hashes) {
      if i < n {
        assert HashRecorded(h, plan.operations[i], p.hashes) && Target(plan, i) != Target(plan, n);
      }
    }
  }

  lemma {:induction false} ApplyEffect(h: Host, plan: Plan, before: Files, n: nat)
    requires Applicable(h, plan) && DistinctPaths(plan) && n <= |plan.operations|
    ensures Applied(h, plan, before, n, ApplyFirst(h, plan, before, n))
  {
    hide Applied, DistinctPaths, Install;
    if n == 0 {
      AppliedNone(h, plan, before);
    } else {
      ApplyEffect(h, plan, before, n - 1);
      AppliedNext(h, plan, before, n - 1, ApplyFirst(h, plan, before, n - 1), ApplyFirst(h, plan, before, n));
    }
  }

  /** The backup keys of the targets that existed, in plan order. */
  ghost function SavedKeys(plan: Plan, before: Files, n: nat): seq<Key>
    requires HasBackups(plan) && n <= |plan.operations|
  {
    if n == 0 then []
    else SavedKeys(plan, before, n - 1)
         + if Target(plan, n - 1) in before then [Key(plan.operations[n - 1].scope, Backup(plan, n - 1))] else []
  }

  /** The record names a backup exactly for the targets that existed before. */
  lemma {:induction false} BackupsRecorded(h: Host, plan: Plan, before: Files, n: nat)
    requires Applicable(h, plan) && DistinctPaths(plan) && n <= |plan.operations|
    ensures ApplyFirst(h, plan, before, n).backups == SavedKeys(plan, before, n)
  {
    hide Install, DistinctPaths, PairError;
    if n != 0 {
      BackupsRecorded(h, plan, before, n - 1);
      TargetUntouched(h, plan, before, n - 1);
    }
  }

  lemma TargetUntouched(h: Host, plan: Plan, before: Files, n: nat)
    requires Applicable(h, plan) && DistinctPaths(plan) && n < |plan.operations|
    ensures Target(plan, n) in ApplyFirst(h, plan, before, n).files <==> Target(plan, n) in before
  {
    hide ApplyFirst, HashRecorded, DistinctPaths, Outside, Applicable, Saved;
    ApplyEffect(h, plan, before, n);
    TargetIsOutside(plan, n);
  }

  lemma TargetIsOutside(plan: Plan, n: nat)
    requires DistinctPaths(plan) && n < |plan.operations|
    ensures Outside(plan, n, Target(plan, n))
  {
  }

  lemma AppliedNone(h: Host, plan: Plan, before: Files)
    requires HasBackups(plan)
    ensures Applied(h, plan, before, 0, Progress(before, map[], []))
  {
  }

  // ---------------------------------------------------------------------------------------------
  // Rolling back

  /** The first `n` targets carry their backups, or are gone where there is none. */
  ghost predicate Restored(plan: Plan, before: Files, n: nat, after: Files)
    requires HasBackups(plan) && n <= |plan.operations|
  {
    && (forall i :: 0 <= i < n ==> At(after, Target(plan, i)) == At(before, Backup(plan, i)))
    && (forall p :: (forall i :: 0 <= i < n ==> p != Target(plan, i)) ==> At(after, p) == At(before, p))
  }

  lemma RestoredNext(plan: Plan, before: Files, n: nat, now: Files)
    requires DistinctPaths(plan) && n < |plan.operations| && Restored(plan, before, n, now)
    ensures Restored(plan, before, n + 1, Restore(now, Target(plan, n), Backup(plan, n)))
    ensures At(now, Target(plan, n)) == At(before, Target(plan, n))
  {
    var t, b := Target(plan, n), Backup(plan, n);
    var after := Restore(now, t, b);
    assert At(now, b) == At(before, b);
    forall i | 0 <= i < n ensures At(after, Target(plan, i)) == At(now, Target(plan, i)) {
      assert Target(plan, i) != t;
    }
    forall p | forall i :: 0 <= i < n + 1 ==> p != Target(plan, i) ensures At(after, p) == At(before, p) {
      assert p != Target(plan, n);
      assert forall i :: 0 <= i < n ==> p != Target(plan, i);
    }
  }

  lemma RestoredNone(plan: Plan, files: Files)
    requires HasBackups(plan)
    ensures Restored(plan, files, 0, files)
  {
  }

  lemma SameUndoError(h: Host, hashes: map<Key, Digest>, a: Files, b: Files, op: Operation)
    requires At(a, op.path) == At(b, op.path)
    ensures UndoError(h, hashes, a, op) == UndoError(h, hashes, b, op)
  {
  }

  lemma {:induction false} UndoPrefix(h: Host, plan: Plan, hashes: map<Key, Digest>, files: Files, k: nat, n: nat)
    requires Applicable(h, plan) && DistinctPaths(plan) && n <= k <= |plan.operations|
    requires forall i :: 0 <= i < k ==> UndoError(h, hashes, files, plan.operations[i]).None?
    ensures var (after, error) := UndoFirst(h, plan, hashes, files, n); error.None? && Restored(plan, files, n, after)
  {
    hide Restored, DistinctPaths, Restore, Approved;
    if n == 0 {
      RestoredNone(plan, files);
    } else {
      UndoPrefix(h, plan, hashes, files, k, n - 1);
      var now := UndoFirst(h, plan, hashes, files, n - 1).0;
      RestoredNext(plan, files, n - 1, now);
      SameUndoError(h, hashes, files, now, plan.operations[n - 1]);
      assert UndoError(h, hashes, files, plan.operations[n - 1]).None?;
      assert PairError(h, plan.operations[n - 1], plan.rollback[n - 1]).None?;
    }
  }
  // ---------------------------------------------------------------------------------------------
  // There and back again

  /** An old backup lies beside a target that does not exist. */
  predicate LeftoverBackup(plan: Plan, files: Files, i: nat)
    requires i < |plan.operations| && i < |plan.rollback| && plan.rollback[i].backup.Some?
  {
    Target(plan, i) !in files && Backup(plan, i) in files
  }

  ghost function AfterApply(h: Host, plan: Plan, files: Files): Progress
    requires Applicable(h, plan)
  {
    ApplyFirst(h, plan, files, |plan.operations|)
  }

  lemma AppliedIsUndrifted(h: Host, plan: Plan, before: Files, p: Progress)
    requires HasBackups(plan) && Applied(h, plan, before, |plan.operations|, p)
    ensures forall i :: 0 <= i < |plan.operations| ==> UndoError(h, p.hashes, p.files, plan.operations[i]).None?
  {
    forall i | 0 <= i < |plan.operations| ensures UndoError(h, p.hashes, p.files, plan.operations[i]).None? {
      assert At(p.files, Target(plan, i)) == Some(plan.operations[i].content);
      assert HashRecorded(h, plan.operations[i], p.hashes);
    }
  }

  /** Rolling back what was just applied passes every drift check.  A target comes back as it was,
      content or absence, exactly when it had no leftover backup; where it had one, the old backup
      takes its place.  Besides the targets only backup paths of existing targets have changed. */
  lemma ApplyThenRollback(h: Host, plan: Plan, before: Files)
    requires Applicable(h, plan) && DistinctPaths(plan)
    ensures var p := AfterApply(h, plan, before);
      var (after, error) := UndoFirst(h, plan, p.hashes, p.files, Pairs(plan));
      && error.None?
      && (forall i :: 0 <= i < |plan.operations| ==>
            At(after, Target(plan, i))
              == if LeftoverBackup(plan, before, i) then Some(before[Backup(plan, i)]) else At(before, Target(plan, i)))
      && (forall i :: 0 <= i < |plan.operations| ==>
            (At(after, Target(plan, i)) == At(before, Target(plan, i)) <==> !LeftoverBackup(plan, before, i)))
      && (forall i :: 0 <= i < |plan.operations| ==>
            At(after, Backup(plan, i)) == Saved(plan, before, i))
      && (forall p :: Outside(plan, |plan.operations|, p) ==> At(after, p) == At(before, p))
  {
    var n := |plan.operations|;
    ApplyEffect(h, plan, before, n);
    var p := AfterApply(h, plan, before);
    AppliedIsUndrifted(h, plan, before, p);
    UndoPrefix(h, plan, p.hashes, p.files, n, n);
    RoundTrip(h, plan, before, p, UndoFirst(h, plan, p.hashes, p.files, n).0);
  }

  lemma RoundTrip(h: Host, plan: Plan, before: Files, p: Progress, after: Files)
    requires DistinctPaths(plan)
    requires Applied(h, plan, before, |plan.operations|, p) && Restored(plan, p.files, |plan.operations|, after)
    ensures forall i :: 0 <= i < |plan.operations| ==>
      At(after, Target(plan, i))
        == if LeftoverBackup(plan, before, i) then Some(before[Backup(plan, i)]) else At(before, Target(plan, i))
    ensures forall i :: 0 <= i < |plan.operations| ==>
      At(after, Backup(plan, i)) == Saved(plan, before, i)
    ensures forall p :: Outside(plan, |plan.operations|, p) ==> At(after, p) == At(before, p)
  {
    forall i | 0 <= i < |plan.operations| ensures At(after, Backup(plan, i)) == At(p.files, Backup(plan, i)) {
      assert forall j :: 0 <= j < |plan.operations| ==> Backup(plan, i) != Target(plan, j);
    }
  }

  /** The record left by a rollback or an uninstall has no hashes any more, so that rolling back a
      non-empty plan with it fails at the first file and changes nothing. */
  lemma SecondRollbackFails(h: Host, plan: Plan, files: Files)
    requires Pairs(plan) > 0
    ensures var (after, error) := UndoFirst(h, plan, map[], files, Pairs(plan)); error.Some? && after == files
  {
    var (after, error) := UndoFirst(h, plan, map[], files, 1);
    assert error.Some? && after == files by {
      assert UndoFirst(h, plan, map[], files, 0) == (files, None);
    }
    StoppedUndo(h, plan, map[], files, 1, Pairs(plan));
  }

  /** A file that was edited after it was applied stops the rollback: the targets before it are
      restored, it and everything after it stay as they are. */
  lemma DriftStopsRollback(h: Host, plan: Plan, hashes: map<Key, Digest>, files: Files, k: nat)
    requires Applicable(h, plan) && DistinctPaths(plan) && k < |plan.operations|
    requires forall i :: 0 <= i < k ==> UndoError(h, hashes, files, plan.operations[i]).None?
    requires UndoError(h, hashes, files, plan.operations[k]).Some?
    ensures var (after, error) := UndoFirst(h, plan, hashes, files, Pairs(plan));
      error == UndoError(h, hashes, files, plan.operations[k]) && Restored(plan, files, k, after)
  {
    UndoPrefix(h, plan, hashes, files, k, k);
    var now := UndoFirst(h, plan, hashes, files, k).0;
    RestoredNext(plan, files, k, now);
    SameUndoError(h, hashes, files, now, plan.operations[k]);
    assert PairError(h, plan.operations[k], plan.rollback[k]).None?;
    StoppedUndo(h, plan, hashes, files, k + 1, Pairs(plan));
  }

  // ---------------------------------------------------------------------------------------------
  // Uninstalling

  /** The first `n` targets are gone, everything else is as it was. */
  ghost predicate Removed(plan: Plan, before: Files, n: nat, after: Files)
    requires n <= |plan.operations|
  {
    && (forall i :: 0 <= i < n ==> Target(plan, i) !in after)
    && (forall p :: (forall i :: 0 <= i < n ==> p != Target(plan, i)) ==> At(after, p) == At(before, p))
  }

  lemma RemovedNext(plan: Plan, before: Files, n: nat, now: Files)
    requires DistinctPaths(plan) && n < |plan.operations| && Removed(plan, before, n, now)
    ensures Removed(plan, before, n + 1, now - {Target(plan, n)})
    ensures At(now, Target(plan, n)) == At(before, Target(plan, n))
  {
    forall p | forall i :: 0 <= i < n + 1 ==> p != Target(plan, i)
      ensures At(now - {Target(plan, n)}, p) == At(before, p)
    {
      assert p != Target(plan, n);
      assert forall i :: 0 <= i < n ==> p != Target(plan, i);
    }
  }

  lemma {:induction false} RemoveEffect(h: Host, plan: Plan, hashes: map<Key, Digest>, files: Files, n: nat)
    requires Applicable(h, plan) && DistinctPaths(plan) && n <= |plan.operations|
    requires forall i :: 0 <= i < |plan.operations| ==> UndoError(h, hashes, files, plan.operations[i]).None?
    ensures var (after, error) := RemoveFirst(h, plan, hashes, files, n); error.None? && Removed(plan, files, n, after)
  {
    hide Removed, DistinctPaths;
    if n == 0 {
      RemovedNone(plan, files);
    } else {
      RemoveEffect(h, plan, hashes, files, n - 1);
      var now := RemoveFirst(h, plan, hashes, files, n - 1).0;
      RemovedNext(plan, files, n - 1, now);
      SameUndoError(h, hashes, files, now, plan.operations[n - 1]);
      assert UndoError(h, hashes, files, plan.operations[n - 1]).None?;
      assert PairError(h, plan.operations[n - 1], plan.rollback[n - 1]).None?;
    }
  }

  lemma RemovedNone(plan: Plan, files: Files)
    ensures Removed(plan, files, 0, files)
  {
  }

  /** Uninstalling leaves the backup of an overwritten file behind, and its record can no longer be
      rolled back.  When the plan is applied again and that is rolled back, the file from before the
      first application comes back instead of the absence from before the second. */
  lemma ReinstallResurrects(h: Host, plan: Plan, before: Files, i: nat)
    requires Applicable(h, plan) && DistinctPaths(plan) && i < |plan.operations| && Target(plan, i) in before
    ensures var p := AfterApply(h, plan, before);
      var (between, error) := RemoveFirst(h, plan, p.hashes, p.files, |plan.operations|);
      var q := AfterApply(h, plan, between);
      var (after, failed) := UndoFirst(h, plan, q.hashes, q.files, Pairs(plan));
      && error.None? && failed.None?
      && At(between, Target(plan, i)) == None && At(after, Target(plan, i)) == Some(before[Target(plan, i)])
  {
    var n := |plan.operations|;
    var p := AfterApply(h, plan, before);
    ApplyEffect(h, plan, before, n);
    AppliedIsUndrifted(h, plan, before, p);
    RemoveEffect(h, plan, p.hashes, p.files, n);
    var between := RemoveFirst(h, plan, p.hashes, p.files, n).0;
    assert forall j :: 0 <= j < n ==> Backup(plan, i) != Target(plan, j);
    assert At(between, Backup(plan, i)) == Saved(plan, before, i);
    assert LeftoverBackup(plan, between, i);
    ApplyThenRollback(h, plan, between);
  }

  // ---------------------------------------------------------------------------------------------
  // Plans made by a dry run

  /** A dry run yields pairwise distinct paths exactly when the config paths are distinct and none is
      the backup of another. */
  lemma DryRunPaths(configs: seq<ConfigPath>, content: Content, plan: Plan)
    requires Plans(configs, |configs|, content, plan.operations, plan.rollback)
    ensures DistinctPaths(plan) <==>
      && (forall i, j :: 0 <= i < j < |configs| ==> configs[i].path != configs[j].path)
      && (forall i, j :: 0 <= i < |configs| && 0 <= j < |configs| ==>
            configs[i].path != configs[j].path + BACKUP_SUFFIX)
  {
    forall i, j | 0 <= i < |configs| && 0 <= j < |configs|
      ensures configs[i].path + BACKUP_SUFFIX == configs[j].path + BACKUP_SUFFIX <==> configs[i].path == configs[j].path
    {
      SuffixInjective(configs[i].path, configs[j].path);
    }
    forall i | 0 <= i < |configs|
      ensures Target(plan, i) == configs[i].path && plan.rollback[i].backup == Some(configs[i].path + BACKUP_SUFFIX)
    {
    }
  }

  lemma SuffixInjective(a: string, b: string)
    ensures a + BACKUP_SUFFIX == b + BACKUP_SUFFIX <==> a == b
  {
    if a + BACKUP_SUFFIX == b + BACKUP_SUFFIX {
      assert a == (a + BACKUP_SUFFIX)[..|a|];
      assert b == (b + BACKUP_SUFFIX)[..|b|];
    }
  }

  // ---------------------------------------------------------------------------------------------
  // Records that cannot be made

  lemma PlainAppliedWords()
    ensures !HasControl("Applied reviewed plugin ")
  {
  }

  lemma PlainDryRunWords()
    ensures !HasControl("dry-run with approval ")
  {
  }

  lemma PlainRemovedWords()
    ensures !HasControl("Removed applied plugin ")
  {
  }

  lemma PlainConfigWords()
    ensures !HasControl("config with approval ")
  {
  }

  lemma PlainRolledBackWords()
    ensures !HasControl("Rolled back plugin ")
  {
  }

  lemma SentenceFits(words: string, more: string, reference: string)
    requires !HasControl(reference) && !HasControl(words) && !HasControl(more)
    ensures ValidEvidence(words + more + reference + ".") <==> |words| + |more| + |reference| + 1 <= 300
  {
  }

  /** How long a reference may be for the sentence that quotes it. */
  lemma EvidenceLength(reference: string)
    requires Approved(reference)
    ensures ValidEvidence(ApplyEvidence(reference)) <==> |reference| <= 253
    ensures ValidEvidence(UninstallEvidence(reference)) <==> |reference| <= 255
    ensures ValidEvidence(RollbackEvidence(reference)) <==> |reference| <= 259
  {
    hide ValidEvidence, HasControl;
    PlainAppliedWords();
    PlainDryRunWords();
    PlainRemovedWords();
    PlainConfigWords();
    PlainRolledBackWords();
    SentenceFits("Applied reviewed plugin ", "dry-run with approval ", reference);
    SentenceFits("Removed applied plugin ", "config with approval ", reference);
    SentenceFits("Rolled back plugin ", "config with approval ", reference);
  }

  lemma {:induction false} HashedKeys(h: Host, plan: Plan, before: Files, n: nat)
    requires Applicable(h, plan) && n <= |plan.operations|
    ensures forall k :: k in ApplyFirst(h, plan, before, n).hashes
                   <==> exists i :: 0 <= i < n && k == KeyOf(plan.operations[i])
  {
    hide KeyOf, Install;
    if n != 0 {
      HashedKeys(h, plan, before, n - 1);
    }
  }

  /** The names of all targets, and of the backups made, may stand in a record. */
  ghost predicate NamesFit(h: Host, plan: Plan, backups: seq<Key>) {
    && (forall i :: 0 <= i < |plan.operations| ==> RelativeText(KeyText(h, KeyOf(plan.operations[i]))))
    && (forall b :: b in backups ==> !HasControl(KeyText(h, b)))
  }

  /** A call past the guards writes all its files, whatever happens then.  It returns its record
      exactly when the reference has at most 253 characters and the names fit. */
  lemma AppliedIsRecorded(h: Host, plan: Plan, before: Files, reference: string)
    requires Approved(reference) && Applicable(h, plan)
    ensures var (after, r) := ApplyResult(h, plan, before, reference);
      && after == AfterApply(h, plan, before).files
      && (r.Success? <==> |reference| <= 253 && NamesFit(h, plan, AfterApply(h, plan, before).backups))
      && (r.Failure? ==> r == Failure(BadResult))
  {
    var n := |plan.operations|;
    EvidenceLength(reference);
    HashedKeys(h, plan, before, n);
    hide ValidEvidence, RelativeText, KeyText, HasControl, Applicable, Approved, ApplyFirst;
    var p := AfterApply(h, plan, before);
    assert ValidRecord(h, p.hashes, p.backups) <==> NamesFit(h, plan, p.backups) by {
      forall i | 0 <= i < n ensures KeyOf(plan.operations[i]) in p.hashes {
      }
    }
  }

  /** Likewise for uninstalling and rolling back with a matching record: the files are what the loop
      left, and the record comes back if the loop was not stopped and the reference has at most 255
      and 259 characters. */
  lemma UndoneIsRecorded(h: Host, plan: Plan, inventory: Inventory, files: Files, reference: string)
    requires Approved(reference) && Describes(inventory, plan)
    ensures var (after, r) := UninstallResult(h, plan, inventory, files, reference);
      var (left, error) := RemoveFirst(h, plan, inventory.hashes, files, |plan.operations|);
      && after == left && (r.Success? <==> error.None? && |reference| <= 255)
      && (r.Failure? ==> r.error == if error.Some? then error.value else BadResult)
    ensures var (after, r) := RollbackResult(h, plan, inventory, files, reference);
      var (left, error) := UndoFirst(h, plan, inventory.hashes, files, Pairs(plan));
      && after == left && (r.Success? <==> error.None? && |reference| <= 259)
      && (r.Failure? ==> r.error == if error.Some? then error.value else BadResult)
  {
    EvidenceLength(reference);
    hide ValidEvidence, Approved, Describes, RemoveFirst, UndoFirst;
  }

  lemma LongReferenceIsApproved(n: nat)
    requires n > 0
    ensures Approved(seq(n, _ => 'x'))
  {
    var text: string := seq(n, _ => 'x');
    assert text[0] == 'x' && text[n - 1] == 'x';
    assert LStrip(text) == text && RStrip(text) == text;
  }

  /** A reference of 254 characters: the config is overwritten, and there is no record with which the
      change could be undone. */
  lemma LongReferenceLosesRecord()
    ensures var h := Host((c: Content) => c, (s: Scope, p: Path) => true, (s: Scope, p: Path) => p);
      var plan := Plan("plugin", "codex", "1.0.0", true, 0, [Operation(UserScope, "config", "new")],
                       [Undo("restore_or_remove", "config", Some("config.vad-backup"))], "digest", "digest");
      var (after, r) := ApplyResult(h, plan, map["config" := "old"], seq(254, _ => 'x'));
      At(after, "config") == Some("new") && r == Failure(BadResult)
  {
    var h := Host((c: Content) => c, (s: Scope, p: Path) => true, (s: Scope, p: Path) => p);
    var plan := Plan("plugin", "codex", "1.0.0", true, 0, [Operation(UserScope, "config", "new")],
                     [Undo("restore_or_remove", "config", Some("config.vad-backup"))], "digest", "digest");
    assert |"config"| != |"config.vad-backup"|;
    assert DistinctPaths(plan) && Applicable(h, plan);
    ApplyEffect(h, plan, map["config" := "old"], 1);
    LongReferenceIsApproved(254);
    AppliedIsRecorded(h, plan, map["config" := "old"], seq(254, _ => 'x'));
    assert Target(plan, 0) == "config";
  }
}
