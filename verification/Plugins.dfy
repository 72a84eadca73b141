/** Installing plugin configuration: apply, uninstall and roll back a reviewed plan.  Files are a map
    from resolved path to content; the digest and the path guard are parameters. */
module Plugins {
  import opened Wrappers
  import opened Text

  type Path = string
  type Content = string
  type Digest = string

  datatype Scope = UserScope | WorkspaceScope | ProjectScope

  /** The inventory names a file by scope and path. */
  datatype Key = Key(scope: Scope, path: Path)

  datatype Operation = Operation(scope: Scope, path: Path, content: Content)

  datatype Undo = Undo(action: string, path: Path, backup: Option<Path>)

  datatype Plan = Plan(
    pluginId: string, targetClient: string, version: string, dryRun: bool, writesPerformed: int,
    operations: seq<Operation>, rollback: seq<Undo>, artifactDigest: string, manifestDigest: string)

  datatype Inventory = Inventory(
    pluginId: string, targetClient: string, version: string,
    hashes: map<Key, Digest>, backups: seq<Key>,
    artifactDigest: Option<string>, manifestDigest: Option<string>,
    uninstallStatus: string, rollbackStatus: string)

  datatype Error =
    | NoApproval
    | BadPlan
    | BadScope
    | Escapes
    | BadUndo
    | Mismatch
    | MissingHash(key: Key)
    | Drifted(key: Key)
    | BadResult

  /** The environment: digest of a content, whether a path lies under the root of a scope, and its
      text relative to that root. */
  datatype Host = Host(digest: Content -> Digest, under: (Scope, Path) -> bool, relative: (Scope, Path) -> string)

  // ---------------------------------------------------------------------------------------------
  // Guards

  function TargetError(h: Host, op: Operation): Option<Error> {
    if op.scope == ProjectScope then Some(BadScope)
    else if !h.under(op.scope, op.path) then Some(Escapes)
    else None
  }

  function BackupError(h: Host, op: Operation, undo: Undo): Option<Error> {
    if undo.action != "restore_or_remove" || undo.path != op.path || undo.backup.None? then Some(BadUndo)
    else if !h.under(op.scope, undo.backup.value) then Some(Escapes)
    else None
  }

  function PairError(h: Host, op: Operation, undo: Undo): Option<Error> {
    if TargetError(h, op).Some? then TargetError(h, op) else BackupError(h, op, undo)
  }

  /** How many pairs `zip` yields. */
  function Pairs(plan: Plan): nat {
    if |plan.operations| <= |plan.rollback| then |plan.operations| else |plan.rollback|
  }

  predicate Guarded(h: Host, plan: Plan) {
    forall i :: 0 <= i < Pairs(plan) ==> PairError(h, plan.operations[i], plan.rollback[i]).None?
  }

  predicate Approved(reference: string) {
    !HasControl(reference) && Strip(reference) != ""
  }

  /** A digest that is absent or empty is not compared. */
  predicate AbsentOrEqual(recorded: Option<string>, digest: string) {
    recorded.None? || recorded.value == "" || recorded.value == digest
  }

  predicate Describes(inventory: Inventory, plan: Plan) {
    && inventory.pluginId == plan.pluginId && inventory.targetClient == plan.targetClient
    && inventory.version == plan.version
    && AbsentOrEqual(inventory.artifactDigest, plan.artifactDigest)
    && AbsentOrEqual(inventory.manifestDigest, plan.manifestDigest)
  }

  // ---------------------------------------------------------------------------------------------
  // Files

  type Files = map<Path, Content>

  function At(files: Files, p: Path): Option<Content> {
    if p in files then Some(files[p]) else None
  }

  function KeyOf(op: Operation): Key {
    Key(op.scope, op.path)
  }

  /** Writing one config: an existing file is copied to the backup path first. */
  function Install(files: Files, op: Operation, backup: Path): Files {
    (if op.path in files then files[backup := files[op.path]] else files)[op.path := op.content]
  }

  /** Undoing one config: the backup is copied back if there is one, else the file is removed. */
  function Restore(files: Files, target: Path, backup: Path): Files {
    if backup in files then files[target := files[backup]] else files - {target}
  }

  datatype Progress = Progress(files: Files, hashes: map<Key, Digest>, backups: seq<Key>)

  ghost function ApplyFirst(h: Host, plan: Plan, files: Files, n: nat): Progress
    requires Guarded(h, plan) && n <= Pairs(plan)
  {
    if n == 0 then Progress(files, map[], [])
    else
      var p, op, backup := ApplyFirst(h, plan, files, n - 1), plan.operations[n - 1], plan.rollback[n - 1].backup.value;
      Progress(Install(p.files, op, backup), p.hashes[KeyOf(op) := h.digest(op.content)],
               if op.path in p.files then p.backups + [Key(op.scope, backup)] else p.backups)
  }

  /** Why one undo is refused. */
  function UndoError(h: Host, hashes: map<Key, Digest>, files: Files, op: Operation): Option<Error> {
    if KeyOf(op) !in hashes then Some(MissingHash(KeyOf(op)))
    else if op.path in files && h.digest(files[op.path]) != hashes[KeyOf(op)] then Some(Drifted(KeyOf(op)))
    else None
  }

  /** The files after the first `n` undos, and the error that stopped them if any. */
  ghost function UndoFirst(h: Host, plan: Plan, hashes: map<Key, Digest>, files: Files, n: nat): (Files, Option<Error>)
    requires n <= Pairs(plan)
  {
    if n == 0 then (files, None)
    else
      var (now, error) := UndoFirst(h, plan, hashes, files, n - 1);
      var op, undo := plan.operations[n - 1], plan.rollback[n - 1];
      if error.Some? then (now, error)
      else if PairError(h, op, undo).Some? then (now, PairError(h, op, undo))
      else if UndoError(h, hashes, now, op).Some? then (now, UndoError(h, hashes, now, op))
      else (Restore(now, op.path, undo.backup.value), None)
  }

  /** The files after the first `n` removals, and the error that stopped them if any. */
  ghost function RemoveFirst(h: Host, plan: Plan, hashes: map<Key, Digest>, files: Files, n: nat)
    : (Files, Option<Error>)
    requires n <= |plan.operations|
  {
    if n == 0 then (files, None)
    else
      var (now, error) := RemoveFirst(h, plan, hashes, files, n - 1);
      var op := plan.operations[n - 1];
      if error.Some? then (now, error)
      else if TargetError(h, op).Some? then (now, TargetError(h, op))
      else if UndoError(h, hashes, now, op).Some? then (now, UndoError(h, hashes, now, op))
      else (now - {op.path}, None)
  }

  // ---------------------------------------------------------------------------------------------
  // Planning

  /** A config path of the manifest, resolved against the root of its scope. */
  datatype ConfigPath = ConfigPath(scope: Scope, path: Path)

  const BACKUP_SUFFIX: string := ".vad-backup"

  predicate Plannable(h: Host, config: ConfigPath) {
    config.scope != ProjectScope && h.under(config.scope, config.path) && 1 <= |config.path| <= 500
  }

  /** One write and one undo per config path; the plan itself writes nothing. */
  ghost predicate Plans(configs: seq<ConfigPath>, n: nat, content: Content, operations: seq<Operation>,
                        rollback: seq<Undo>)
    requires n <= |configs|
  {
    && |operations| == n && |rollback| == n
    && forall i :: 0 <= i < n ==>
         && operations[i] == Operation(configs[i].scope, configs[i].path, content)
         && rollback[i] == Undo("restore_or_remove", configs[i].path, Some(configs[i].path + BACKUP_SUFFIX))
  }

  /** `create_plugin_installer_dry_run` */
  method CreateDryRun(h: Host, pluginId: string, targetClient: string, version: string, configs: seq<ConfigPath>,
                      content: Content, artifactDigest: string, manifestDigest: string)
    returns (r: Result<Plan, Error>)
    ensures r.Success? <==> forall i :: 0 <= i < |configs| ==> Plannable(h, configs[i])
    ensures r.Success? ==> r.value.dryRun && r.value.writesPerformed == 0
                           && Plans(configs, |configs|, content, r.value.operations, r.value.rollback)
  {
    var operations: seq<Operation>, rollback: seq<Undo> := [], [];
    for i := 0 to |configs|
      invariant forall j :: 0 <= j < i ==> Plannable(h, configs[j])
      invariant Plans(configs, i, content, operations, rollback)
    {
      var config := configs[i];
      if config.scope == ProjectScope {
        return Failure(BadScope);
      }
      if !h.under(config.scope, config.path) {
        return Failure(Escapes);
      }
      if |config.path| < 1 || |config.path| > 500 {
        return Failure(BadPlan);
      }
      operations := operations + [Operation(config.scope, config.path, content)];
      rollback := rollback + [Undo("restore_or_remove", config.path, Some(config.path + BACKUP_SUFFIX))];
    }
    return Success(Plan(pluginId, targetClient, version, true, 0, operations, rollback, artifactDigest,
                        manifestDigest));
  }

  // ---------------------------------------------------------------------------------------------
  // Plans that may be applied

  predicate Applicable(h: Host, plan: Plan) {
    plan.dryRun && plan.writesPerformed == 0 && |plan.operations| == |plan.rollback| && Guarded(h, plan)
  }

  function Recorded(plan: Plan, hashes: map<Key, Digest>, backups: seq<Key>): Inventory {
    Inventory(plan.pluginId, plan.targetClient, plan.version, hashes, backups,
              Some(plan.artifactDigest), Some(plan.manifestDigest), "available", "ready")
  }

  /** The first pair that does not pass, from index `i` on. */
  function FirstPairError(h: Host, plan: Plan, i: nat): Option<Error>
    requires i <= Pairs(plan)
    decreases Pairs(plan) - i
  {
    if i == Pairs(plan) then None
    else if PairError(h, plan.operations[i], plan.rollback[i]).Some?
    then PairError(h, plan.operations[i], plan.rollback[i])
    else FirstPairError(h, plan, i + 1)
  }

  /** `_validate_apply_plan` */
  function PlanError(h: Host, plan: Plan): (error: Option<Error>)
    ensures error.None? <==> Applicable(h, plan)
  {
    GuardedMeansNoError(h, plan, 0);
    if !plan.dryRun || plan.writesPerformed != 0 || |plan.operations| != |plan.rollback| then Some(BadPlan)
    else FirstPairError(h, plan, 0)
  }

  lemma {:induction false} GuardedMeansNoError(h: Host, plan: Plan, i: nat)
    requires i <= Pairs(plan)
    ensures FirstPairError(h, plan, i).None? <==>
      forall j :: i <= j < Pairs(plan) ==> PairError(h, plan.operations[j], plan.rollback[j]).None?
    decreases Pairs(plan) - i
  {
    if i < Pairs(plan) {
      GuardedMeansNoError(h, plan, i + 1);
    }
  }

  // ---------------------------------------------------------------------------------------------
  // The result of a call, which is validated when everything has been written

  function ScopeText(scope: Scope): string {
    match scope case UserScope => "user" case WorkspaceScope => "workspace" case ProjectScope => "project"
  }

  /** `_inventory_path` */
  function KeyText(h: Host, key: Key): string {
    ScopeText(key.scope) + "/" + h.relative(key.scope, key.path)
  }

  predicate RelativeText(s: string) {
    !HasControl(s) && !HasParent(s) && (s == "" || !IsSeparator(s[0]))
  }

  function ApplyEvidence(reference: string): string {
    "Applied reviewed plugin " + "dry-run with approval " + reference + "."
  }

  function UninstallEvidence(reference: string): string {
    "Removed applied plugin " + "config with approval " + reference + "."
  }

  function RollbackEvidence(reference: string): string {
    "Rolled back plugin " + "config with approval " + reference + "."
  }

  predicate ValidEvidence(evidence: string) {
    1 <= |evidence| <= 300 && !HasControl(evidence)
  }

  predicate ValidRecord(h: Host, hashes: map<Key, Digest>, backups: seq<Key>) {
    && (forall k :: k in hashes ==> RelativeText(KeyText(h, k)))
    && (forall b :: b in backups ==> !HasControl(KeyText(h, b)))
  }

  /** `apply_plugin_installer_plan` as a whole: the files it leaves, and the record or the error. */
  ghost function ApplyResult(h: Host, plan: Plan, files: Files, reference: string): (Files, Result<Inventory, Error>) {
    if !Approved(reference) then (files, Failure(NoApproval))
    else if !Applicable(h, plan) then (files, Failure(PlanError(h, plan).value))
    else
      var p := ApplyFirst(h, plan, files, |plan.operations|);
      (p.files, if ValidRecord(h, p.hashes, p.backups) && ValidEvidence(ApplyEvidence(reference))
                then Success(Recorded(plan, p.hashes, p.backups)) else Failure(BadResult))
  }

  /** `uninstall_plugin_installation` as a whole. */
  ghost function UninstallResult(h: Host, plan: Plan, inventory: Inventory, files: Files, reference: string)
    : (Files, Result<Inventory, Error>)
  {
    if !Approved(reference) then (files, Failure(NoApproval))
    else if !Describes(inventory, plan) then (files, Failure(Mismatch))
    else
      var (after, error) := RemoveFirst(h, plan, inventory.hashes, files, |plan.operations|);
      (after, if error.Some? then Failure(error.value)
              else if !ValidEvidence(UninstallEvidence(reference)) then Failure(BadResult)
              else Success(inventory.(hashes := map[], uninstallStatus := "uninstalled")))
  }

  /** `rollback_plugin_installation` as a whole. */
  ghost function RollbackResult(h: Host, plan: Plan, inventory: Inventory, files: Files, reference: string)
    : (Files, Result<Inventory, Error>)
  {
    if !Approved(reference) then (files, Failure(NoApproval))
    else if !Describes(inventory, plan) then (files, Failure(Mismatch))
    else
      var (after, error) := UndoFirst(h, plan, inventory.hashes, files, Pairs(plan));
      (after, if error.Some? then Failure(error.value)
              else if !ValidEvidence(RollbackEvidence(reference)) then Failure(BadResult)
              else Success(inventory.(hashes := map[], rollbackStatus := "rolled_back")))
  }

  // ---------------------------------------------------------------------------------------------
  // The installer

  class Installer {
    const host: Host
    var files: Files

    constructor (host: Host, files: Files)
      ensures this.host == host && this.files == files
    {
      this.host, this.files := host, files;
    }

    /** Validates every pair before the first write. */
    method ValidateApplyPlan(plan: Plan) returns (error: Option<Error>)
      ensures error == PlanError(host, plan)
    {
      if !plan.dryRun || plan.writesPerformed != 0 || |plan.operations| != |plan.rollback| {
        return Some(BadPlan);
      }
      for i := 0 to |plan.operations|
        invariant FirstPairError(host, plan, 0) == FirstPairError(host, plan, i)
      {
        if PairError(host, plan.operations[i], plan.rollback[i]).Some? {
          return PairError(host, plan.operations[i], plan.rollback[i]);
        }
      }
      return None;
    }

    /** The record is validated after the last write. */
    method Apply(plan: Plan, approval: string) returns (r: Result<Inventory, Error>)
      modifies this
      ensures (files, r) == ApplyResult(host, plan, old(files), approval)
    {
      if !Approved(approval) {
        return Failure(NoApproval);
      }
      var error := ValidateApplyPlan(plan);
      if error.Some? {
        return Failure(error.value);
      }
      hide PlanError, ValidRecord, ValidEvidence, Approved;
      var hashes: map<Key, Digest>, backups: seq<Key> := map[], [];
      for i := 0 to |plan.operations|
        invariant Progress(files, hashes, backups) == ApplyFirst(host, plan, old(files), i)
      {
        var op, backup := plan.operations[i], plan.rollback[i].backup.value;
        if op.path in files {
          files := files[backup := files[op.path]];
          backups := backups + [Key(op.scope, backup)];
        }
        files := files[op.path := op.content];
        hashes := hashes[KeyOf(op) := host.digest(op.content)];
      }
      if !ValidRecord(host, hashes, backups) || !ValidEvidence(ApplyEvidence(approval)) {
        return Failure(BadResult);
      }
      return Success(Recorded(plan, hashes, backups));
    }

    /** Stops at the first missing hash or drifted file; what was removed before stays removed. */
    method Uninstall(plan: Plan, inventory: Inventory, approval: string) returns (r: Result<Inventory, Error>)
      modifies this
      ensures (files, r) == UninstallResult(host, plan, inventory, old(files), approval)
    {
      hide ValidEvidence, Approved, Describes;
      if !Approved(approval) {
        return Failure(NoApproval);
      }
      if !Describes(inventory, plan) {
        return Failure(Mismatch);
      }
      for i := 0 to |plan.operations|
        invariant RemoveFirst(host, plan, inventory.hashes, old(files), i) == (files, None)
      {
        var error := RemoveOne(plan.operations[i], inventory.hashes);
        if error.Some? {
          StoppedRemoval(host, plan, inventory.hashes, old(files), i + 1, |plan.operations|);
          return Failure(error.value);
        }
      }
      if !ValidEvidence(UninstallEvidence(approval)) {
        return Failure(BadResult);
      }
      return Success(inventory.(hashes := map[], uninstallStatus := "uninstalled"));
    }

    /** One turn of the loop above. */
    method RemoveOne(op: Operation, hashes: map<Key, Digest>) returns (error: Option<Error>)
      modifies this
      ensures error == if TargetError(host, op).Some? then TargetError(host, op)
                       else UndoError(host, hashes, old(files), op)
      ensures files == if error.Some? then old(files) else old(files) - {op.path}
    {
      if TargetError(host, op).Some? {
        return TargetError(host, op);
      }
      if KeyOf(op) !in hashes {
        return Some(MissingHash(KeyOf(op)));
      }
      if op.path in files {
        if host.digest(files[op.path]) != hashes[KeyOf(op)] {
          return Some(Drifted(KeyOf(op)));
        }
        files := files - {op.path};
      } else {
        assert files - {op.path} == files;
      }
      return None;
    }

    /** Stops at the first missing hash or drifted file; what was restored before stays restored. */
    method Rollback(plan: Plan, inventory: Inventory, approval: string) returns (r: Result<Inventory, Error>)
      modifies this
      ensures (files, r) == RollbackResult(host, plan, inventory, old(files), approval)
    {
      hide ValidEvidence, Approved, Describes;
      if !Approved(approval) {
        return Failure(NoApproval);
      }
      if !Describes(inventory, plan) {
        return Failure(Mismatch);
      }
      for i := 0 to Pairs(plan)
        invariant UndoFirst(host, plan, inventory.hashes, old(files), i) == (files, None)
      {
        var error := UndoOne(plan.operations[i], plan.rollback[i], inventory.hashes);
        if error.Some? {
          StoppedUndo(host, plan, inventory.hashes, old(files), i + 1, Pairs(plan));
          return Failure(error.value);
        }
      }
      if !ValidEvidence(RollbackEvidence(approval)) {
        return Failure(BadResult);
      }
      return Success(inventory.(hashes := map[], rollbackStatus := "rolled_back"));
    }

    /** One turn of the loop above. */
    method UndoOne(op: Operation, undo: Undo, hashes: map<Key, Digest>) returns (error: Option<Error>)
      modifies this
      ensures error == if PairError(host, op, undo).Some? then PairError(host, op, undo)
                       else UndoError(host, hashes, old(files), op)
      ensures files == if error.Some? then old(files) else Restore(old(files), op.path, undo.backup.value)
    {
      if PairError(host, op, undo).Some? {
        return PairError(host, op, undo);
      }
      var target, backup := op.path, undo.backup.value;
      if KeyOf(op) !in hashes {
        return Some(MissingHash(KeyOf(op)));
      }
      if target in files && host.digest(files[target]) != hashes[KeyOf(op)] {
        return Some(Drifted(KeyOf(op)));
      }
      if backup in files {
        files := files[target := files[backup]];
      } else if target in files {
        files := files - {target};
      }
      return None;
    }
  }

  lemma {:induction false} StoppedRemoval(h: Host, plan: Plan, hashes: map<Key, Digest>, files: Files, n: nat, m: nat)
    requires n <= m <= |plan.operations| && RemoveFirst(h, plan, hashes, files, n).1.Some?
    ensures RemoveFirst(h, plan, hashes, files, m) == RemoveFirst(h, plan, hashes, files, n)
  {
    if n < m {
      StoppedRemoval(h, plan, hashes, files, n, m - 1);
    }
  }

  lemma {:induction false} StoppedUndo(h: Host, plan: Plan, hashes: map<Key, Digest>, files: Files, n: nat, m: nat)
    requires n <= m <= Pairs(plan) && UndoFirst(h, plan, hashes, files, n).1.Some?
    ensures UndoFirst(h, plan, hashes, files, m) == UndoFirst(h, plan, hashes, files, n)
  {
    if n < m {
      StoppedUndo(h, plan, hashes, files, n, m - 1);
    }
  }
}
