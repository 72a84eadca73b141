/** Task leases over whole runs: one holder at a time, and only four kinds of call end a lease. */
module LeaseExclusion {
  import opened Wrappers
  import opened Ordering
  import opened Text
  import opened Events
  import opened ControlPlane
  import opened StaleRecovery
  import opened ControlPlaneRuns

  predicate Holds(s: State, t: Id, c: Id) {
    t in s.leases && s.leases[t].clientId == c && s.leases[t].status == LeaseActive
  }

  predicate Held(s: State, t: Id) {
    t in s.leases && s.leases[t].status == LeaseActive
  }

  /** The call releases, expires, sweeps away or deletes the lease that `c` has on `t`. */
  predicate LeaseEnds(s: State, t: Id, c: Id, op: Op) {
    || (op.OpRelease? && op.t == t && op.c == c)
    || (op.OpExpire? && op.t == t)
    || (op.OpUnregister? && op.c == c)
    || (op.OpSweep? && IsStale(s, c, op.now, op.limit))
  }

  /** The task is free, and what is left of an earlier lease on it can be loaded. */
  predicate Available(s: State, t: Id) {
    !Held(s, t) && (t in s.leases ==> Readable(s.leases[t]))
  }

  /** The call takes the available task `t` for `c`. */
  predicate LeaseStarts(s: State, t: Id, c: Id, op: Op) {
    op.OpAcquire? && op.acquire.taskId == t && op.acquire.clientId == c && c in s.manifests && Available(s, t)
  }

  // ---------------------------------------------------------------------------------------------
  // One step

  predicate ItemStep(op: Op) {
    || op.OpRegister? || op.OpHeartbeat? || op.OpCreate? || op.OpTransition?
    || op.OpSchedule? || op.OpScheduleNext? || op.OpIngest?
  }

  lemma TransitionKeepsLeases(env: Env, s: State, id: Id, r: Request, who: Caller)
    ensures TransitionStep(env, s, id, r, who).0.leases == s.leases
  {
    hide ValidCaller, ValidRequest, AllowedTransitions, References, Updated;
  }

  lemma ScheduleKeepsLeases(env: Env, s: State, id: Id, who: Caller)
    ensures ScheduleStep(env, s, id, who).0.leases == s.leases
  {
    hide ValidCaller, RankedClients, TransitionStep;
    if id in s.items && RankedClients(s, s.items[id].item) != [] {
      TransitionKeepsLeases(env, s, id, AssignTo(RankedClients(s, s.items[id].item)[0]), who.(summary := None));
    }
  }

  /** The call leaves the table of leases alone. */
  lemma ItemStepsKeepLeases(env: Env, s: State, op: Op)
    requires ItemStep(op)
    ensures Step(env, s, op).leases == s.leases
  {
    hide ValidCaller, References, TransitionStep, ScheduleStep;
    match op {
      case OpTransition(id, r, who) => TransitionKeepsLeases(env, s, id, r, who);
      case OpSchedule(id, who) => ScheduleKeepsLeases(env, s, id, who);
      case OpScheduleNext(run, who) =>
        var candidates := ListItems(s, Candidates(s, run));
        if candidates != [] {
          ScheduleKeepsLeases(env, s, candidates[0], who);
        }
      case _ =>
    }
  }

  lemma SweptLease(env: Env, s: State, t: Id, now: int, limit: int, autoReassign: bool)
    requires Inv(s) && t in s.leases
    ensures var lease, after := s.leases[t], Sweep(env, s, now, limit, autoReassign).leases;
      t in after && after[t] == if IsStale(s, lease.clientId, now, limit) && lease.status == LeaseActive
                                then Expired(lease) else lease
  {
    hide Sweep;
    SweepRecovers(env, s, now, limit, autoReassign);
  }

  /** A held lease survives a call exactly when the call does not end it. */
  lemma LeaseSurvives(env: Env, s: State, t: Id, c: Id, op: Op)
    requires Inv(s) && Holds(s, t, c)
    ensures Holds(Step(env, s, op), t, c) <==> !LeaseEnds(s, t, c, op)
  {
    hide Sweep, RegisterStep, HeartbeatStep, CreateStep, TransitionStep, ScheduleStep, ScheduleNextStep,
         IsStale, Keyed, RunTasksAgree;
    if op.OpSweep? {
      SweptLease(env, s, t, op.now, op.limit, op.autoReassign);
    } else if ItemStep(op) {
      ItemStepsKeepLeases(env, s, op);
    }
  }

  /** A client comes to hold a task exactly by acquiring it while it is available. */
  lemma LeaseBegins(env: Env, s: State, t: Id, c: Id, op: Op)
    requires Inv(s) && !Holds(s, t, c)
    ensures Holds(Step(env, s, op), t, c) <==> LeaseStarts(s, t, c, op)
  {
    hide Sweep, RegisterStep, HeartbeatStep, CreateStep, TransitionStep, ScheduleStep, ScheduleNextStep,
         IsStale, Keyed, RunTasksAgree;
    if op.OpSweep? {
      if t in s.leases {
        SweptLease(env, s, t, op.now, op.limit, op.autoReassign);
      } else {
        SweepRecovers(env, s, op.now, op.limit, op.autoReassign);
      }
    } else if ItemStep(op) {
      ItemStepsKeepLeases(env, s, op);
    }
  }

  lemma HolderPasses(s: State, t: Id, c: Id)
    requires Inv(s)
    ensures HolderError(s, t, c).None? <==> Holds(s, t, c)
  {
  }

  /** Only the holder can renew: the deadline moves, the lease stays with its holder; every other
      caller gets an error and changes nothing. */
  lemma OnlyHolderRenews(env: Env, s: State, t: Id, c: Id, ttlSeconds: int)
    requires Inv(s)
    ensures var (u, outcome) := RenewStep(env, s, t, c, ttlSeconds);
      if Holds(s, t, c)
      then outcome == Done(200) && Holds(u, t, c) && u.leases[t].expiresAt == env(|s.events|).now + ttlSeconds
           && u.leases[t] == s.leases[t].(expiresAt := u.leases[t].expiresAt)
           && (forall l :: l in s.leases && l != t ==> l in u.leases && u.leases[l] == s.leases[l])
      else outcome.Raised? && u == s
  {
    HolderPasses(s, t, c);
  }

  lemma OnlyHolderReleases(env: Env, s: State, t: Id, c: Id, reason: Option<string>)
    requires Inv(s)
    ensures var (u, outcome) := ReleaseStep(env, s, t, c, reason);
      if Holds(s, t, c)
      then outcome == Done(200) && !Held(u, t) && t in u.leases
           && u.leases[t] == s.leases[t].(status := LeaseReleased, releaseReason := reason)
           && (forall l :: l in s.leases && l != t ==> l in u.leases && u.leases[l] == s.leases[l])
      else outcome.Raised? && u == s
  {
    HolderPasses(s, t, c);
  }

  /** Acquiring a task that is held stores nothing and appends one blocked event for the holder. */
  lemma HeldTaskIsRefused(env: Env, s: State, r: AcquireRequest, c: Id)
    requires Inv(s) && Holds(s, r.taskId, c) && r.clientId in s.manifests
    ensures var (u, outcome) := AcquireStep(env, s, r);
      && outcome == Done(409) && u == s.(events := u.events) && |u.events| == |s.events| + 1
      && u.events[|s.events|].status == Blocked && u.events[|s.events|].clientId == c
  {
  }

  /** An available task goes to the client that asks, for as long as it asks; an old lease on it is
      gone.  A task that is free but not available raises. */
  lemma FreeTaskIsLeased(env: Env, s: State, r: AcquireRequest)
    requires !Held(s, r.taskId) && r.clientId in s.manifests
    ensures var (u, outcome) := AcquireStep(env, s, r);
      if Available(s, r.taskId)
      then outcome == Done(201) && Holds(u, r.taskId, r.clientId)
           && u.leases[r.taskId].expiresAt == u.leases[r.taskId].acquiredAt + r.ttlSeconds
           && u.leases[r.taskId].acquiredAt == env(|s.events|).now && u.leases[r.taskId].runId == r.runId
           && (forall l :: l in s.leases && l != r.taskId ==> l in u.leases && u.leases[l] == s.leases[l])
      else outcome == Raised(Unreadable) && u == s
  {
  }

  // ---------------------------------------------------------------------------------------------
  // Release reasons

  predicate PlainReason(reason: Option<string>) {
    reason.Some? ==> |reason.value| <= 300 && !HasControl(reason.value)
  }

  /** After a release the task can be leased again, by whichever client asks, exactly when the reason
      has no control character and the length that a request may have; the same holds for expiring. */
  lemma ReleasedTaskIsAvailable(env: Env, s: State, t: Id, c: Id, reason: Option<string>, r: AcquireRequest)
    requires Inv(s) && Holds(s, t, c) && r.taskId == t && r.clientId in s.manifests
    ensures var u := ReleaseStep(env, s, t, c, reason).0;
      && (AcquireStep(env, u, r).1 == Done(201) <==> PlainReason(reason))
      && (ExpireStep(env, u, t).1 == Done(200) <==> PlainReason(reason))
      && (!PlainReason(reason) ==>
            AcquireStep(env, u, r) == (u, Raised(Unreadable)) && ExpireStep(env, u, t) == (u, Raised(Unreadable)))
  {
    OnlyHolderReleases(env, s, t, c, reason);
    ReleaseKeepsInv(env, s, t, c, reason);
  }

  /** A lease that cannot be loaded stays exactly as it is, until its client is unregistered. */
  lemma UnreadableStays(env: Env, s: State, t: Id, op: Op)
    requires Inv(s) && t in s.leases && !Readable(s.leases[t])
    ensures var u := Step(env, s, op);
      if op == OpUnregister(s.leases[t].clientId) then t !in u.leases
      else t in u.leases && u.leases[t] == s.leases[t]
  {
    hide Sweep, RegisterStep, HeartbeatStep, CreateStep, TransitionStep, ScheduleStep, ScheduleNextStep,
         IsStale, Keyed, RunTasksAgree, HasControl;
    if op.OpSweep? {
      SweptLease(env, s, t, op.now, op.limit, op.autoReassign);
    } else if ItemStep(op) {
      ItemStepsKeepLeases(env, s, op);
    }
  }

  function SampleClient(): Manifest {
    Manifest("client", "Client", {"build"}, Trusted)
  }

  function SampleAcquire(): AcquireRequest {
    AcquireRequest("task", "run", "client", "builder", "actor", 300)
  }

  /** A line break in the reason of a release is accepted, and the task cannot be leased again. */
  lemma LineBreakLocksTask(env: Env)
    ensures var s := Run(env, Empty(), [OpRegister(SampleClient()), OpAcquire(SampleAcquire())]);
      var (u, released) := ReleaseStep(env, s, "task", "client", Some("a\nb"));
      && released == Done(200) && !Held(u, "task")
      && AcquireStep(env, u, SampleAcquire()) == (u, Raised(Unreadable))
  {
    var ops := [OpRegister(SampleClient()), OpAcquire(SampleAcquire())];
    assert ValidId("client");
    forall k | 0 <= k < |ops| ensures WellTyped(ops[k]) {
    }
    ReachableInv(env, ops);
    assert ops[..1] == [OpRegister(SampleClient())] && ops[..1][..0] == [];
    var s := Run(env, Empty(), ops);
    assert Run(env, Empty(), ops[..1]) == RegisterStep(env, Empty(), SampleClient()).0;
    assert s == AcquireStep(env, RegisterStep(env, Empty(), SampleClient()).0, SampleAcquire()).0;
    assert Holds(s, "task", "client");
    assert "a\nb"[1] == '\n';
    OnlyHolderReleases(env, s, "task", "client", Some("a\nb"));
    ReleasedTaskIsAvailable(env, s, "task", "client", Some("a\nb"), SampleAcquire());
  }

  // ---------------------------------------------------------------------------------------------
  // Runs

  /** If `c` holds `t` at one time and another client holds it later, then between the two there
      was a call that ended the lease of `c`, and after it a call by which the other client acquired
      the free task. */
  lemma {:induction false} LeaseExclusion(env: Env, ops: seq<Op>, i: nat, j: nat, t: Id, c: Id, d: Id)
    requires forall k :: 0 <= k < |ops| ==> WellTyped(ops[k])
    requires i <= j <= |ops| && c != d
    requires Holds(At(env, ops, i), t, c) && Holds(At(env, ops, j), t, d)
    ensures exists k, l :: i <= k < l < j && Holds(At(env, ops, k), t, c) && LeaseEnds(At(env, ops, k), t, c, ops[k])
                           && LeaseStarts(At(env, ops, l), t, d, ops[l])
    decreases j
  {
    hide At, Inv, Step, LeaseEnds, LeaseStarts, WellTyped;
    assert i < j;
    var s := At(env, ops, j - 1);
    AtInv(env, ops, j - 1);
    AtNext(env, ops, j - 1);
    if Holds(s, t, d) {
      LeaseExclusion(env, ops, i, j - 1, t, c, d);
    } else {
      LeaseBegins(env, s, t, d, ops[j - 1]);
      assert LeaseStarts(s, t, d, ops[j - 1]);
      FreeTask(s, t, d, ops[j - 1]);
      var k := LeaseEnded(env, ops, i, j - 1, t, c);
      assert i <= k < j - 1 < j;
    }
  }

  lemma FreeTask(s: State, t: Id, c: Id, op: Op)
    requires LeaseStarts(s, t, c, op)
    ensures forall d :: !Holds(s, t, d)
  {
  }

  /** A lease that is held at one time and not later was ended by a call in between. */
  lemma {:induction false} LeaseEnded(env: Env, ops: seq<Op>, i: nat, j: nat, t: Id, c: Id) returns (k: nat)
    requires forall k :: 0 <= k < |ops| ==> WellTyped(ops[k])
    requires i <= j <= |ops|
    requires Holds(At(env, ops, i), t, c) && !Holds(At(env, ops, j), t, c)
    ensures i <= k < j && Holds(At(env, ops, k), t, c) && LeaseEnds(At(env, ops, k), t, c, ops[k])
    decreases j
  {
    hide At, Inv, Step, LeaseEnds, Holds, WellTyped;
    assert i < j;
    var s := At(env, ops, j - 1);
    AtInv(env, ops, j - 1);
    AtNext(env, ops, j - 1);
    if Holds(s, t, c) {
      LeaseSurvives(env, s, t, c, ops[j - 1]);
      k := j - 1;
    } else {
      k := LeaseEnded(env, ops, i, j - 1, t, c);
    }
  }
}
