/** When a hook sync comes to an end. */
module Progress {
  import opened Kube
  import opened Text
  import opened Keyed
  import opened SyncState
  import opened ApplySync
  import opened HookSync
  import opened HookFacts
  import opened HookReports
  import opened SyncStep
  import opened SyncApply

  // ---------------------------------------------------------------------------------------------
  // Steps in which nothing goes wrong
  // ---------------------------------------------------------------------------------------------

  ghost predicate SmoothCluster(env: ApplyEnv) {
    && (forall g, i, d :: env.apply(g, i, d))
    && (forall i :: env.prune(i))
    && (forall g, d :: env.discover(g, d).Served?)
    && (forall g, k, n :: env.permitted(g, k, n))
  }

  /** Polling the hook, after creating it if need be, reports it completed. */
  predicate Completes(h: Object, api: HookApi) {
    && Seen(api).Some?
    && (SaysSucceeded(h, Seen(api).value) || SaysFailed(h, Seen(api).value) || SaysError(h, Seen(api).value))
  }

  /** Every call succeeds and every polled hook reports completed, whatever the health. */
  ghost predicate Smooth(ctx: Ctx) {
    && SmoothCluster(ctx.env.cluster)
    && (forall i :: ctx.env.hookKinds(i).Served?)
    && |ctx.env.revision| >= 7
    && forall i, t :: 0 <= i < |ctx.hooks| ==> Completes(ctx.hooks[i], ctx.env.hookApi(i, t))
  }

  lemma {:induction false} SmoothGroup(env: ApplyEnv, mode: Mode, group: seq<Object>, stage: nat)
    requires SmoothCluster(env)
    ensures AllSucceed(GroupJobs(env, mode, Go, group, stage))
  {
    hide IsHook;
    if group != [] { SmoothGroup(env, mode, group[..|group| - 1], stage); }
  }

  lemma {:induction false} SmoothCreates(env: ApplyEnv, mode: Mode, targets: seq<Object>, groups: seq<seq<Object>>)
    requires SmoothCluster(env)
    ensures AllSucceed(CreateJobs(env, mode, targets, groups))
  {
    if groups != [] {
      var last := groups[|groups| - 1];
      SmoothCreates(env, mode, targets, groups[..|groups| - 1]);
      if last != [] {
        assert GroupGate(env, mode, targets, last[0], |groups|).Go?;
        SmoothGroup(env, mode, last, |groups|);
      }
    }
  }

  lemma {:induction false} SmoothApply(env: ApplyEnv, mode: Mode, tasks: seq<Task>, resources: Resources)
    requires SmoothCluster(env)
    ensures DoApply(env, mode, tasks, resources).ok
  {
    var targets := Targets(tasks);
    PruneJobsFit(env, mode, Lives(tasks));
    SmoothCreates(env, mode, targets, Groups(targets));
    PerformAllSum(mode, Outcome(true, resources, []), Plan(env, mode, tasks));
  }

  lemma {:induction false} SmoothVerify(ctx: Ctx, i: nat)
    requires Smooth(ctx) && i <= |ctx.hooks|
    ensures VerifyHooks(ctx, i).None?
    decreases |ctx.hooks| - i
  {
    if i < |ctx.hooks| { SmoothVerify(ctx, i + 1); }
  }

  // ---------------------------------------------------------------------------------------------
  // Passes in a smooth step
  // ---------------------------------------------------------------------------------------------

  /** Every recorded status belongs to a hook of the current manifests that runs in its phase. */
  ghost predicate Covered(ctx: Ctx, hooks: HookStatuses) {
    forall e :: 0 <= e < |hooks| ==> HasRun(ctx, hooks[e].key)
  }

  lemma {:induction false} PutCovered(ctx: Ctx, hooks: HookStatuses, key: HookKey, v: HookInfo)
    requires Covered(ctx, hooks) && HasRun(ctx, key)
    ensures Covered(ctx, Put(hooks, key, v))
  {
    hide HasRun, Put;
    PutEntries(hooks, key, v);
  }

  lemma {:induction false} RunOf(ctx: Ctx, j: nat, key: HookKey)
    requires j < |ctx.hooks| && IsRunOf(ctx, j, key)
    ensures HasRun(ctx, key)
  {
  }

  lemma {:induction false} RecordCovered(ctx: Ctx, m: Machine, i: nat, t: HookType)
    requires i < |ctx.hooks| && Runs(ctx.hooks[i], t) && Covered(ctx, m.hooks)
    ensures Covered(ctx, RunHook(ctx, m, i, t).m.hooks)
  {
    hide Covered, IsCompleted, LivePhase, DeletesHook, Runs;
    KeyForType(ctx.op, ctx.env.revision, ctx.hooks[i], t);
    var o, n := KeyFor(ctx.op, ctx.env.revision, ctx.hooks[i], t), RunHook(ctx, m, i, t).m.hooks;
    if n != m.hooks {
      assert exists v :: n == Put(m.hooks, o.value, v);
      var v :| n == Put(m.hooks, o.value, v);
      RunOf(ctx, i, o.value);
      PutCovered(ctx, m.hooks, o.value, v);
    }
  }

  lemma {:induction false} PassCovered(ctx: Ctx, m: Machine, t: HookType, i: nat, updated: bool)
    requires i <= |ctx.hooks| && Covered(ctx, m.hooks)
    ensures Covered(ctx, HookPass(ctx, m, t, i, updated).m.hooks)
    decreases |ctx.hooks| - i
  {
    hide Covered, RunHook, IsHookType;
    if i < |ctx.hooks| {
      if Skips(ctx.hooks[i], t) {
        PassCovered(ctx, m.(resources := Put(m.resources, KeyOf(ctx.hooks[i]), NoStatus)), t, i + 1, updated);
      } else if !Runs(ctx.hooks[i], t) {
        PassCovered(ctx, m, t, i + 1, updated);
      } else {
        RecordCovered(ctx, m, i, t);
        var r := RunHook(ctx, m, i, t);
        if !r.result.HookError? { PassCovered(ctx, r.m, t, i + 1, updated || r.result.Updated?); }
      }
    }
  }

  /** Running a hook in a smooth step completes it. */
  lemma {:induction false} SmoothHook(ctx: Ctx, m: Machine, i: nat, t: HookType)
    requires Smooth(ctx) && i < |ctx.hooks|
    ensures !RunHook(ctx, m, i, t).result.HookError?
    ensures var key := KeyFor(ctx.op, ctx.env.revision, ctx.hooks[i], t);
            key.Some? && IsCompleted(RunHook(ctx, m, i, t).m.hooks, key.value)
  {
    hide RunHook, SaysSucceeded, SaysFailed, SaysError, ToDelete, Lower, Decimal, SmoothCluster, Lookup;
    assert Completes(ctx.hooks[i], ctx.env.hookApi(i, t));
    RunHookReports(ctx, m, i, t);
  }

  lemma {:induction false} SmoothPass(ctx: Ctx, m: Machine, t: HookType, i: nat, updated: bool)
    requires Smooth(ctx) && i <= |ctx.hooks|
    ensures var p := HookPass(ctx, m, t, i, updated); !p.failed && PhaseCompleted(ctx, p.m.hooks, t, i)
    decreases |ctx.hooks| - i
  {
    hide RunHook, IsHookType, KeyFor, Completes;
    if i < |ctx.hooks| {
      if Skips(ctx.hooks[i], t) {
        SmoothPass(ctx, m.(resources := Put(m.resources, KeyOf(ctx.hooks[i]), NoStatus)), t, i + 1, updated);
      } else if !Runs(ctx.hooks[i], t) {
        SmoothPass(ctx, m, t, i + 1, updated);
      } else {
        var r := RunHook(ctx, m, i, t);
        SmoothHook(ctx, m, i, t);
        SmoothPass(ctx, r.m, t, i + 1, updated || r.result.Updated?);
        PassEvolves(ctx, r.m, t, i + 1, updated || r.result.Updated?);
      }
    }
  }

  /** Completed phases are passed without a change. */
  lemma {:induction false} CompletedPass(ctx: Ctx, m: Machine, t: HookType, i: nat)
    requires i <= |ctx.hooks| && PhaseCompleted(ctx, m.hooks, t, i)
    ensures var p := HookPass(ctx, m, t, i, false);
            !p.failed && !p.updated && p.m.hooks == m.hooks && p.m.phase == m.phase && p.m.calls == m.calls
    decreases |ctx.hooks| - i
  {
    hide IsHookType, KeyFor, IsCompleted;
    if i < |ctx.hooks| {
      CompletedPass(
        ctx,
        if Skips(ctx.hooks[i], t) then m.(resources := Put(m.resources, KeyOf(ctx.hooks[i]), NoStatus)) else m,
        t, i + 1);
    }
  }

  lemma {:induction false} CoveredCompleted(ctx: Ctx, hooks: HookStatuses, t: HookType)
    requires Covered(ctx, hooks) && PhaseCompleted(ctx, hooks, t, 0) && Distinct(hooks)
    ensures AllCompleted(hooks, t)
  {
    hide Runs, KeyFor;
    forall e | 0 <= e < |hooks| && hooks[e].key.typ == t ensures hooks[e].value.status.Completed() {
      var j :| 0 <= j < |ctx.hooks| && IsRunOf(ctx, j, hooks[e].key);
      EntryIsLookup(hooks, e);
    }
  }

  /** One phase of a smooth step: if some hook of the phase was unfinished it is finished now and the step stops;
      otherwise the phase is over, and the operation fails or goes on. */
  lemma {:induction false} SmoothPhase(ctx: Ctx, m: Machine, t: HookType)
    requires Smooth(ctx) && Covered(ctx, m.hooks) && GoodHooks(m.hooks) && m.phase.Running?
    ensures var p := RunHooks(ctx, m, t);
            && Covered(ctx, p.m.hooks) && PhaseCompleted(ctx, p.m.hooks, t, 0)
            && (p.m.phase.Running? || p.m.phase.Failed?)
            && (!PhaseCompleted(ctx, m.hooks, t, 0) ==> !p.go)
            && (PhaseCompleted(ctx, m.hooks, t, 0) ==> p.m.hooks == m.hooks && (p.go || p.m.phase.Failed?))
  {
    hide Covered, PhaseCompleted, HookPass;
    SmoothPass(ctx, m, t, 0, false);
    PassCovered(ctx, m, t, 0, false);
    PassPhase(ctx, m, t, 0, false);
    var p := HookPass(ctx, m, t, 0, false);
    if PhaseCompleted(ctx, m.hooks, t, 0) {
      CompletedPass(ctx, m, t, 0);
      CoveredCompleted(ctx, m.hooks, t);
    } else if !p.updated {
      PassQuiet(ctx, m, t, 0, false);
    }
  }

  // ---------------------------------------------------------------------------------------------
  // The rank of a running state
  // ---------------------------------------------------------------------------------------------

  /** How many smooth steps are left at most. */
  function Rank(ctx: Ctx, m: Machine): (r: nat)
    ensures 1 <= r <= 4
  {
    if !PhaseCompleted(ctx, m.hooks, PreSync, 0) then 4
    else if !StartedSync(m) || !PhaseCompleted(ctx, m.hooks, Sync, 0) then 3
    else if !PhaseCompleted(ctx, m.hooks, PostSync, 0) then 2
    else 1
  }

  /** A later phase keeps a completed earlier one completed. */
  lemma {:induction false} PhaseStays(ctx: Ctx, m: Machine, n: Machine, t: HookType, u: HookType)
    requires Evolves(u, m, n) && PhaseCompleted(ctx, m.hooks, t, 0)
    ensures PhaseCompleted(ctx, n.hooks, t, 0)
  {
  }

  ghost predicate Fine(ctx: Ctx, m: Machine) {
    m.phase.Running? && Covered(ctx, m.hooks) && GoodHooks(m.hooks)
  }

  /** Sync is sure to be marked as started: there is something to apply, or a hook that leaves a mark. */
  predicate Starts(ctx: Ctx) {
    || NonHookTasks(ctx.env.tasks) != []
    || exists j :: 0 <= j < |ctx.hooks| && (IsHookType(ctx.hooks[j], Sync) || IsHookType(ctx.hooks[j], Skip))
  }

  lemma {:induction false} SkipLeavesMark(ctx: Ctx, m: Machine, i: nat, j: nat, updated: bool)
    requires Smooth(ctx) && i <= j < |ctx.hooks| && IsHookType(ctx.hooks[j], Skip)
    ensures HookPass(ctx, m, Sync, i, updated).m.resources != []
    decreases |ctx.hooks| - i
  {
    hide IsHookType, RunHook, Completes;
    if Skips(ctx.hooks[i], Sync) {
      PassEvolves(ctx, m.(resources := Put(m.resources, KeyOf(ctx.hooks[i]), NoStatus)), Sync, i + 1, updated);
    } else if !Runs(ctx.hooks[i], Sync) {
      SkipLeavesMark(ctx, m, i + 1, j, updated);
    } else {
      SmoothHook(ctx, m, i, Sync);
      var r := RunHook(ctx, m, i, Sync);
      SkipLeavesMark(ctx, r.m, i + 1, j, updated || r.result.Updated?);
    }
  }

  lemma {:induction false} SyncLeavesMark(ctx: Ctx, m: Machine)
    requires Smooth(ctx) && Fine(ctx, m) && (Starts(ctx) && NonHookTasks(ctx.env.tasks) == [])
    ensures StartedSync(RunHooks(ctx, m, Sync).m)
  {
    hide Covered, IsHookType, HookPass, Smooth, KeyFor;
    var j :| 0 <= j < |ctx.hooks| && (IsHookType(ctx.hooks[j], Sync) || IsHookType(ctx.hooks[j], Skip));
    var n := RunHooks(ctx, m, Sync).m;
    if IsHookType(ctx.hooks[j], Skip) {
      SkipLeavesMark(ctx, m, 0, j, false);
    } else {
      assert Runs(ctx.hooks[j], Sync);
      SmoothPhase(ctx, m, Sync);
      var key := KeyFor(ctx.op, ctx.env.revision, ctx.hooks[j], Sync).value;
      KeyForType(ctx.op, ctx.env.revision, ctx.hooks[j], Sync);
      LookupIsEntry(n.hooks, key);
    }
  }

  /** PostSync does not have to wait: the application is healthy, or there is no PostSync hook, or one has started. */
  predicate Unhindered(ctx: Ctx, m: Machine) {
    ctx.env.health.Healthy? || !HasPostSync(ctx.hooks) || StartedPostSync(m)
  }

  lemma {:induction false} SmoothPostSync(ctx: Ctx, m: Machine)
    requires Smooth(ctx) && Fine(ctx, m) && StartedSync(m) && Unhindered(ctx, m)
    requires PhaseCompleted(ctx, m.hooks, PreSync, 0) && PhaseCompleted(ctx, m.hooks, Sync, 0)
    ensures var n := PostSyncPart(ctx, m);
            n.phase.Completed() || (Fine(ctx, n) && Rank(ctx, n) < Rank(ctx, m))
  {
    hide Covered, PhaseCompleted, RunHooks;
    SmoothPhase(ctx, m, PostSync);
    RunHooksEvolves(ctx, m, PostSync);
    var n := RunHooks(ctx, m, PostSync).m;
    PhaseStays(ctx, m, n, PreSync, PostSync);
    PhaseStays(ctx, m, n, Sync, PostSync);
    assert StartedSync(n);
  }

  lemma {:induction false} SmoothSync(ctx: Ctx, m: Machine)
    requires ctx.op.SyncOperation? && Smooth(ctx) && Fine(ctx, m) && Starts(ctx) && ValidTasks(ctx.env.tasks)
    requires PhaseCompleted(ctx, m.hooks, PreSync, 0) && Unhindered(ctx, m)
    ensures var n := SyncPart(ctx, m);
            n.phase.Completed() || (Fine(ctx, n) && Rank(ctx, n) < Rank(ctx, m))
  {
    hide Covered, PhaseCompleted, RunHooks, PostSyncPart, IsHook, Starts, Smooth, RunApply, HasPostSync;
    if StartedSync(m) {
      SmoothPhase(ctx, m, Sync);
      RunHooksEvolves(ctx, m, Sync);
      var s := RunHooks(ctx, m, Sync);
      PhaseStays(ctx, m, s.m, PreSync, Sync);
      assert StartedSync(s.m);
      if s.go { RunHooksGo(ctx, m, Sync); SmoothPostSync(ctx, s.m); }
    } else {
      var mode, tasks := RealMode(ctx.op), NonHookTasks(ctx.env.tasks);
      SmoothRunApply(ctx, m, mode, tasks);
      NonHookValid(ctx.env.tasks);
      RunApplyFacts(ctx, m, mode, tasks);
      var a := RunApply(ctx, m, mode, tasks).m;
      SmoothPhase(ctx, a, Sync);
      RunHooksEvolves(ctx, a, Sync);
      var n := RunHooks(ctx, a, Sync).m;
      PhaseStays(ctx, a, n, PreSync, Sync);
      if tasks == [] { SyncLeavesMark(ctx, a); }
    }
  }

  lemma {:induction false} SmoothRunApply(ctx: Ctx, m: Machine, mode: Mode, tasks: seq<Task>)
    requires Smooth(ctx)
    ensures RunApply(ctx, m, mode, tasks).go
  {
    SmoothApply(ctx.env.cluster, mode, tasks, m.resources);
  }

  /** Every smooth step of a hook sync in which PostSync does not have to wait ends the operation or lowers the rank. */
  lemma {:induction false} SmoothStep(ctx: Ctx, m: Machine)
    requires HookSyncStep(ctx, m) && Smooth(ctx) && Fine(ctx, m) && Starts(ctx) && Unhindered(ctx, m)
    ensures var n := SyncOnce(ctx, m);
            n.phase.Completed() || (Fine(ctx, n) && Rank(ctx, n) < Rank(ctx, m))
  {
    hide Covered, PhaseCompleted, RunHooks, SyncPart, IsHook, Starts, Smooth, RunApply, VerifyHooks, HasPostSync;
    var d := if StartedPreSync(m) then m else RunApply(ctx, m, DryMode(ctx.op), ctx.env.tasks).m;
    if !StartedPreSync(m) {
      SmoothRunApply(ctx, m, DryMode(ctx.op), ctx.env.tasks);
      RunApplyFacts(ctx, m, DryMode(ctx.op), ctx.env.tasks);
    }
    SmoothVerify(ctx, 0);
    SmoothPhase(ctx, d, PreSync);
    RunHooksEvolves(ctx, d, PreSync);
    var p := RunHooks(ctx, d, PreSync);
    if p.go {
      RunHooksGo(ctx, d, PreSync);
      SmoothSync(ctx, p.m);
      assert Rank(ctx, p.m) == Rank(ctx, m);
    }
  }
}
