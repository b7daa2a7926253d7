/** A hook sync completes within four smooth steps, and exactly when Sync can ever start. */
module Completion {
  import opened Kube
  import opened Keyed
  import opened SyncState
  import opened ApplySync
  import opened HookSync
  import opened HookFacts
  import opened HookReports
  import opened SyncStep
  import opened SyncApply
  import opened SyncRun
  import opened SyncTheorems
  import opened Progress

  // ---------------------------------------------------------------------------------------------
  // Reachable states only know the hooks of their manifests
  // ---------------------------------------------------------------------------------------------

  /** Every step that gets as far as a comparison finds the same commit and the same hooks. */
  ghost predicate FixedManifests(op: Operation, run: seq<Reconcile>, ctx: Ctx) {
    && ctx.op == op && op.SyncOperation?
    && forall i :: 0 <= i < |run| && EnvAt(op, run[i]).Ready? ==>
      EnvAt(op, run[i]).env.revision == ctx.env.revision && ArgoHooks(EnvAt(op, run[i]).env.manifests) == ctx.hooks
  }

  lemma {:induction false} RunHooksCovered(ctx: Ctx, m: Machine, t: HookType)
    requires Covered(ctx, m.hooks)
    ensures Covered(ctx, RunHooks(ctx, m, t).m.hooks)
  {
    hide Covered, HookPass;
    PassCovered(ctx, m, t, 0, false);
  }

  lemma {:induction false} SyncPartCovered(ctx: Ctx, m: Machine)
    requires ctx.op.SyncOperation? && Covered(ctx, m.hooks)
    ensures Covered(ctx, SyncPart(ctx, m).hooks)
  {
    hide Covered, RunHooks, DoApply;
    var a := RunApply(ctx, m, RealMode(ctx.op), NonHookTasks(ctx.env.tasks)).m;
    RunHooksCovered(ctx, m, Sync);
    RunHooksCovered(ctx, RunHooks(ctx, m, Sync).m, PostSync);
    RunHooksCovered(ctx, a, Sync);
  }

  lemma {:induction false} SyncOnceCovered(ctx: Ctx, m: Machine)
    requires ctx.op.SyncOperation? && ctx.op.strategy.UsesHooks() && Covered(ctx, m.hooks)
    ensures Covered(ctx, SyncOnce(ctx, m).hooks)
  {
    hide Covered, RunHooks, DoApply, SyncPart, VerifyHooks;
    var dry := RunApply(ctx, m, DryMode(ctx.op), ctx.env.tasks).m;
    RunHooksCovered(ctx, m, PreSync);
    RunHooksCovered(ctx, dry, PreSync);
    SyncPartCovered(ctx, RunHooks(ctx, m, PreSync).m);
    SyncPartCovered(ctx, RunHooks(ctx, dry, PreSync).m);
  }

  /** Covered only depends on the operation, the commit and the hooks. */
  lemma {:induction false} CoveredSame(a: Ctx, b: Ctx, hooks: HookStatuses)
    requires a.op == b.op && a.env.revision == b.env.revision && a.hooks == b.hooks && Covered(a, hooks)
    ensures Covered(b, hooks)
  {
    hide Runs, KeyFor;
    forall e | 0 <= e < |hooks| ensures HasRun(b, hooks[e].key) {
      var j :| 0 <= j < |a.hooks| && IsRunOf(a, j, hooks[e].key);
      assert IsRunOf(b, j, hooks[e].key);
    }
  }

  lemma {:induction false} StepCovered(op: Operation, r: Reconcile, ctx: Ctx)
    requires HookStep(op, r) && ctx.op == op && Covered(ctx, r.pre.hooks)
    requires EnvAt(op, r).env.revision == ctx.env.revision && ArgoHooks(EnvAt(op, r).env.manifests) == ctx.hooks
    ensures Covered(ctx, Result(op, r).post.hooks) && Result(op, r).post.revision == ctx.env.revision
  {
    hide Covered, SyncOnce, ArgoHooks;
    CoveredSame(ctx, CtxAt(op, r), r.pre.hooks);
    SyncOnceCovered(CtxAt(op, r), MachineOf(r.pre));
    CoveredSame(CtxAt(op, r), ctx, SyncOnce(CtxAt(op, r), MachineOf(r.pre)).hooks);
  }

  lemma {:induction false} RunCovered(op: Operation, run: seq<Reconcile>, i: nat, ctx: Ctx)
    requires HookOp(op) && ValidRun(op, run) && i < |run| && FixedManifests(op, run, ctx)
    ensures Covered(ctx, run[i].pre.hooks)
    ensures run[i].pre.revision == "" || run[i].pre.revision == ctx.env.revision
  {
    assert Covered(ctx, []);
    hide Covered, IsHook, Step;
    if i > 0 {
      RunCovered(op, run, i - 1, ctx);
      GoingOn(op, run, i);
      StepCovered(op, run[i - 1], ctx);
    }
  }

  // ---------------------------------------------------------------------------------------------
  // Four steps
  // ---------------------------------------------------------------------------------------------

  /** The state after resuming the operation in the given worlds, one after the other, until it is completed. */
  function Resume(op: Operation, st: OpState, worlds: seq<World>): OpState
    decreases |worlds|
  {
    if worlds == [] || st.phase.Completed() then st else Resume(op, Step(op, st, worlds[0]).post, worlds[1..])
  }

  /** The application is healthy, or its health does not matter because there is no PostSync hook. */
  predicate HealthyEnough(ctx: Ctx) {
    ctx.env.health.Healthy? || !HasPostSync(ctx.hooks)
  }

  /** A world without failures, for the operation, commit and hooks of ctx. */
  ghost predicate SmoothWorld(world: World, ctx: Ctx) {
    && ctx.op.SyncOperation?
    && forall s :: s == ctx.op.revision || s == ctx.env.revision ==>
      && world(s).Ready?
      && var c := Ctx(ctx.op, world(s).env, ctx.hooks);
      && ArgoHooks(c.env.manifests) == ctx.hooks && c.env.revision == ctx.env.revision
      && Smooth(c) && HealthyEnough(c) && Starts(c) && ValidTasks(c.env.tasks) && c.env.tasks != []
  }

  lemma {:induction false} RankSame(a: Ctx, b: Ctx, m: Machine)
    requires a.op == b.op && a.env.revision == b.env.revision && a.hooks == b.hooks
    ensures Rank(a, m) == Rank(b, m)
  {
  }

  lemma {:induction false} ResumeEnds(ctx: Ctx, st: OpState, worlds: seq<World>)
    requires HookOp(ctx.op) && (st.phase.Completed() || Fine(ctx, MachineOf(st)))
    requires st.revision == "" || st.revision == ctx.env.revision
    requires forall i :: 0 <= i < |worlds| ==> SmoothWorld(worlds[i], ctx)
    requires st.phase.Completed() || |worlds| >= Rank(ctx, MachineOf(st))
    ensures Resume(ctx.op, st, worlds).phase.Completed()
    decreases |worlds|
  {
    hide Covered, IsHook, SyncOnce, Starts, Smooth, PhaseCompleted;
    if !st.phase.Completed() {
      var op, w := ctx.op, worlds[0];
      var s := EffectiveRevision(op, st);
      assert SmoothWorld(w, ctx);
      var c, m := Ctx(op, w(s).env, ctx.hooks), MachineOf(st);
      CoveredSame(ctx, c, st.hooks);
      SmoothStep(c, m);
      var n, post := SyncOnce(c, m), Step(op, st, w).post;
      if !post.phase.Completed() {
        CoveredSame(c, ctx, n.hooks);
        RankSame(c, ctx, m);
        RankSame(c, ctx, MachineOf(post));
        assert Rank(c, MachineOf(post)) == Rank(c, n);
      }
      ResumeEnds(ctx, post, worlds[1..]);
    }
  }

  /** From every running state that a hook sync with fixed manifests can reach, four further steps complete it,
      provided that in those steps the API calls succeed, polled hooks report completed, the application is healthy
      and there is something to start Sync with. */
  lemma {:induction false} CompletesWithinFour(op: Operation, run: seq<Reconcile>, ctx: Ctx, worlds: seq<World>)
    requires HookOp(op) && ValidRun(op, run) && |run| > 0 && FixedManifests(op, run, ctx)
    requires run[|run| - 1].pre.phase.Running?
    requires |worlds| == 4 && forall i :: 0 <= i < |worlds| ==> SmoothWorld(worlds[i], ctx)
    ensures Resume(op, run[|run| - 1].pre, worlds).phase.Completed()
  {
    hide Covered, IsHook, Starts, Smooth, PhaseCompleted, Step;
    RunCovered(op, run, |run| - 1, ctx);
    RunGood(op, run, |run| - 1);
    ResumeEnds(ctx, run[|run| - 1].pre, worlds);
  }

  // ---------------------------------------------------------------------------------------------
  // Exactly when it completes
  // ---------------------------------------------------------------------------------------------

  /** Polled hooks report success, and can be deleted where their policy asks for it. */
  predicate Succeeds(h: Object, api: HookApi) {
    Seen(api).Some? && api.deleted && SaysSucceeded(h, Seen(api).value)
  }

  ghost predicate AllSucceedHooks(ctx: Ctx) {
    forall i, t :: 0 <= i < |ctx.hooks| ==> Succeeds(ctx.hooks[i], ctx.env.hookApi(i, t))
  }

  /** Only successful PreSync hooks are recorded, and nothing else. */
  ghost predicate Idle(m: Machine) {
    && m.phase.Running? && m.resources == []
    && forall e :: 0 <= e < |m.hooks| ==> m.hooks[e].key.typ == PreSync && m.hooks[e].value.status.Succeeded?
  }

  lemma {:induction false} OneSucceeds(ctx: Ctx, i: nat, t: HookType)
    requires AllSucceedHooks(ctx) && i < |ctx.hooks|
    ensures Succeeds(ctx.hooks[i], ctx.env.hookApi(i, t))
  {
    hide Succeeds;
  }

  /** Running a hook that succeeds records that, unless it was completed already. */
  lemma {:induction false} SucceedingHook(ctx: Ctx, m: Machine, i: nat, t: HookType)
    requires Smooth(ctx) && AllSucceedHooks(ctx) && i < |ctx.hooks|
    ensures var r, h := RunHook(ctx, m, i, t), ctx.hooks[i];
            && !r.result.HookError? && KeyFor(ctx.op, ctx.env.revision, h, t).Some?
            && (r.m == m || (r.m.resources == m.resources && (r.m.phase == m.phase || r.m.phase.Running?)
                             && r.m.hooks == Put(m.hooks, KeyFor(ctx.op, ctx.env.revision, h, t).value,
                                                 HookInfo(h.api, OperationPhase.Succeeded))))
  {
    hide RunHook, KeyFor, IsCompleted, Put, Smooth, AllSucceedHooks, SaysSucceeded, SaysFailed, SaysError, ToDelete;
    assert Succeeds(ctx.hooks[i], ctx.env.hookApi(i, t)) by { OneSucceeds(ctx, i, t); }
    SmoothHook(ctx, m, i, t);
    RunHookReports(ctx, m, i, t);
    var key := KeyFor(ctx.op, ctx.env.revision, ctx.hooks[i], t).value;
    if !IsCompleted(m.hooks, key) {
      var status := SeenIsRecorded(ctx, m, i, t, key);
      assert status.Succeeded?;
    }
  }

  lemma {:induction false} IdleHook(ctx: Ctx, m: Machine, i: nat)
    requires Smooth(ctx) && AllSucceedHooks(ctx) && i < |ctx.hooks| && Idle(m)
    ensures Idle(RunHook(ctx, m, i, PreSync).m) && !RunHook(ctx, m, i, PreSync).result.HookError?
  {
    hide RunHook, KeyFor, IsCompleted, Put, Smooth, AllSucceedHooks;
    KeyForType(ctx.op, ctx.env.revision, ctx.hooks[i], PreSync);
    SucceedingHook(ctx, m, i, PreSync);
    var key := KeyFor(ctx.op, ctx.env.revision, ctx.hooks[i], PreSync).value;
    PutEntries(m.hooks, key, HookInfo(ctx.hooks[i].api, OperationPhase.Succeeded));
  }

  lemma {:induction false} IdlePass(ctx: Ctx, m: Machine, i: nat, updated: bool)
    requires Smooth(ctx) && AllSucceedHooks(ctx) && i <= |ctx.hooks| && Idle(m)
    ensures Idle(HookPass(ctx, m, PreSync, i, updated).m) && !HookPass(ctx, m, PreSync, i, updated).failed
    decreases |ctx.hooks| - i
  {
    hide RunHook, IsHookType, Completes, Succeeds;
    if i < |ctx.hooks| {
      if Runs(ctx.hooks[i], PreSync) {
        IdleHook(ctx, m, i);
        var r := RunHook(ctx, m, i, PreSync);
        IdlePass(ctx, r.m, i + 1, updated || r.result.Updated?);
      } else {
        IdlePass(ctx, m, i + 1, updated);
      }
    }
  }

  lemma {:induction false} IdleSync(ctx: Ctx, m: Machine)
    requires ctx.op.SyncOperation? && !Starts(ctx) && Idle(m)
    ensures Idle(SyncPart(ctx, m))
  {
    hide IsHookType, HookPass, PostSyncPart;
    assert !StartedSync(m);
    var a := RunApply(ctx, m, RealMode(ctx.op), NonHookTasks(ctx.env.tasks));
    assert Plan(ctx.env.cluster, RealMode(ctx.op), []) == [];
    assert a.go && Idle(a.m);
    NothingRuns(ctx, a.m, Sync, 0);
  }

  /** Without anything to start Sync with, a step changes nothing but the statuses of PreSync hooks. */
  lemma {:induction false} IdleStep(ctx: Ctx, m: Machine)
    requires HookSyncStep(ctx, m) && Smooth(ctx) && AllSucceedHooks(ctx) && !Starts(ctx) && Idle(m)
    ensures Idle(SyncOnce(ctx, m))
  {
    hide HookPass, SyncPart, IsHook, Starts, Smooth, RunApply, VerifyHooks, Succeeds;
    var d := if StartedPreSync(m) then m else RunApply(ctx, m, DryMode(ctx.op), ctx.env.tasks).m;
    if !StartedPreSync(m) {
      SmoothRunApply(ctx, m, DryMode(ctx.op), ctx.env.tasks);
      RunApplyFacts(ctx, m, DryMode(ctx.op), ctx.env.tasks);
    }
    SmoothVerify(ctx, 0);
    IdlePass(ctx, d, 0, false);
    var p := RunHooks(ctx, d, PreSync);
    if p.go { IdleSync(ctx, p.m); }
  }

  function Repeat(world: World, n: nat): (worlds: seq<World>)
    ensures |worlds| == n && forall i :: 0 <= i < n ==> worlds[i] == world
  {
    if n == 0 then [] else [world] + Repeat(world, n - 1)
  }

  /** The same comparison, and the same replies, at every step. */
  ghost predicate ConstantWorld(world: World, ctx: Ctx) {
    && HookOp(ctx.op)
    && ctx.hooks == ArgoHooks(ctx.env.manifests) && ValidTasks(ctx.env.tasks) && ctx.env.tasks != []
    && world(ctx.op.revision) == Ready(ctx.env) && world(ctx.env.revision) == Ready(ctx.env)
    && Smooth(ctx) && AllSucceedHooks(ctx) && HealthyEnough(ctx)
  }

  lemma {:induction false} NeverEnds(world: World, ctx: Ctx, st: OpState, n: nat)
    requires ConstantWorld(world, ctx) && !Starts(ctx) && Idle(MachineOf(st))
    requires st.revision == "" || st.revision == ctx.env.revision
    ensures !Resume(ctx.op, st, Repeat(world, n)).phase.Completed()
    decreases n
  {
    hide IsHook, SyncOnce, Starts, Smooth, Succeeds, ArgoHooks;
    if n > 0 {
      IdleStep(ctx, MachineOf(st));
      var post := Step(ctx.op, st, world).post;
      assert Idle(MachineOf(post));
      NeverEnds(world, ctx, post, n - 1);
      assert Repeat(world, n)[1..] == Repeat(world, n - 1);
    }
  }

  /** Everything recorded so far has succeeded. */
  ghost predicate Glad(m: Machine) {
    m.phase.Running? && forall e :: 0 <= e < |m.hooks| ==> m.hooks[e].value.status.Succeeded?
  }

  lemma {:induction false} GladHook(ctx: Ctx, m: Machine, i: nat, t: HookType)
    requires Smooth(ctx) && AllSucceedHooks(ctx) && i < |ctx.hooks| && Glad(m)
    ensures Glad(RunHook(ctx, m, i, t).m) && !RunHook(ctx, m, i, t).result.HookError?
  {
    hide RunHook, KeyFor, IsCompleted, Put, Smooth, AllSucceedHooks;
    SucceedingHook(ctx, m, i, t);
    var key := KeyFor(ctx.op, ctx.env.revision, ctx.hooks[i], t).value;
    PutEntries(m.hooks, key, HookInfo(ctx.hooks[i].api, OperationPhase.Succeeded));
  }

  lemma {:induction false} GladPass(ctx: Ctx, m: Machine, t: HookType, i: nat, updated: bool)
    requires Smooth(ctx) && AllSucceedHooks(ctx) && i <= |ctx.hooks| && Glad(m)
    ensures Glad(HookPass(ctx, m, t, i, updated).m) && !HookPass(ctx, m, t, i, updated).failed
    decreases |ctx.hooks| - i
  {
    hide RunHook, IsHookType, Smooth, AllSucceedHooks;
    if i < |ctx.hooks| {
      if Skips(ctx.hooks[i], t) {
        GladPass(ctx, m.(resources := Put(m.resources, KeyOf(ctx.hooks[i]), NoStatus)), t, i + 1, updated);
      } else if !Runs(ctx.hooks[i], t) {
        GladPass(ctx, m, t, i + 1, updated);
      } else {
        GladHook(ctx, m, i, t);
        var r := RunHook(ctx, m, i, t);
        GladPass(ctx, r.m, t, i + 1, updated || r.result.Updated?);
      }
    }
  }

  lemma {:induction false} GladPhase(ctx: Ctx, m: Machine, t: HookType)
    requires Smooth(ctx) && AllSucceedHooks(ctx) && Glad(m)
    ensures Glad(RunHooks(ctx, m, t).m)
  {
    hide HookPass, Smooth, AllSucceedHooks;
    GladPass(ctx, m, t, 0, false);
  }

  /** The health could be assessed, or is of no interest. */
  predicate HealthKnown(ctx: Ctx) {
    !ctx.env.health.HealthUnknown? || !HasPostSync(ctx.hooks)
  }

  lemma {:induction false} GladSync(ctx: Ctx, m: Machine)
    requires ctx.op.SyncOperation? && Smooth(ctx) && AllSucceedHooks(ctx) && HealthKnown(ctx)
    requires ValidTasks(ctx.env.tasks) && Glad(m)
    ensures Glad(SyncPart(ctx, m)) || SyncPart(ctx, m).phase.Succeeded?
  {
    hide RunHooks, RunApply, Smooth, AllSucceedHooks, ValidTasks, HasPostSync;
    GladPhase(ctx, m, Sync);
    var s := RunHooks(ctx, m, Sync);
    GladPhase(ctx, s.m, PostSync);
    NonHookValid(ctx.env.tasks);
    SmoothRunApply(ctx, m, RealMode(ctx.op), NonHookTasks(ctx.env.tasks));
    RunApplyFacts(ctx, m, RealMode(ctx.op), NonHookTasks(ctx.env.tasks));
    GladPhase(ctx, RunApply(ctx, m, RealMode(ctx.op), NonHookTasks(ctx.env.tasks)).m, Sync);
  }

  /** When nothing fails, a step leaves the operation running or ends it Succeeded. */
  lemma {:induction false} GladStep(ctx: Ctx, m: Machine)
    requires HookSyncStep(ctx, m) && Smooth(ctx) && AllSucceedHooks(ctx) && HealthKnown(ctx) && Glad(m)
    ensures Glad(SyncOnce(ctx, m)) || SyncOnce(ctx, m).phase.Succeeded?
  {
    hide RunHooks, SyncPart, RunApply, VerifyHooks, Smooth, AllSucceedHooks, ValidTasks, HasPostSync;
    var d := if StartedPreSync(m) then m else RunApply(ctx, m, DryMode(ctx.op), ctx.env.tasks).m;
    if !StartedPreSync(m) {
      SmoothRunApply(ctx, m, DryMode(ctx.op), ctx.env.tasks);
      RunApplyFacts(ctx, m, DryMode(ctx.op), ctx.env.tasks);
    }
    SmoothVerify(ctx, 0);
    GladPhase(ctx, d, PreSync);
    GladSync(ctx, RunHooks(ctx, d, PreSync).m);
  }

  /** A world in which every call and every hook succeeds and the health is known, but not necessarily good; for the
      operation, commit and hooks of ctx. */
  ghost predicate KindWorld(world: World, ctx: Ctx) {
    && HookOp(ctx.op)
    && forall s :: s == ctx.op.revision || s == ctx.env.revision ==>
      && world(s).Ready? && world(s).env.recorded
      && var c := Ctx(ctx.op, world(s).env, ctx.hooks);
      && ArgoHooks(c.env.manifests) == ctx.hooks && c.env.revision == ctx.env.revision
      && Smooth(c) && AllSucceedHooks(c) && HealthKnown(c) && ValidTasks(c.env.tasks)
  }

  /** The operation has succeeded, or is running and may succeed. */
  ghost predicate Promising(ctx: Ctx, st: OpState) {
    && (st.phase.Succeeded? || (Glad(MachineOf(st)) && Fine(ctx, MachineOf(st))))
    && (st.revision == "" || st.revision == ctx.env.revision)
  }

  lemma {:induction false} KindStep(world: World, ctx: Ctx, st: OpState)
    requires KindWorld(world, ctx) && Promising(ctx, st) && !st.phase.Completed()
    ensures Promising(ctx, Step(ctx.op, st, world).post)
  {
    hide SyncOnce, Smooth, AllSucceedHooks, ArgoHooks, HasPostSync, Covered, GoodHooks, ValidTasks, StepOk;
    var op, s := ctx.op, EffectiveRevision(ctx.op, st);
    var c, m := Ctx(op, world(s).env, ctx.hooks), MachineOf(st);
    if c.env.tasks == [] {
      NoTasks(c, m);
    } else {
      GladStep(c, m);
      CoveredSame(ctx, c, st.hooks);
      SyncOnceCovered(c, m);
      CoveredSame(c, ctx, SyncOnce(c, m).hooks);
      SyncOnceOk(c, m);
      KeepsGood(c, m, SyncOnce(c, m));
    }
  }

  lemma {:induction false} NoTasks(ctx: Ctx, m: Machine)
    requires ctx.op.SyncOperation? && ctx.env.tasks == []
    ensures SyncOnce(ctx, m) == m.(phase := Succeeded)
  {
  }

  lemma {:induction false} KeepsGood(ctx: Ctx, m: Machine, n: Machine)
    requires StepOk(ctx, m, n) && GoodHooks(m.hooks)
    ensures GoodHooks(n.hooks)
  {
  }

  /** When every call and every hook succeeds, and however the health changes from step to step as long as it is known,
      no number of steps ends the operation otherwise than Succeeded. */
  lemma {:induction false} NeverFails(ctx: Ctx, st: OpState, worlds: seq<World>)
    requires Promising(ctx, st) && forall i :: 0 <= i < |worlds| ==> KindWorld(worlds[i], ctx)
    ensures var end := Resume(ctx.op, st, worlds);
            Promising(ctx, end) && (end.phase.Running? || end.phase.Succeeded?)
    decreases |worlds|
  {
    hide Step, Glad, Fine, KindWorld;
    assert st.phase.Succeeded? || st.phase.Running? by { PromisingPhase(ctx, st); }
    if |worlds| > 0 && !st.phase.Completed() {
      KindStep(worlds[0], ctx, st);
      NeverFails(ctx, Step(ctx.op, st, worlds[0]).post, worlds[1..]);
    }
  }

  lemma {:induction false} PromisingPhase(ctx: Ctx, st: OpState)
    requires Promising(ctx, st)
    ensures st.phase.Succeeded? || st.phase.Running?
  {
  }

  lemma {:induction false} ResumeAppend(op: Operation, st: OpState, a: seq<World>, b: seq<World>)
    ensures Resume(op, st, a + b) == Resume(op, Resume(op, st, a), b)
    decreases |a|
  {
    hide Step;
    if a == [] {
      assert a + b == b;
    } else if !st.phase.Completed() {
      assert (a + b)[1..] == a[1..] + b;
      ResumeAppend(op, Step(op, st, a[0]).post, a[1..], b);
    }
  }

  lemma {:induction false} FreshIsPromising(ctx: Ctx)
    ensures Promising(ctx, FRESH)
  {
  }

  /** However long the application takes to become healthy, four steps that find it so end the operation, and it has
      succeeded. */
  lemma {:induction false} WaitsAndSucceeds(ctx: Ctx, waits: seq<World>, worlds: seq<World>)
    requires |worlds| == 4 && forall i :: 0 <= i < |waits| ==> KindWorld(waits[i], ctx)
    requires forall i :: 0 <= i < |worlds| ==> KindWorld(worlds[i], ctx) && SmoothWorld(worlds[i], ctx)
    ensures Resume(ctx.op, FRESH, waits + worlds).phase.Succeeded?
  {
    hide Step, KindWorld, SmoothWorld, Glad, Fine, Resume;
    assert HookOp(ctx.op) by { assert KindWorld(worlds[0], ctx); WorldIsHookOp(worlds[0], ctx); }
    FreshIsPromising(ctx);
    NeverFails(ctx, FRESH, waits);
    var mid := Resume(ctx.op, FRESH, waits);
    ResumeEnds(ctx, mid, worlds);
    NeverFails(ctx, mid, worlds);
    ResumeAppend(ctx.op, FRESH, waits, worlds);
  }

  lemma {:induction false} WorldIsHookOp(world: World, ctx: Ctx)
    requires KindWorld(world, ctx)
    ensures HookOp(ctx.op)
  {
  }

  /** The state in which only the health is left to wait for: Sync has started, the PreSync and Sync hooks have
      succeeded, and there is a PostSync hook but none has started. */
  predicate AwaitsHealth(ctx: Ctx, hooks: HookStatuses) {
    && PhaseDone(ctx, hooks, PreSync) && PhaseDone(ctx, hooks, Sync)
    && HasPostSync(ctx.hooks) && !HasType(hooks, PostSync)
  }

  lemma {:induction false} DonePhaseGoes(ctx: Ctx, m: Machine, t: HookType)
    requires PhaseDone(ctx, m.hooks, t)
    ensures RunHooks(ctx, m, t).go
  {
    hide Runs, KeyFor, HookPass;
    assert PhaseCompleted(ctx, m.hooks, t, 0);
    CompletedPass(ctx, m, t, 0);
  }

  /** A step that finds the application not healthy before PostSync leaves the operation running, its hooks as they
      were, and makes no call; if the health cannot be assessed, it ends in Error. */
  lemma {:induction false} WaitsForHealth(op: Operation, r: Reconcile)
    requires HookStep(op, r) && StartedSync(MachineOf(r.pre)) && AwaitsHealth(CtxAt(op, r), r.pre.hooks)
    requires !EnvAt(op, r).env.health.Healthy?
    ensures var res := Result(op, r);
            && res.post.hooks == r.pre.hooks && res.calls == []
            && res.post.phase == if EnvAt(op, r).env.health.NotHealthy? then Running else Error
  {
    hide SyncOnce, AwaitsHealth, ArgoHooks, StartedSync;
    WaitingSync(CtxAt(op, r), MachineOf(r.pre));
  }

  lemma {:induction false} WaitingSync(ctx: Ctx, m: Machine)
    requires ctx.op.SyncOperation? && ctx.op.strategy.UsesHooks() && ctx.env.tasks != []
    requires StartedSync(m) && AwaitsHealth(ctx, m.hooks) && !ctx.env.health.Healthy?
    ensures var n := SyncOnce(ctx, m);
            && n.hooks == m.hooks && n.calls == m.calls
            && n.phase == if ctx.env.health.NotHealthy? then Running else Error
  {
    hide RunHooks, HasPostSync, PhaseDone, RunApply, VerifyHooks;
    DonePhaseGoes(ctx, m, PreSync);
    RunHooksGo(ctx, m, PreSync);
    var p := RunHooks(ctx, m, PreSync).m;
    DonePhaseGoes(ctx, p, Sync);
    RunHooksGo(ctx, p, Sync);
  }

  predicate EndsAfter(world: World, ctx: Ctx, n: nat) {
    Resume(ctx.op, FRESH, Repeat(world, n)).phase.Completed()
  }

  /** In a world in which every call succeeds and every hook reports success, a hook sync with at least one task
      completes if and only if there is a task without a hook annotation or a hook marked Sync or Skip; otherwise,
      for instance when every task is annotated Skip only, it is resumed for ever. When it completes it has succeeded,
      if its deployment could be recorded. */
  lemma {:induction false} CompletionCondition(world: World, ctx: Ctx)
    requires ConstantWorld(world, ctx)
    ensures (exists n: nat :: EndsAfter(world, ctx, n)) <==> Starts(ctx)
    ensures Starts(ctx) ==> EndsAfter(world, ctx, 4)
    ensures forall n: nat :: EndsAfter(world, ctx, n) && ctx.env.recorded ==>
              Resume(ctx.op, FRESH, Repeat(world, n)).phase.Succeeded?
  {
    hide IsHook, Step, Starts, Smooth, Succeeds, ArgoHooks;
    if Starts(ctx) {
      assert Covered(ctx, []);
      assert SmoothWorld(world, ctx);
      ResumeEnds(ctx, FRESH, Repeat(world, 4));
      assert EndsAfter(world, ctx, 4);
    } else {
      forall n: nat ensures !EndsAfter(world, ctx, n) {
        NeverEnds(world, ctx, FRESH, n);
      }
    }
    forall n: nat | EndsAfter(world, ctx, n) && ctx.env.recorded
      ensures Resume(ctx.op, FRESH, Repeat(world, n)).phase.Succeeded?
    {
      FreshIsPromising(ctx);
      assert KindWorld(world, ctx);
      NeverFails(ctx, FRESH, Repeat(world, n));
    }
  }

  /** One manifest, and an answer to every call with which it succeeds. */
  function EasyEnv(o: Object): StepEnv {
    StepEnv(
      "0123456789012345678901234567890123456789", [o], [Task(None, Some(o))],
      (_, _) => HookApi(true, Missing, true, Missing, true), _ => Served(true),
      ApplyEnv((_, _, _) => true, _ => true, (_, _) => Served(true), (_, _, _) => true),
      Healthy, _ => true, true)
  }

  // ---------------------------------------------------------------------------------------------
  // An application without hooks
  // ---------------------------------------------------------------------------------------------

  /** Every call succeeds and there is something to apply, but no hook. */
  ghost predicate HookFree(world: World, ctx: Ctx) {
    ConstantWorld(world, ctx) && ctx.hooks == [] && NonHookTasks(ctx.env.tasks) != [] && ctx.env.recorded
  }

  lemma {:induction false} EmptyPhase(ctx: Ctx, m: Machine, t: HookType)
    requires ctx.hooks == [] && m.hooks == []
    ensures RunHooks(ctx, m, t) == PhaseRun(m, true)
  {
  }

  /** The first step applies and leaves its mark. */
  lemma {:induction false} HookFreeFirst(world: World, ctx: Ctx)
    requires HookFree(world, ctx)
    ensures var n := SyncOnce(ctx, MachineOf(FRESH));
            n.phase.Running? && n.hooks == [] && n.resources != []
  {
    hide RunApply, RunHooks, IsHook, Smooth, AllSucceedHooks, ArgoHooks;
    var m, tasks := MachineOf(FRESH), NonHookTasks(ctx.env.tasks);
    SmoothRunApply(ctx, m, DryMode(ctx.op), ctx.env.tasks);
    RunApplyFacts(ctx, m, DryMode(ctx.op), ctx.env.tasks);
    var d := RunApply(ctx, m, DryMode(ctx.op), ctx.env.tasks).m;
    EmptyPhase(ctx, d, PreSync);
    NonHookValid(ctx.env.tasks);
    SmoothRunApply(ctx, d, RealMode(ctx.op), tasks);
    RunApplyFacts(ctx, d, RealMode(ctx.op), tasks);
    EmptyPhase(ctx, RunApply(ctx, d, RealMode(ctx.op), tasks).m, Sync);
  }

  lemma {:induction false} HookFreeSecond(world: World, ctx: Ctx, m: Machine)
    requires HookFree(world, ctx) && m.phase.Running? && m.hooks == [] && m.resources != []
    ensures SyncOnce(ctx, m).phase.Succeeded?
  {
    hide RunApply, RunHooks, IsHook, Smooth, AllSucceedHooks, ArgoHooks;
    EmptyPhase(ctx, m, PreSync);
    EmptyPhase(ctx, m, Sync);
    EmptyPhase(ctx, m, PostSync);
  }

  /** It is synced by a run of two steps, the second of which ends Succeeded. */
  lemma {:induction false} HookFreeSucceeds(world: World, ctx: Ctx)
    requires HookFree(world, ctx)
    ensures var first := Reconcile(FRESH, world);
            var run := [first, Reconcile(Result(ctx.op, first).post, world)];
            ValidRun(ctx.op, run) && Result(ctx.op, run[1]).post.phase.Succeeded?
  {
    hide SyncOnce, IsHook, Smooth, AllSucceedHooks, ArgoHooks, ValidTasks;
    var first := Reconcile(FRESH, world);
    HookFreeFirst(world, ctx);
    var post := Result(ctx.op, first).post;
    HookFreeSecond(world, ctx, MachineOf(post));
  }

  const PLAIN := Object(ApiVersion("", "v1"), "ConfigMap", "settings", "", map[], "", None, None)

  function PlainEnv(): StepEnv {
    EasyEnv(PLAIN)
  }

  function PlainCtx(): Ctx {
    Ctx(SyncOperation("HEAD", false, false, DefaultStrategy, false, 0), PlainEnv(), [])
  }

  /** An application of one config map is such a case. */
  lemma {:induction false} PlainIsHookFree()
    ensures HookFree(_ => Ready(PlainEnv()), PlainCtx())
  {
    hide IsHook, IsArgoHook;
    PlainIsNoHook();
    assert ArgoHooks([PLAIN]) == [] by { NoHookIsNoArgoHook(PLAIN); }
    assert NonHookTasks([Task(None, Some(PLAIN))]) == [Task(None, Some(PLAIN))];
  }

  lemma {:induction false} PlainIsNoHook()
    ensures !IsHook(PLAIN)
  {
    SplitPlain("", ',');
    assert TrimSpace("") == "";
  }

  // ---------------------------------------------------------------------------------------------
  // An application of one resource, annotated Skip
  // ---------------------------------------------------------------------------------------------

  const SKIPPED :=
    Object(ApiVersion("", "v1"), "ConfigMap", "settings", "", map[HOOK_ANNOTATION := "Skip"], "", None, None)

  lemma {:induction false} OnlySkip(o: Object, t: HookType)
    requires Annotation(o, HOOK_ANNOTATION) == "Skip" && t != Skip
    ensures !IsHookType(o, t)
  {
    hide Annotation, Split;
    SplitPlain("Skip", ',');
    assert TrimSpace("Skip") == "Skip";
    assert TypeName(t)[|TypeName(t)| - 1] == 'c';
  }

  lemma {:induction false} SkipIsNoHook()
    ensures !IsHook(SKIPPED)
  {
    hide IsHookType, ListHas;
    OnlySkip(SKIPPED, PreSync);
    OnlySkip(SKIPPED, Sync);
    OnlySkip(SKIPPED, PostSync);
    assert HELM_HOOK_ANNOTATION[0] != HOOK_ANNOTATION[0];
  }

  function SkippedEnv(): StepEnv {
    EasyEnv(SKIPPED)
  }

  function SkippedCtx(): Ctx {
    Ctx(SyncOperation("HEAD", false, false, DefaultStrategy, false, 0), SkippedEnv(), [])
  }

  /** Every call succeeds, the application is healthy, there is a task, and yet the operation never ends. */
  lemma {:induction false} SkipOnlyNeverEnds(n: nat)
    ensures !EndsAfter(_ => Ready(SkippedEnv()), SkippedCtx(), n)
  {
    hide IsHook, IsArgoHook, EndsAfter;
    SkipIsNoHook();
    var ctx, world := SkippedCtx(), (_: string) => Ready(SkippedEnv());
    assert ArgoHooks([SKIPPED]) == [] by { assert !IsArgoHook(SKIPPED) by { NoHookIsNoArgoHook(SKIPPED); } }
    assert NonHookTasks(ctx.env.tasks) == [];
    assert ConstantWorld(world, ctx);
    CompletionCondition(world, ctx);
  }

  lemma {:induction false} NoHookIsNoArgoHook(o: Object)
    requires !IsHook(o)
    ensures !IsArgoHook(o)
  {
  }
}
