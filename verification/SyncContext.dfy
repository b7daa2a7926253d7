/** The sync context of the controller: the methods that carry out a step by updating the operation state in
    place, each proved against the function that specifies it. */
module SyncContext {
  import opened Kube
  import opened Keyed
  import opened SyncState
  import opened ApplySync
  import opened HookSync

  /** The hooks among the manifests. */
  method GetHooks(manifests: seq<Object>) returns (hooks: seq<Object>)
    ensures hooks == ArgoHooks(manifests)
  {
    hide IsArgoHook;
    hooks := [];
    for i := 0 to |manifests|
      invariant hooks == ArgoHooks(manifests[..i])
    {
      assert manifests[..i + 1][..i] == manifests[..i];
      if IsArgoHook(manifests[i]) {
        hooks := hooks + [manifests[i]];
      }
    }
    assert manifests[..|manifests|] == manifests;
  }

  /** A job has failed if any condition says so, and is complete if any condition says so. */
  method BatchJobPhase(conditions: seq<JobCondition>) returns (phase: OperationPhase)
    ensures phase == JobPhase(conditions)
  {
    var failed, complete := false, false;
    for i := 0 to |conditions|
      invariant failed <==> JobFailed in conditions[..i]
      invariant complete <==> JobFailed in conditions[..i] || JobComplete in conditions[..i]
    {
      match conditions[i]
      case JobFailed => failed, complete := true, true;
      case JobComplete => complete := true;
      case OtherCondition =>
    }
    assert conditions[..|conditions|] == conditions;
    phase := if !complete then Running else if failed then Failed else Succeeded;
  }

  class SyncContext {
    const ctx: Ctx
    var phase: OperationPhase
    var hooks: HookStatuses
    var resources: Resources
    var calls: seq<Call>

    ghost function State(): Machine
      reads this
    {
      Machine(phase, hooks, resources, calls)
    }

    constructor (ctx: Ctx, st: OpState)
      ensures this.ctx == ctx && State() == Machine(st.phase, st.hooks, st.resources, [])
    {
      this.ctx := ctx;
      phase, hooks, resources, calls := st.phase, st.hooks, st.resources, [];
    }

    method SetResourceDetails(key: ResourceKey, status: ResourceStatus)
      modifies this`resources
      ensures resources == Put(old(resources), key, status)
    {
      resources := Upsert(resources, key, status);
    }

    /** Records a hook status. The source compares a pointer with a value, so it always reports a change. */
    method UpdateHookStatus(key: HookKey, info: HookInfo) returns (changed: bool)
      modifies this`hooks
      ensures hooks == Put(old(hooks), key, info) && changed
    {
      hooks := Upsert(hooks, key, info);
      changed := true;
    }

    // -------------------------------------------------------------------------------------------
    // Apply
    // -------------------------------------------------------------------------------------------

    /** Carries out one job. */
    method Run(mode: Mode, job: Job, ok: bool) returns (success: bool)
      modifies this`resources, this`calls
      ensures Outcome(success, resources, calls) == Perform(mode, Outcome(ok, old(resources), old(calls)), job)
    {
      if job.call.Some? {
        calls := calls + [job.call.value];
      }
      success := ok && job.status.Successful();
      if mode.update || !job.status.Successful() {
        SetResourceDetails(job.key, job.status);
      }
    }

    method ProcessCreateTasks(mode: Mode, targets: seq<Object>, group: seq<Object>, stage: nat, ok: bool)
      returns (success: bool)
      requires group != []
      modifies this`resources, this`calls
      ensures Outcome(success, resources, calls) ==
              PerformAll(mode, Outcome(ok, old(resources), old(calls)),
                         GroupJobs(ctx.env.cluster, mode, GroupGate(ctx.env.cluster, mode, targets, group[0], stage),
                                   group, stage))
    {
      hide IsHook;
      var env := ctx.env.cluster;
      var gate := GroupGate(env, mode, targets, group[0], stage);
      success := ok;
      for i := 0 to |group|
        invariant Outcome(success, resources, calls) ==
                  PerformAll(mode, Outcome(ok, old(resources), old(calls)),
                             GroupJobs(env, mode, gate, group[..i], stage))
      {
        var o := group[i];
        ghost var before := GroupJobs(env, mode, gate, group[..i], stage);
        ghost var after := GroupJobs(env, mode, gate, group[..i + 1], stage);
        assert group[..i + 1][..i] == group[..i];
        if gate.Excuse? || (gate.Go? && IsHook(o)) {
          assert after == before;
        } else {
          var job :=
            if gate.Reject? then Job(KeyOf(o), SyncFailed, None, stage) else ApplyJob(env, mode, o, stage, i);
          assert after == before + [job] && after[..|after| - 1] == before;
          success := Run(mode, job, success);
        }
      }
      assert group[..|group|] == group;
    }

    method PruneAll(mode: Mode, lives: seq<Object>) returns (success: bool)
      modifies this`resources, this`calls
      ensures Outcome(success, resources, calls) ==
              PerformAll(mode, Outcome(true, old(resources), old(calls)), PruneJobs(ctx.env.cluster, mode, lives))
    {
      success := true;
      for i := 0 to |lives|
        invariant Outcome(success, resources, calls) ==
                  PerformAll(mode, Outcome(true, old(resources), old(calls)),
                             PruneJobs(ctx.env.cluster, mode, lives[..i]))
      {
        var job := PruneJob(ctx.env.cluster, mode, lives[i], i);
        assert lives[..i + 1][..i] == lives[..i];
        ghost var jobs := PruneJobs(ctx.env.cluster, mode, lives[..i + 1]);
        assert jobs[..|jobs| - 1] == PruneJobs(ctx.env.cluster, mode, lives[..i]);
        success := Run(mode, job, success);
      }
      assert lives[..|lives|] == lives;
    }

    /** The tasks are split into prunes and creates; then groups of equal kind are collected and processed. */
    method DoApplySync(mode: Mode, tasks: seq<Task>) returns (success: bool)
      modifies this`resources, this`calls
      ensures var a := DoApply(ctx.env.cluster, mode, tasks, old(resources));
              success == a.ok && resources == a.resources && calls == old(calls) + a.calls
    {
      var lives, targets := SplitTasks(tasks);
      success := PruneAll(mode, lives);
      success := CreateAll(mode, targets, success);
      ghost var start, env := Outcome(true, old(resources), old(calls)), ctx.env.cluster;
      PerformAllAppend(mode, start, PruneJobs(env, mode, lives), CreateJobs(env, mode, targets, Groups(targets)));
      PerformAllShift(mode, Outcome(true, old(resources), []), old(calls), Plan(env, mode, tasks));
      assert old(calls) + [] == old(calls);
    }

    static method SplitTasks(tasks: seq<Task>) returns (lives: seq<Object>, targets: seq<Object>)
      ensures lives == Lives(tasks) && targets == Targets(tasks)
    {
      lives, targets := [], [];
      for i := 0 to |tasks|
        invariant lives == Lives(tasks[..i]) && targets == Targets(tasks[..i])
      {
        assert tasks[..i + 1][..i] == tasks[..i];
        if tasks[i].target.Some? {
          targets := targets + [tasks[i].target.value];
        } else if tasks[i].live.Some? {
          lives := lives + [tasks[i].live.value];
        }
      }
      assert tasks[..|tasks|] == tasks;
    }

    /** Processes the group collected so far. */
    method ProcessGroup(mode: Mode, targets: seq<Object>, ghost start: Outcome, ghost finished: seq<seq<Object>>,
                        group: seq<Object>, stage: nat, ok: bool)
      returns (success: bool)
      requires group != [] && stage == |finished| + 1
      requires Outcome(ok, resources, calls) ==
               PerformAll(mode, start, CreateJobs(ctx.env.cluster, mode, targets, finished))
      modifies this`resources, this`calls
      ensures Outcome(success, resources, calls) ==
              PerformAll(mode, start, CreateJobs(ctx.env.cluster, mode, targets, finished + [group]))
    {
      ghost var next, env := finished + [group], ctx.env.cluster;
      assert next[..|next| - 1] == finished;
      success := ProcessCreateTasks(mode, targets, group, stage, ok);
      PerformAllAppend(
        mode, start, CreateJobs(env, mode, targets, finished),
        GroupJobs(env, mode, GroupGate(env, mode, targets, group[0], stage), group, stage));
    }

    method CreateAll(mode: Mode, targets: seq<Object>, ok: bool) returns (success: bool)
      modifies this`resources, this`calls
      ensures Outcome(success, resources, calls) ==
              PerformAll(mode, Outcome(ok, old(resources), old(calls)),
                         CreateJobs(ctx.env.cluster, mode, targets, Groups(targets)))
    {
      ghost var start := Outcome(ok, old(resources), old(calls));
      success := ok;
      var group: seq<Object> := [];
      ghost var finished: seq<seq<Object>> := [];
      var stage := 1;
      for i := 0 to |targets|
        invariant group == [] <==> i == 0
        invariant if group == [] then finished == [] else Groups(targets[..i]) == finished + [group]
        invariant stage == |finished| + 1
        invariant Outcome(success, resources, calls) ==
                  PerformAll(mode, start, CreateJobs(ctx.env.cluster, mode, targets, finished))
      {
        assert targets[..i + 1][..i] == targets[..i];
        JoinLast(finished, group, targets[i]);
        if |group| > 0 && group[0].kind != targets[i].kind {
          success := ProcessGroup(mode, targets, start, finished, group, stage, success);
          finished, group, stage := finished + [group], [targets[i]], stage + 1;
        } else {
          group := group + [targets[i]];
          assert i == 0 ==> group == [targets[i]] && finished + [group] == [[targets[i]]];
        }
      }
      assert targets[..|targets|] == targets;
      if |group| > 0 {
        success := ProcessGroup(mode, targets, start, finished, group, stage, success);
      }
    }

    // -------------------------------------------------------------------------------------------
    // Hooks
    // -------------------------------------------------------------------------------------------

    method RunHook(i: nat, t: HookType) returns (result: HookResult)
      requires i < |ctx.hooks|
      modifies this`phase, this`hooks, this`calls
      ensures HookRun(State(), result) == HookSync.RunHook(ctx, old(State()), i, t)
    {
      hide DeletesHook, LivePhase;
      var h := ctx.hooks[i];
      var named := KeyFor(ctx.op, ctx.env.revision, h, t);
      if named.None? {
        return HookError;
      }
      var key := named.value;
      var previous := Lookup(hooks, key);
      if previous.Some? && previous.value.status.Completed() {
        return Unchanged;
      }
      var api := ctx.env.hookApi(i, t);
      if !api.discovered || api.first.GetError? {
        return HookError;
      }
      var live;
      if api.first.Missing? {
        calls := calls + [HookApplied(key, api.applied)];
        if !api.applied || !api.second.Found? {
          return HookError;
        }
        phase := Running;
        live := api.second.live;
      } else {
        live := api.first.live;
      }
      var status := LivePhase(h.api, h.kind, live);
      if status.Completed() && DeletesHook(h, status) {
        calls := calls + [HookDeleted(key, api.deleted)];
        if !api.deleted {
          status := Failed;
        }
      }
      var changed := UpdateHookStatus(key, HookInfo(h.api, status));
      return if changed then Updated else Unchanged;
    }

    method RunHooks(t: HookType) returns (go: bool)
      modifies this`phase, this`hooks, this`resources, this`calls
      ensures PhaseRun(State(), go) == HookSync.RunHooks(ctx, old(State()), t)
    {
      hide IsHookType, HookSync.RunHook;
      var updated := false;
      for i := 0 to |ctx.hooks|
        invariant HookPass(ctx, State(), t, i, updated) == HookPass(ctx, old(State()), t, 0, false)
      {
        var h := ctx.hooks[i];
        if t == Sync && IsHookType(h, Skip) {
          SetResourceDetails(KeyOf(h), NoStatus);
          continue;
        }
        if !IsHookType(h, t) {
          continue;
        }
        var result := RunHook(i, t);
        if result.HookError? {
          phase := Error;
          return false;
        }
        if result.Updated? {
          updated := true;
        }
      }
      if updated {
        return false;
      }
      var completed, successful := AreHooksCompletedSuccessful(t, hooks);
      if completed && !successful {
        phase := Failed;
      }
      return completed && successful;
    }

    method VerifyPermittedHooks() returns (permitted: bool)
      modifies this`phase
      ensures permitted <==> VerifyHooks(ctx, 0).None?
      ensures phase == if permitted then old(phase) else VerifyHooks(ctx, 0).value
    {
      for i := 0 to |ctx.hooks|
        invariant phase == old(phase) && VerifyHooks(ctx, i) == VerifyHooks(ctx, 0)
      {
        var h := ctx.hooks[i];
        match ctx.env.hookKinds(i) {
          case Served(namespaced) =>
            if !ctx.env.cluster.permitted(h.api.group, h.kind, namespaced) {
              phase := Failed;
              return false;
            }
          case NotFound =>
            phase := Error;
            return false;
          case Unavailable =>
            phase := Error;
            return false;
        }
      }
      permitted := true;
    }

    method SyncNonHookTasks() returns (success: bool)
      requires ctx.op.SyncOperation?
      modifies this`resources, this`calls
      ensures PhaseRun(State(), success) ==
              RunApply(ctx, old(State()), RealMode(ctx.op), NonHookTasks(ctx.env.tasks))
    {
      hide Annotated, DoApply;
      var tasks, mine := ctx.env.tasks, [];
      for i := 0 to |tasks|
        invariant mine == NonHookTasks(tasks[..i])
      {
        assert tasks[..i + 1][..i] == tasks[..i];
        if tasks[i].target.None? || !Annotated(tasks[i].target.value) {
          mine := mine + [tasks[i]];
        }
      }
      assert tasks[..|tasks|] == tasks;
      success := DoApplySync(RealMode(ctx.op), mine);
    }

    method DoHookSync()
      requires ctx.op.SyncOperation?
      modifies this`phase, this`hooks, this`resources, this`calls
      ensures State() == HookSync.DoHookSync(ctx, old(State()))
    {
      hide HookSync.RunHooks, VerifyHooks, RunApply, IsHookType;
      if resources == [] && hooks == [] {
        var permitted := VerifyPermittedHooks();
        if !permitted {
          return;
        }
      }
      var go := RunHooks(PreSync);
      if !go {
        return;
      }
      if resources == [] && !HasType(hooks, Sync) && !HasType(hooks, PostSync) {
        var applied := SyncNonHookTasks();
        if !applied {
          phase := Failed;
          return;
        }
        go := RunHooks(Sync);
        return;
      }
      go := RunHooks(Sync);
      if !go {
        return;
      }
      if HasPostSync(ctx.hooks) && !HasType(hooks, PostSync) && !ctx.env.health.Healthy? {
        phase := if ctx.env.health.HealthUnknown? then Error else Running;
        return;
      }
      go := RunHooks(PostSync);
      if go {
        phase := Succeeded;
      }
    }

    // -------------------------------------------------------------------------------------------
    // Steps
    // -------------------------------------------------------------------------------------------

    method SyncByStrategy()
      requires ctx.op.SyncOperation?
      modifies this`phase, this`hooks, this`resources, this`calls
      ensures State() == ByStrategy(ctx, old(State()))
    {
      hide HookSync.DoHookSync, DoApply;
      match ctx.op.strategy
      case ApplyStrategy(force) =>
        if resources != [] || HasType(hooks, Sync) || HasType(hooks, PostSync) {
          phase := Succeeded;
        } else {
          var ok := DoApplySync(RealMode(ctx.op), ctx.env.tasks);
          if !ok {
            phase := Failed;
          }
        }
      case UnknownStrategy =>
        phase := Failed;
      case _ =>
        DoHookSync();
    }

    method RunSync()
      requires ctx.op.SyncOperation?
      modifies this`phase, this`hooks, this`resources, this`calls
      ensures State() == SyncOnce(ctx, old(State()))
    {
      hide ByStrategy, DoApply;
      if ctx.env.tasks == [] {
        phase := Succeeded;
        return;
      }
      if resources == [] && hooks == [] {
        var ok := DoApplySync(DryMode(ctx.op), ctx.env.tasks);
        if !ok {
          phase := Failed;
          return;
        }
        if ctx.op.dryRun {
          phase := Succeeded;
          return;
        }
      }
      SyncByStrategy();
    }

    method Terminate()
      modifies this`phase, this`hooks, this`calls
      ensures State() == HookSync.Terminate(old(State()), ctx.env.deleted)
    {
      var ok, n := true, |hooks|;
      for i := 0 to n
        invariant |hooks| == n
        invariant StopHooks(State(), ctx.env.deleted, i, ok) == StopHooks(old(State()), ctx.env.deleted, 0, true)
      {
        var e := hooks[i];
        if ToStop(e) {
          var failed := HookInfo(e.value.api, Failed);
          hooks := hooks[i := Entry(e.key, failed)];
          calls := calls + [HookDeleted(e.key, ctx.env.deleted(e.key))];
          ok := ok && ctx.env.deleted(e.key);
          PutKeepsLength(hooks, e.key, failed, i);
          var _ := UpdateHookStatus(e.key, failed);
        }
      }
      phase := if ok then Failed else Error;
    }
  }

  /** One reconcile step, from the requested revision to the state that is persisted. */
  method SyncAppState(op: Operation, st: OpState, world: World) returns (res: StepResult)
    ensures res == Step(op, st, world)
  {
    hide SyncOnce, HookSync.Terminate;
    if op.NoOperation? {
      return StepResult(st.(phase := Failed), [], None);
    }
    var revision := if st.revision == "" then op.revision else st.revision;
    match world(revision)
    case CompareFailed => return StepResult(st.(phase := Error), [], None);
    case ErrorConditions => return StepResult(st.(phase := Error), [], None);
    case Unready(commit) => return StepResult(st.(phase := Error, revision := commit), [], None);
    case Ready(env) =>
      var hooks := GetHooks(env.manifests);
      var sc := new SyncContext(Ctx(op, env, hooks), st);
      if st.phase.Terminating? {
        sc.Terminate();
      } else {
        sc.RunSync();
      }
      var history := None;
      if !op.dryRun && !op.partial && sc.phase.Succeeded? {
        history := Some(env.revision);
        if !env.recorded {
          sc.phase := Error;
        }
      }
      return StepResult(OpState(sc.phase, env.revision, sc.hooks, sc.resources), sc.calls, history);
  }

  lemma {:induction false} JoinLast(finished: seq<seq<Object>>, group: seq<Object>, o: Object)
    ensures Join([], o) == [[o]]
    ensures group != [] ==>
      Join(finished + [group], o) ==
      if group[0].kind == o.kind then finished + [group + [o]] else (finished + [group]) + [[o]]
  {
  }

  lemma {:induction false} PerformAllShift(mode: Mode, s: Outcome, before: seq<Call>, jobs: seq<Job>)
    ensures PerformAll(mode, s.(calls := before + s.calls), jobs) ==
            PerformAll(mode, s, jobs).(calls := before + PerformAll(mode, s, jobs).calls)
  {
    if jobs != [] {
      PerformAllShift(mode, s, before, jobs[..|jobs| - 1]);
    }
  }
}
