/** What an apply lets through: only groups of a kind that the cluster serves and the project permits; and which hooks a
    sync lets through. */
module Admission {
  import opened Kube
  import opened Keyed
  import opened SyncState
  import opened ApplySync
  import opened HookSync
  import opened HookFacts
  import opened SyncStep
  import opened SyncApply
  import opened SyncRun
  import opened SyncTheorems

  // ---------------------------------------------------------------------------------------------
  // Groups of targets
  // ---------------------------------------------------------------------------------------------

  /** The kind of the group, which is the g-th counting from one, is served, and permitted as it is served. */
  predicate Admitted(env: ApplyEnv, mode: Mode, group: seq<Object>, g: nat)
    requires group != []
  {
    match env.discover(g, mode.dryRun)
    case Served(namespaced) => env.permitted(group[0].api.group, group[0].kind, namespaced)
    case _ => false
  }

  /** A dry run lets a group pass whose kind the cluster does not know yet but a target defines. */
  predicate Excused(env: ApplyEnv, mode: Mode, targets: seq<Object>, group: seq<Object>, g: nat)
    requires group != []
  {
    && mode.dryRun && env.discover(g, mode.dryRun).NotFound?
    && exists i :: 0 <= i < |targets| && targets[i].defines == Some((group[0].api.group, group[0].kind))
  }

  /** The objects of the groups that are admitted, in order. */
  function Admits(env: ApplyEnv, mode: Mode, groups: seq<seq<Object>>): seq<Object> {
    if groups == [] then []
    else
      var n := |groups| - 1;
      Admits(env, mode, groups[..n])
      + if groups[n] != [] && Admitted(env, mode, groups[n], |groups|) then groups[n] else []
  }

  /** No group is turned away. */
  ghost predicate AllAdmitted(env: ApplyEnv, mode: Mode, targets: seq<Object>, groups: seq<seq<Object>>) {
    forall g :: 0 <= g < |groups| && groups[g] != [] ==>
      Admitted(env, mode, groups[g], g + 1) || Excused(env, mode, targets, groups[g], g + 1)
  }

  lemma {:induction false} GateIs(env: ApplyEnv, mode: Mode, targets: seq<Object>, group: seq<Object>, g: nat)
    requires group != []
    ensures var gate := GroupGate(env, mode, targets, group[0], g);
            && (gate.Go? <==> Admitted(env, mode, group, g))
            && (gate.Excuse? <==> Excused(env, mode, targets, group, g))
  {
  }

  /** The objects of the applies, dry or not, in call order. */
  function Applies(calls: seq<Call>): seq<Object> {
    if calls == [] then []
    else
      var c := calls[|calls| - 1];
      var before := Applies(calls[..|calls| - 1]);
      if c.Applied? then before + [c.obj] else before
  }

  lemma {:induction false} AppliesAppend(a: seq<Call>, b: seq<Call>)
    ensures Applies(a + b) == Applies(a) + Applies(b)
  {
    if b == [] {
      assert a + b == a;
    } else {
      AppliesAppend(a, b[..|b| - 1]);
      assert (a + b)[..|a + b| - 1] == a + b[..|b| - 1];
    }
  }

  lemma {:induction false} AppliesOfJob(job: Job)
    ensures Applies(Made(job)) == if job.call.Some? && job.call.value.Applied? then [job.call.value.obj] else []
  {
  }

  lemma {:induction false} AppliesSnoc(jobs: seq<Job>, job: Job)
    ensures Applies(CallsOf(jobs + [job])) ==
            Applies(CallsOf(jobs)) + if job.call.Some? && job.call.value.Applied? then [job.call.value.obj] else []
  {
    hide Applies, CallsOf;
    CallsSnoc(jobs, job);
    AppliesAppend(CallsOf(jobs), Made(job));
    AppliesOfJob(job);
  }

  lemma {:induction false} NoJobs()
    ensures CallsOf([]) == [] && Applies([]) == []
  {
  }

  /** No job without a call fails. */
  ghost predicate NoneTurnedAway(jobs: seq<Job>) {
    forall i :: 0 <= i < |jobs| && jobs[i].call.None? ==> jobs[i].status.Successful()
  }

  lemma {:induction false} GroupPasses(env: ApplyEnv, mode: Mode, gate: Gate, group: seq<Object>, g: nat)
    requires NoHooks(group)
    ensures var jobs := GroupJobs(env, mode, gate, group, g);
            && Applies(CallsOf(jobs)) == (if gate.Go? then group else [])
            && (NoneTurnedAway(jobs) <==> !gate.Reject? || group == [])
  {
    hide IsHook, Applies, CallsOf;
    NoJobs();
    if group != [] {
      var n := |group| - 1;
      GroupPasses(env, mode, gate, group[..n], g);
      var before, jobs := GroupJobs(env, mode, gate, group[..n], g), GroupJobs(env, mode, gate, group, g);
      if jobs != before {
        assert jobs == before + [jobs[|before|]];
        AppliesSnoc(before, jobs[|before|]);
        TurnedAwaySnoc(before, jobs[|before|]);
      }
      assert group == group[..n] + [group[n]];
    }
  }

  lemma {:induction false} TurnedAwaySnoc(jobs: seq<Job>, job: Job)
    ensures NoneTurnedAway(jobs + [job]) <==> NoneTurnedAway(jobs) && (job.call.None? ==> job.status.Successful())
  {
    TurnedAwayAppend(jobs, [job]);
    assert [job][0] == job;
  }

  lemma {:induction false} TurnedAwayAppend(a: seq<Job>, b: seq<Job>)
    ensures NoneTurnedAway(a + b) <==> NoneTurnedAway(a) && NoneTurnedAway(b)
  {
    if NoneTurnedAway(a + b) {
      forall i | 0 <= i < |a| && a[i].call.None? ensures a[i].status.Successful() { assert a[i] == (a + b)[i]; }
      forall i | 0 <= i < |b| && b[i].call.None? ensures b[i].status.Successful() { assert b[i] == (a + b)[|a| + i]; }
    }
  }

  lemma {:induction false} CreatesPass(env: ApplyEnv, mode: Mode, targets: seq<Object>, groups: seq<seq<Object>>)
    requires forall g :: 0 <= g < |groups| ==> groups[g] != [] && NoHooks(groups[g])
    ensures var jobs := CreateJobs(env, mode, targets, groups);
            && Applies(CallsOf(jobs)) == Admits(env, mode, groups)
            && (NoneTurnedAway(jobs) <==> AllAdmitted(env, mode, targets, groups))
  {
    hide NoHooks, GroupJobs, GroupGate, Applies, CallsOf, NoneTurnedAway, Admitted, Excused;
    if groups == [] {
      assert CallsOf([]) == [] && Applies([]) == [] by { NoJobs(); }
      assert NoneTurnedAway([]) by { NoneToTurnAway(); }
    } else {
      var n := |groups| - 1;
      CreatesPass(env, mode, targets, groups[..n]);
      var gate := GroupGate(env, mode, targets, groups[n][0], |groups|);
      var before, jobs := CreateJobs(env, mode, targets, groups[..n]), GroupJobs(env, mode, gate, groups[n], |groups|);
      GateIs(env, mode, targets, groups[n], |groups|);
      GroupPasses(env, mode, gate, groups[n], |groups|);
      CallsOfAppend(before, jobs);
      AppliesAppend(CallsOf(before), CallsOf(jobs));
      TurnedAwayAppend(before, jobs);
      AdmittedSnoc(env, mode, targets, groups);
    }
  }

  lemma {:induction false} NoneToTurnAway()
    ensures NoneTurnedAway([])
  {
  }

  lemma {:induction false} AdmittedSnoc(env: ApplyEnv, mode: Mode, targets: seq<Object>, groups: seq<seq<Object>>)
    requires forall g :: 0 <= g < |groups| ==> groups[g] != []
    requires groups != []
    ensures var n := |groups| - 1;
            AllAdmitted(env, mode, targets, groups) <==>
            && AllAdmitted(env, mode, targets, groups[..n])
            && (Admitted(env, mode, groups[n], |groups|) || Excused(env, mode, targets, groups[n], |groups|))
  {
    hide Admitted, Excused;
    var n := |groups| - 1;
    forall g | 0 <= g < n ensures groups[..n][g] == groups[g] { }
  }

  /** A list of jobs succeeds exactly if no job without a call fails and every call succeeds. */
  lemma {:induction false} SucceedIff(mode: Mode, jobs: seq<Job>)
    requires AllFit(mode, jobs)
    ensures AllSucceed(jobs) <==> NoneTurnedAway(jobs) && forall k :: 0 <= k < |CallsOf(jobs)| ==> CallsOf(jobs)[k].ok
  {
    if jobs != [] {
      var n := |jobs| - 1;
      assert forall i :: 0 <= i < n ==> jobs[..n][i] == jobs[i];
      SucceedIff(mode, jobs[..n]);
      assert jobs == jobs[..n] + [jobs[n]];
      TurnedAwaySnoc(jobs[..n], jobs[n]);
      SucceedSnoc(jobs[..n], jobs[n]);
      CallsSnoc(jobs[..n], jobs[n]);
      OkSnoc(CallsOf(jobs[..n]), Made(jobs[n]));
    }
  }

  lemma {:induction false} SucceedSnoc(jobs: seq<Job>, job: Job)
    ensures AllSucceed(jobs + [job]) <==> AllSucceed(jobs) && job.status.Successful()
  {
    if AllSucceed(jobs + [job]) {
      SucceedParts(jobs, [job]);
      assert [job][0].status.Successful();
    }
  }

  lemma {:induction false} OkSnoc(a: seq<Call>, b: seq<Call>)
    ensures (forall k :: 0 <= k < |a + b| ==> (a + b)[k].ok) <==>
            (forall k :: 0 <= k < |a| ==> a[k].ok) && (forall k :: 0 <= k < |b| ==> b[k].ok)
  {
    if forall k :: 0 <= k < |a + b| ==> (a + b)[k].ok {
      forall k | 0 <= k < |a| ensures a[k].ok { assert a[k] == (a + b)[k]; }
      forall k | 0 <= k < |b| ensures b[k].ok { assert b[k] == (a + b)[|a| + k]; }
    }
  }

  lemma {:induction false} PrunesPass(env: ApplyEnv, mode: Mode, lives: seq<Object>)
    ensures var jobs := PruneJobs(env, mode, lives);
            Applies(CallsOf(jobs)) == [] && NoneTurnedAway(jobs)
  {
    hide Applies, CallsOf;
    NoJobs();
    if lives != [] {
      var n := |lives| - 1;
      PrunesPass(env, mode, lives[..n]);
      AppliesSnoc(PruneJobs(env, mode, lives[..n]), PruneJob(env, mode, lives[n], n));
      TurnedAwaySnoc(PruneJobs(env, mode, lives[..n]), PruneJob(env, mode, lives[n], n));
    }
  }

  /** An apply makes applies for exactly the objects of the groups that are served and permitted, in order and with the
      flags asked for. It succeeds if and only if every other group is excused and every call succeeds. */
  lemma {:induction false} DoApplyAdmits(env: ApplyEnv, mode: Mode, tasks: seq<Task>, resources: Resources)
    requires ValidTasks(tasks)
    ensures var r, targets := DoApply(env, mode, tasks, resources), Targets(tasks);
            && Applies(r.calls) == Admits(env, mode, Groups(targets))
            && (forall k :: 0 <= k < |r.calls| && r.calls[k].Applied? ==>
                  r.calls[k].dryRun == mode.dryRun && r.calls[k].force == mode.force)
            && (r.ok <==> AllAdmitted(env, mode, targets, Groups(targets)) &&
                          forall k :: 0 <= k < |r.calls| ==> r.calls[k].ok)
  {
    hide IsHook, PruneJobs, CreateJobs, Lives, Targets, Groups, Applies, CallsOf, NoHooks, NoneTurnedAway, AllAdmitted,
      AllFit, AllSucceed, Admits;
    var targets := Targets(tasks);
    var groups := Groups(targets);
    var prunes, creates := PruneJobs(env, mode, Lives(tasks)), CreateJobs(env, mode, targets, groups);
    TasksSplit(tasks);
    GroupsPartition(targets);
    forall g | 0 <= g < |groups| ensures NoHooks(groups[g]) { FlattenMember(groups, g); }
    PrunesPass(env, mode, Lives(tasks));
    CreatesPass(env, mode, targets, groups);
    CallsOfAppend(prunes, creates);
    AppliesAppend(CallsOf(prunes), CallsOf(creates));
    TurnedAwayAppend(prunes, creates);
    PlanFits(env, mode, tasks);
    SucceedIff(mode, prunes + creates);
    FlagsFit(mode, prunes + creates);
    PerformAllSum(mode, Outcome(true, resources, []), prunes + creates);
    assert DoApply(env, mode, tasks, resources).calls == CallsOf(prunes + creates);
  }

  lemma {:induction false} FlagsFit(mode: Mode, jobs: seq<Job>)
    requires AllFit(mode, jobs)
    ensures forall k :: 0 <= k < |CallsOf(jobs)| && CallsOf(jobs)[k].Applied? ==>
              CallsOf(jobs)[k].dryRun == mode.dryRun && CallsOf(jobs)[k].force == mode.force
  {
    if jobs != [] {
      var n := |jobs| - 1;
      assert forall i :: 0 <= i < n ==> jobs[..n][i] == jobs[i];
      FlagsFit(mode, jobs[..n]);
    }
  }

  /** Whatever the tasks are, no apply is of a hook. */
  lemma {:induction false} HooksAreNotApplied(env: ApplyEnv, mode: Mode, tasks: seq<Task>, resources: Resources,
                                              c: Call)
    requires c in DoApply(env, mode, tasks, resources).calls && c.Applied?
    ensures !IsHook(c.obj)
  {
    hide IsHook, PruneJobs, CreateJobs, CallsOf, PerformAll;
    var targets := Targets(tasks);
    var prunes, creates := PruneJobs(env, mode, Lives(tasks)), CreateJobs(env, mode, targets, Groups(targets));
    PerformAllSum(mode, Outcome(true, resources, []), prunes + creates);
    assert DoApply(env, mode, tasks, resources).calls == CallsOf(prunes + creates);
    CallsOfAppend(prunes, creates);
    PrunesPass(env, mode, Lives(tasks));
    if c in CallsOf(prunes) { AppliesHas(CallsOf(prunes), c); }
    CreatesNoHook(env, mode, targets, Groups(targets), c);
  }

  lemma {:induction false} GroupNoHook(env: ApplyEnv, mode: Mode, gate: Gate, group: seq<Object>, g: nat, c: Call)
    ensures c in CallsOf(GroupJobs(env, mode, gate, group, g)) && c.Applied? ==> !IsHook(c.obj)
  {
    hide IsHook, CallsOf;
    NoJobs();
    if group != [] {
      var n := |group| - 1;
      GroupNoHook(env, mode, gate, group[..n], g, c);
      var before, jobs := GroupJobs(env, mode, gate, group[..n], g), GroupJobs(env, mode, gate, group, g);
      if jobs != before {
        assert jobs == before + [jobs[|before|]];
        CallsSnoc(before, jobs[|before|]);
      }
    }
  }

  lemma {:induction false} CreatesNoHook(env: ApplyEnv, mode: Mode, targets: seq<Object>, groups: seq<seq<Object>>,
                                         c: Call)
    ensures c in CallsOf(CreateJobs(env, mode, targets, groups)) && c.Applied? ==> !IsHook(c.obj)
  {
    hide IsHook, CallsOf, GroupJobs, GroupGate;
    NoJobs();
    if groups != [] {
      var n := |groups| - 1;
      CreatesNoHook(env, mode, targets, groups[..n], c);
      if groups[n] != [] {
        var gate := GroupGate(env, mode, targets, groups[n][0], |groups|);
        GroupNoHook(env, mode, gate, groups[n], |groups|, c);
        CallsOfAppend(CreateJobs(env, mode, targets, groups[..n]), GroupJobs(env, mode, gate, groups[n], |groups|));
      }
    }
  }

  /** The object is in a group of the tasks' targets that is admitted. */
  ghost predicate InAdmitted(env: ApplyEnv, mode: Mode, tasks: seq<Task>, o: Object) {
    var groups := Groups(Targets(tasks));
    exists g :: 0 <= g < |groups| && o in groups[g] && Admitted(env, mode, groups[g], g + 1)
  }

  lemma {:induction false} AdmitsMember(env: ApplyEnv, mode: Mode, groups: seq<seq<Object>>, o: Object)
    requires o in Admits(env, mode, groups)
    ensures exists g :: 0 <= g < |groups| && o in groups[g] && Admitted(env, mode, groups[g], g + 1)
  {
    hide Admitted;
    var n := |groups| - 1;
    if o in Admits(env, mode, groups[..n]) {
      AdmitsMember(env, mode, groups[..n], o);
      var g :| 0 <= g < n && o in groups[..n][g] && Admitted(env, mode, groups[..n][g], g + 1);
      assert groups[..n][g] == groups[g];
    }
  }

  lemma {:induction false} AppliesHas(calls: seq<Call>, c: Call)
    requires c in calls && c.Applied?
    ensures c.obj in Applies(calls)
  {
    var n := |calls| - 1;
    if c != calls[n] { AppliesHas(calls[..n], c); }
  }

  lemma {:induction false} AppliedIsAdmitted(env: ApplyEnv, mode: Mode, tasks: seq<Task>, resources: Resources, c: Call)
    requires ValidTasks(tasks) && c in DoApply(env, mode, tasks, resources).calls && c.Applied?
    ensures InAdmitted(env, mode, tasks, c.obj) && c.force == mode.force && c.dryRun == mode.dryRun
  {
    hide DoApply, Applies, Admits, AllAdmitted, Groups, Targets;
    DoApplyAdmits(env, mode, tasks, resources);
    AppliesHas(DoApply(env, mode, tasks, resources).calls, c);
    AdmitsMember(env, mode, Groups(Targets(tasks)), c.obj);
  }

  // ---------------------------------------------------------------------------------------------
  // Steps and runs
  // ---------------------------------------------------------------------------------------------

  /** The tasks that a step of the operation applies itself. */
  function OwnTasks(op: Operation, env: StepEnv): seq<Task> {
    if op.SyncOperation? && op.strategy.ApplyStrategy? then env.tasks else NonHookTasks(env.tasks)
  }

  /** A real apply of the step is of an admitted group, and forced exactly if the operation asks for it. */
  ghost predicate CallAdmitted(ctx: Ctx, c: Call)
    requires ctx.op.SyncOperation?
  {
    c.Applied? && !c.dryRun ==>
      && InAdmitted(ctx.env.cluster, RealMode(ctx.op), OwnTasks(ctx.op, ctx.env), c.obj)
      && c.force == match ctx.op.strategy
                    case ApplyStrategy(force) => force
                    case HookStrategy(force) => force
                    case _ => false
  }

  /** The calls of a real apply after calls that are not. */
  lemma {:induction false} ApplyAdmits(ctx: Ctx, m: Machine, c: Call)
    requires ctx.op.SyncOperation? && ValidTasks(OwnTasks(ctx.op, ctx.env))
    requires c in RunApply(ctx, m, RealMode(ctx.op), OwnTasks(ctx.op, ctx.env)).m.calls && c !in m.calls
    ensures CallAdmitted(ctx, c)
  {
    hide DoApply, InAdmitted, ValidTasks, OwnTasks;
    var tasks := OwnTasks(ctx.op, ctx.env);
    if c.Applied? && !c.dryRun { AppliedIsAdmitted(ctx.env.cluster, RealMode(ctx.op), tasks, m.resources, c); }
  }

  lemma {:induction false} StepAdmits(ctx: Ctx, m: Machine, c: Call)
    requires HookSyncStep(ctx, m) && m.calls == [] && c in SyncOnce(ctx, m).calls
    ensures CallAdmitted(ctx, c)
  {
    hide PhaseDone, SyncPart, RunApply, IsHook, SyncOnce, BeforeSync, CallAdmitted, ValidTasks;
    BeforeSyncFacts(ctx, m);
    var o, n := BeforeSync(ctx, m), SyncOnce(ctx, m);
    if !c.RealApply() { UnrealAdmitted(ctx, c); }
    if o.None? {
      NoRealMember(m.calls, n.calls, c);
    } else {
      var b := o.value;
      if c in b.calls {
        NoRealMember(m.calls, b.calls, c);
      } else if StartedSync(b) {
        LaterSteps(ctx, b);
        NoRealMember(b.calls, n.calls, c);
      } else if c.RealApply() {
        FirstAdmits(ctx, b, c);
      }
    }
  }

  lemma {:induction false} UnrealAdmitted(ctx: Ctx, c: Call)
    requires ctx.op.SyncOperation? && !c.RealApply()
    ensures CallAdmitted(ctx, c)
  {
  }

  lemma {:induction false} NoRealMember(before: seq<Call>, after: seq<Call>, c: Call)
    requires NoRealAfter(before, after) && c in after && c !in before
    ensures !c.RealApply()
  {
    assert after == before + after[|before|..];
    var k :| |before| <= k < |after| && after[k] == c;
  }

  lemma {:induction false} FirstAdmits(ctx: Ctx, b: Machine, c: Call)
    requires ctx.op.SyncOperation? && ctx.op.strategy.UsesHooks() && !StartedSync(b) && ValidTasks(ctx.env.tasks)
    requires c in SyncPart(ctx, b).calls && c !in b.calls && c.RealApply()
    ensures CallAdmitted(ctx, c)
  {
    hide RunHooks, IsHook, RunApply, CallAdmitted, ValidTasks, Prunes, RealApplies;
    var a := RunApply(ctx, b, RealMode(ctx.op), NonHookTasks(ctx.env.tasks));
    NonHookValid(ctx.env.tasks);
    HooksAddNoApply(ctx, a.m, |a.m.calls|);
    if c !in a.m.calls { NoRealMember(a.m.calls, SyncPart(ctx, b).calls, c); }
    ApplyAdmits(ctx, b, c);
  }

  lemma {:induction false} ApplyStepAdmits(op: Operation, r: Reconcile, c: Call)
    requires ApplyOp(op) && WorldOk(op, r) && r.pre.phase.Running? && c in Result(op, r).calls
    ensures EnvAt(op, r).Ready? && CallAdmitted(CtxAt(op, r), c)
  {
    hide RunApply, ValidTasks, InAdmitted;
    if EnvAt(op, r).Ready? {
      var ctx, m := CtxAt(op, r), MachineOf(r.pre);
      var tasks := ctx.env.tasks;
      RunApplyFacts(ctx, m, DryMode(op), tasks);
      var d := RunApply(ctx, m, DryMode(op), tasks).m;
      if c in RunApply(ctx, m, RealMode(op), tasks).m.calls { ApplyAdmits(ctx, m, c); }
      if c in RunApply(ctx, d, RealMode(op), tasks).m.calls && c !in d.calls { ApplyAdmits(ctx, d, c); }
    }
  }

  /** Every real apply of a run, whatever its strategy, is of a group that its step found served and the project
      permits, and forced exactly if the operation says so. */
  lemma {:induction false} RealAppliesAdmitted(op: Operation, run: seq<Reconcile>, i: nat, c: Call)
    requires (HookOp(op) || ApplyOp(op)) && ValidRun(op, run) && i < |run|
    requires c in Result(op, run[i]).calls && c.Applied? && !c.dryRun
    ensures EnvAt(op, run[i]).Ready?
    ensures InAdmitted(EnvAt(op, run[i]).env.cluster, RealMode(op), OwnTasks(op, EnvAt(op, run[i]).env), c.obj)
    ensures c.force == match op.strategy
                       case ApplyStrategy(force) => force
                       case HookStrategy(force) => force
                       case _ => false
  {
    hide Step, SyncOnce, InAdmitted, ValidTasks, StepOk, OwnTasks;
    var r := run[i];
    RunGood(op, run, i);
    if r.pre.phase.Terminating? {
      TerminatingStep(op, r);
    } else if ApplyOp(op) {
      ApplyStepAdmits(op, r, c);
    } else if !HookStep(op, r) {
      OtherStep(op, r);
    } else {
      HookStepResult(op, r);
      StepAdmits(CtxAt(op, r), MachineOf(r.pre), c);
    }
  }

  // ---------------------------------------------------------------------------------------------
  // Hooks
  // ---------------------------------------------------------------------------------------------

  /** The kind of the i-th hook is served, and permitted as it is served. */
  predicate HookPermitted(ctx: Ctx, i: nat)
    requires i < |ctx.hooks|
  {
    match ctx.env.hookKinds(i)
    case Served(namespaced) => ctx.env.cluster.permitted(ctx.hooks[i].api.group, ctx.hooks[i].kind, namespaced)
    case _ => false
  }

  predicate HooksPermitted(ctx: Ctx) {
    forall i :: 0 <= i < |ctx.hooks| ==> HookPermitted(ctx, i)
  }

  /** The verdict on the hooks: the first that is not served is an error, the first that is not permitted a failure. */
  lemma {:induction false} VerdictOnHooks(ctx: Ctx, i: nat)
    requires i <= |ctx.hooks|
    ensures match VerifyHooks(ctx, i)
            case None => forall j :: i <= j < |ctx.hooks| ==> HookPermitted(ctx, j)
            case Some(phase) =>
              exists j :: i <= j < |ctx.hooks| && !HookPermitted(ctx, j)
                          && (forall k :: i <= k < j ==> HookPermitted(ctx, k))
                          && phase == if ctx.env.hookKinds(j).Served? then Failed else Error
    decreases |ctx.hooks| - i
  {
    if i < |ctx.hooks| && HookPermitted(ctx, i) {
      VerdictOnHooks(ctx, i + 1);
      if VerifyHooks(ctx, i).Some? {
        var j :| i + 1 <= j < |ctx.hooks| && !HookPermitted(ctx, j)
                 && (forall k :: i + 1 <= k < j ==> HookPermitted(ctx, k))
                 && VerifyHooks(ctx, i + 1).value == if ctx.env.hookKinds(j).Served? then Failed else Error;
        assert forall k :: i <= k < j ==> HookPermitted(ctx, k);
      }
    }
  }

  lemma {:induction false} ForbiddenStops(ctx: Ctx, m: Machine)
    requires HookSyncStep(ctx, m) && m.calls == [] && !StartedPreSync(m) && !HooksPermitted(ctx)
    ensures var n := SyncOnce(ctx, m);
            && (n.phase.Failed? || n.phase.Error?)
            && (forall k :: 0 <= k < |n.calls| ==> n.calls[k].Applied? && n.calls[k].dryRun)
  {
    hide RunApply, VerifyHooks, RunHooks, SyncPart, ValidTasks;
    VerdictOnHooks(ctx, 0);
    VerdictEnds(ctx, 0);
    RunApplyFacts(ctx, m, DryMode(ctx.op), ctx.env.tasks);
  }

  /** If the first step finds a hook that is not served or not permitted, it is the last one, the operation fails, and
      nothing but dry-run applies was called. */
  lemma {:induction false} ForbiddenHookStops(op: Operation, run: seq<Reconcile>)
    requires HookOp(op) && ValidRun(op, run) && |run| > 0 && HookStep(op, run[0]) && !HooksPermitted(CtxAt(op, run[0]))
    ensures |run| == 1 && (Result(op, run[0]).post.phase.Failed? || Result(op, run[0]).post.phase.Error?)
    ensures forall c :: c in Result(op, run[0]).calls ==> c.Applied? && c.dryRun
  {
    hide Step, SyncOnce, ValidTasks, StepOk, HooksPermitted, ArgoHooks;
    HookStepResult(op, run[0]);
    ForbiddenStops(CtxAt(op, run[0]), MachineOf(run[0].pre));
    assert |run| > 1 ==> Follows(Result(op, run[0]).post, run[1].pre);
  }

  /** In every run: whenever a hook is created, or anything is really applied or pruned, the first step had found every
      hook of its manifests served and permitted. */
  lemma {:induction false} HooksWerePermitted(op: Operation, run: seq<Reconcile>, i: nat, c: Call)
    requires HookOp(op) && ValidRun(op, run) && i < |run| && c in Result(op, run[i]).calls
    requires c.RealApply() || c.HookApplied?
    ensures HookStep(op, run[0]) && HooksPermitted(CtxAt(op, run[0]))
  {
    hide Step, SyncOnce, ValidTasks, HooksPermitted, ArgoHooks;
    if i > 0 {
      GoingOn(op, run, 1);
    } else {
      RunGood(op, run, 0);
      if !HookStep(op, run[0]) { OtherStep(op, run[0]); }
    }
    if !HooksPermitted(CtxAt(op, run[0])) { ForbiddenHookStops(op, run); }
  }
}
