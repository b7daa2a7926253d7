/** What one step of a hook sync guarantees about its calls and about the statuses it leaves behind. */
module SyncStep {
  import opened Kube
  import opened Keyed
  import opened SyncState
  import opened ApplySync
  import opened HookSync
  import opened HookFacts

  /** The rule every call of a step obeys, judged by the statuses the step started from: nothing real before the
      PreSync hooks succeeded, no PostSync hook before the Sync hooks succeeded in an app that is healthy or has
      begun PostSync, and no call at all for a completed hook. */
  ghost predicate CallOk(ctx: Ctx, m: Machine, c: Call) {
    && (c.RealApply() ==> PhaseDone(ctx, m.hooks, PreSync) && !StartedSync(m))
    && (c.HookApplied? || c.HookDeleted? ==> !IsCompleted(m.hooks, c.hook))
    && (c.HookApplied? && c.hook.typ == Sync ==> PhaseDone(ctx, m.hooks, PreSync))
    && (c.HookApplied? && c.hook.typ == PostSync ==>
          && PhaseDone(ctx, m.hooks, PreSync)
          && PhaseDone(ctx, m.hooks, Sync)
          && StartedSync(m)
          && (StartedPostSync(m) || ctx.env.health.Healthy?))
  }

  ghost predicate CallsOk(ctx: Ctx, m: Machine, n: Machine) {
    && |m.calls| <= |n.calls|
    && n.calls[..|m.calls|] == m.calls
    && forall k :: |m.calls| <= k < |n.calls| ==> CallOk(ctx, m, n.calls[k])
  }

  ghost predicate AllDone(ctx: Ctx, hooks: HookStatuses) {
    PhaseDone(ctx, hooks, PreSync) && PhaseDone(ctx, hooks, Sync) && PhaseDone(ctx, hooks, PostSync)
  }

  ghost predicate StepOk(ctx: Ctx, m: Machine, n: Machine) {
    && CallsOk(ctx, m, n)
    && (forall k :: IsCompleted(m.hooks, k) ==> Lookup(n.hooks, k) == Lookup(m.hooks, k))
    && (GoodHooks(m.hooks) ==> GoodHooks(n.hooks))
    && (StartedSync(m) ==> StartedSync(n))
    && (StartedPostSync(n) ==>
          || StartedPostSync(m)
          || (&& StartedSync(m) && ctx.env.health.Healthy?
              && PhaseDone(ctx, m.hooks, PreSync) && PhaseDone(ctx, m.hooks, Sync)))
    && (n.phase.Succeeded? ==> AllDone(ctx, m.hooks) && StartedSync(m) && n.hooks == m.hooks && n.calls == m.calls)
  }

  lemma {:induction false} StaysStartedInStep(ctx: Ctx, m: Machine, n: Machine)
    requires StepOk(ctx, m, n)
    ensures StartedSync(m) ==> StartedSync(n)
  {
  }

  /** Running a phase is within the rule when the phase may start. */
  lemma {:induction false} RunHooksOk(ctx: Ctx, m: Machine, t: HookType)
    requires m.phase.Running?
    requires t == Sync ==> PhaseDone(ctx, m.hooks, PreSync)
    requires t == PostSync ==>
               && PhaseDone(ctx, m.hooks, PreSync) && PhaseDone(ctx, m.hooks, Sync) && StartedSync(m)
               && (StartedPostSync(m) || ctx.env.health.Healthy?)
    ensures StepOk(ctx, m, RunHooks(ctx, m, t).m)
    ensures var n := RunHooks(ctx, m, t).m; n.phase.Running? || n.phase.Failed? || n.phase.Error?
    ensures forall k :: |m.calls| <= k < |RunHooks(ctx, m, t).m.calls| ==>
                          !RunHooks(ctx, m, t).m.calls[k].RealApply() && !RunHooks(ctx, m, t).m.calls[k].Applied?
  {
    hide PhaseDone, HookPass;
    RunHooksEvolves(ctx, m, t);
    PassPhase(ctx, m, t, 0, false);
    var n := RunHooks(ctx, m, t).m;
    assert Frozen(t, m.hooks, n.hooks);
  }

  /** The rule only looks at the statuses and at whether Sync has started. */
  lemma {:induction false} StepOkFrom(ctx: Ctx, l: Machine, m: Machine, n: Machine)
    requires StepOk(ctx, m, n)
    requires l.hooks == m.hooks && l.calls == m.calls && StartedSync(l) == StartedSync(m)
    ensures StepOk(ctx, l, n)
  {
  }

  lemma {:induction false} PostSyncPartOk(ctx: Ctx, m: Machine)
    requires m.phase.Running? && StartedSync(m)
    requires PhaseDone(ctx, m.hooks, PreSync) && PhaseDone(ctx, m.hooks, Sync)
    ensures StepOk(ctx, m, PostSyncPart(ctx, m))
  {
    hide PhaseDone, RunHooks, IsHookType;
    var p := RunHooks(ctx, m, PostSync);
    if HasPostSync(ctx.hooks) && !StartedPostSync(m) && !ctx.env.health.Healthy? {
    } else if StartedPostSync(m) || ctx.env.health.Healthy? {
      RunHooksOk(ctx, m, PostSync);
      if p.go { RunHooksGo(ctx, m, PostSync); }
    } else {
      assert !HasPostSync(ctx.hooks);
      NoPostSyncHooks(ctx, m);
    }
  }

  lemma {:induction false} NothingRuns(ctx: Ctx, m: Machine, t: HookType, i: nat)
    requires i <= |ctx.hooks|
    requires forall j :: i <= j < |ctx.hooks| ==> !IsHookType(ctx.hooks[j], t) && !Skips(ctx.hooks[j], t)
    ensures HookPass(ctx, m, t, i, false) == Pass(m, false, false)
    decreases |ctx.hooks| - i
  {
    hide IsHookType, RunHook;
    if i < |ctx.hooks| { NothingRuns(ctx, m, t, i + 1); }
  }

  lemma {:induction false} NoPostSyncHooks(ctx: Ctx, m: Machine)
    requires !HasPostSync(ctx.hooks) && m.phase.Running? && !StartedPostSync(m)
    ensures RunHooks(ctx, m, PostSync) == PhaseRun(m, true)
    ensures PhaseDone(ctx, m.hooks, PostSync)
  {
    hide IsHookType, HookPass;
    NothingRuns(ctx, m, PostSync, 0);
  }

  lemma {:induction false} NonHookValid(tasks: seq<Task>)
    requires ValidTasks(tasks)
    ensures ValidTasks(NonHookTasks(tasks))
  {
    hide IsHook, IsNonHookTask;
    if tasks != [] {
      NonHookValid(tasks[..|tasks| - 1]);
    }
  }

  /** An apply leaves the hooks alone and makes only apply and prune calls, real ones only in a real mode. */
  lemma {:induction false} RunApplyFacts(ctx: Ctx, m: Machine, mode: Mode, tasks: seq<Task>)
    requires ValidTasks(tasks)
    ensures var n := RunApply(ctx, m, mode, tasks).m;
            && n.hooks == m.hooks && n.phase == m.phase
            && |m.resources| <= |n.resources|
            && |m.calls| <= |n.calls| && n.calls[..|m.calls|] == m.calls
            && (forall k :: |m.calls| <= k < |n.calls| ==>
                  (n.calls[k].Applied? && n.calls[k].dryRun == mode.dryRun) || (n.calls[k].Pruned? && !mode.dryRun))
            && (RunApply(ctx, m, mode, tasks).go && !mode.update ==> n.resources == m.resources)
            && (!mode.dryRun && mode.update && tasks != [] ==> n.resources != [])
  {
    hide DoApply;
    DoApplyMeaning(ctx.env.cluster, mode, tasks, m.resources);
  }

  /** The rest of a step after an apply that kept the hooks. */
  lemma {:induction false} StepOkAfter(ctx: Ctx, l: Machine, m: Machine, n: Machine)
    requires StepOk(ctx, m, n) && m.hooks == l.hooks && |l.resources| <= |m.resources|
    requires CallsOk(ctx, l, m) && !n.phase.Succeeded?
    requires forall k :: |m.calls| <= k < |n.calls| ==>
                           !n.calls[k].RealApply() && !(n.calls[k].HookApplied? && n.calls[k].hook.typ == PostSync)
    requires StartedPostSync(n) ==> StartedPostSync(l)
    ensures StepOk(ctx, l, n)
  {
  }

  lemma {:induction false} SyncPartOk(ctx: Ctx, m: Machine)
    requires ctx.op.SyncOperation? && m.phase.Running? && ValidTasks(ctx.env.tasks)
    requires PhaseDone(ctx, m.hooks, PreSync)
    ensures StepOk(ctx, m, SyncPart(ctx, m))
  {
    hide PhaseDone, RunHooks, PostSyncPart, RunApply, IsHook;
    if StartedSync(m) {
      var s := RunHooks(ctx, m, Sync);
      RunHooksOk(ctx, m, Sync);
      if s.go {
        RunHooksGo(ctx, m, Sync);
        PostSyncPartOk(ctx, s.m);
        StepOkFrom(ctx, m, s.m, PostSyncPart(ctx, s.m));
      }
    } else {
      NonHookValid(ctx.env.tasks);
      RunApplyFacts(ctx, m, RealMode(ctx.op), NonHookTasks(ctx.env.tasks));
      var a := RunApply(ctx, m, RealMode(ctx.op), NonHookTasks(ctx.env.tasks));
      assert CallsOk(ctx, m, a.m);
      if a.go {
        RunHooksOk(ctx, a.m, Sync);
        RunHooksEvolves(ctx, a.m, Sync);
        var n := RunHooks(ctx, a.m, Sync).m;
        assert forall k :: |a.m.calls| <= k < |n.calls| ==> HookCall(a.m.hooks, Sync, n.calls[k]);
        StepOkAfter(ctx, m, a.m, n);
      }
    }
  }

  lemma {:induction false} DoHookSyncOk(ctx: Ctx, m: Machine)
    requires ctx.op.SyncOperation? && m.phase.Running? && ValidTasks(ctx.env.tasks)
    ensures StepOk(ctx, m, DoHookSync(ctx, m))
  {
    hide PhaseDone, RunHooks, SyncPart, IsHook, VerifyHooks;
    VerdictEnds(ctx, 0);
    var p := RunHooks(ctx, m, PreSync);
    RunHooksOk(ctx, m, PreSync);
    if p.go {
      RunHooksGo(ctx, m, PreSync);
      SyncPartOk(ctx, p.m);
      StepOkFrom(ctx, m, p.m, SyncPart(ctx, p.m));
    }
  }

  lemma {:induction false} VerdictEnds(ctx: Ctx, i: nat)
    requires i <= |ctx.hooks|
    ensures VerifyHooks(ctx, i).Some? ==> VerifyHooks(ctx, i).value.Failed? || VerifyHooks(ctx, i).value.Error?
    decreases |ctx.hooks| - i
  {
    if i < |ctx.hooks| { VerdictEnds(ctx, i + 1); }
  }

  /** A whole step of a hook sync that is not a dry run obeys the rule. */
  lemma {:induction false} SyncOnceOk(ctx: Ctx, m: Machine)
    requires ctx.op.SyncOperation? && ctx.op.strategy.UsesHooks() && !ctx.op.dryRun
    requires m.phase.Running? && ValidTasks(ctx.env.tasks) && ctx.env.tasks != []
    ensures StepOk(ctx, m, SyncOnce(ctx, m))
  {
    hide PhaseDone, DoHookSync, RunApply, IsHook;
    if StartedPreSync(m) {
      DoHookSyncOk(ctx, m);
    } else {
      var dry := RunApply(ctx, m, DryMode(ctx.op), ctx.env.tasks);
      RunApplyFacts(ctx, m, DryMode(ctx.op), ctx.env.tasks);
      if dry.go {
        DoHookSyncOk(ctx, dry.m);
        DrySteps(ctx, m, dry.m, DoHookSync(ctx, dry.m));
      }
    }
  }

  /** A successful dry run before the step only adds dry-run calls. */
  lemma {:induction false} DrySteps(ctx: Ctx, m: Machine, d: Machine, n: Machine)
    requires StepOk(ctx, d, n) && d.hooks == m.hooks && d.resources == m.resources && !StartedPreSync(m)
    requires |m.calls| <= |d.calls| && d.calls[..|m.calls|] == m.calls
    requires forall k :: |m.calls| <= k < |d.calls| ==> d.calls[k].Applied? && d.calls[k].dryRun
    ensures StepOk(ctx, m, n)
  {
    hide PhaseDone;
    assert n.calls[..|m.calls|] == n.calls[..|d.calls|][..|m.calls|];
    forall k | |m.calls| <= k < |n.calls| ensures CallOk(ctx, m, n.calls[k]) {
      if k < |d.calls| {
        assert n.calls[k] == n.calls[..|d.calls|][k] == d.calls[k];
      } else {
        assert CallOk(ctx, d, n.calls[k]);
      }
    }
  }
}
