/** When, and how often, a hook sync really applies the un-annotated resources. */
module SyncApply {
  import opened Kube
  import opened SyncState
  import opened ApplySync
  import opened HookSync
  import opened HookFacts
  import opened SyncStep

  /** The state in which a step enters the Sync part, if it gets that far. */
  function BeforeSync(ctx: Ctx, m: Machine): Option<Machine>
    requires ctx.op.SyncOperation?
  {
    if ctx.env.tasks == [] then None
    else
      var dry :=
        if StartedPreSync(m) then PhaseRun(m, true) else RunApply(ctx, m, DryMode(ctx.op), ctx.env.tasks);
      if !dry.go || (!StartedPreSync(m) && VerifyHooks(ctx, 0).Some?) then None
      else
        var p := RunHooks(ctx, dry.m, PreSync);
        if p.go then Some(p.m) else None
  }

  /** The step really applied the un-annotated tasks, and the apply reported success. */
  predicate AppliedIn(ctx: Ctx, m: Machine)
    requires ctx.op.SyncOperation?
  {
    var b := BeforeSync(ctx, m);
    && b.Some?
    && !StartedSync(b.value)
    && RunApply(ctx, b.value, RealMode(ctx.op), NonHookTasks(ctx.env.tasks)).go
  }

  ghost predicate HookSyncStep(ctx: Ctx, m: Machine) {
    && ctx.op.SyncOperation? && ctx.op.strategy.UsesHooks() && !ctx.op.dryRun
    && m.phase.Running? && ValidTasks(ctx.env.tasks) && ctx.env.tasks != []
  }

  /** No call after the first `before` ones really applies or prunes an object. */
  ghost predicate NoRealAfter(before: seq<Call>, after: seq<Call>) {
    && |before| <= |after| && after[..|before|] == before
    && forall k :: |before| <= k < |after| ==> !after[k].RealApply()
  }

  lemma {:induction false} RealAppliesSame(before: seq<Call>, after: seq<Call>)
    requires NoRealAfter(before, after)
    ensures RealApplies(after) == RealApplies(before) && Prunes(after) == Prunes(before)
  {
    if |after| > |before| {
      var n := |after| - 1;
      assert after[..n][..|before|] == after[..|before|];
      RealAppliesSame(before, after[..n]);
    } else {
      assert after == before;
    }
  }

  lemma {:induction false} BeforeSyncFacts(ctx: Ctx, m: Machine)
    requires HookSyncStep(ctx, m)
    ensures BeforeSync(ctx, m).Some? ==>
      var b := BeforeSync(ctx, m).value;
      && b.hooks == m.hooks && b.resources == m.resources && b.phase == m.phase
      && NoRealAfter(m.calls, b.calls) && SyncOnce(ctx, m) == SyncPart(ctx, b)
      && PhaseDone(ctx, m.hooks, PreSync)
    ensures BeforeSync(ctx, m).None? ==>
      var n := SyncOnce(ctx, m);
      NoRealAfter(m.calls, n.calls) && (n.phase.Completed() || StartedSync(n) == StartedSync(m))
  {
    hide PhaseDone, RunApply, RunHooks, SyncPart, IsHook, VerifyHooks;
    var dry :=
      if StartedPreSync(m) then PhaseRun(m, true) else RunApply(ctx, m, DryMode(ctx.op), ctx.env.tasks);
    if !StartedPreSync(m) { RunApplyFacts(ctx, m, DryMode(ctx.op), ctx.env.tasks); }
    VerdictEnds(ctx, 0);
    if dry.go && (StartedPreSync(m) || VerifyHooks(ctx, 0).None?) {
      PreSyncFacts(ctx, m, dry.m);
    }
  }

  lemma {:induction false} PreSyncFacts(ctx: Ctx, m: Machine, d: Machine)
    requires d.hooks == m.hooks && d.resources == m.resources && d.phase == m.phase && NoRealAfter(m.calls, d.calls)
    ensures NoRealAfter(m.calls, RunHooks(ctx, d, PreSync).m.calls)
    ensures StartedSync(RunHooks(ctx, d, PreSync).m) == StartedSync(m)
    ensures RunHooks(ctx, d, PreSync).go ==>
      var p := RunHooks(ctx, d, PreSync).m;
      p.hooks == m.hooks && p.resources == m.resources && p.phase == m.phase && PhaseDone(ctx, m.hooks, PreSync)
  {
    hide PhaseDone, RunHooks;
    RunHooksEvolves(ctx, d, PreSync);
    var n := RunHooks(ctx, d, PreSync).m;
    assert Frozen(PreSync, d.hooks, n.hooks);
    assert n.calls[..|m.calls|] == n.calls[..|d.calls|][..|m.calls|];
    forall k | |m.calls| <= k < |n.calls| ensures !n.calls[k].RealApply() {
      if k < |d.calls| { assert n.calls[k] == n.calls[..|d.calls|][k] == d.calls[k]; }
      else { assert HookCall(d.hooks, PreSync, n.calls[k]); }
    }
    if RunHooks(ctx, d, PreSync).go { RunHooksGo(ctx, d, PreSync); }
  }

  /** Once Sync has started, a step applies nothing. */
  lemma {:induction false} LaterSteps(ctx: Ctx, b: Machine)
    requires ctx.op.SyncOperation? && b.phase.Running? && StartedSync(b) && ValidTasks(ctx.env.tasks)
    requires PhaseDone(ctx, b.hooks, PreSync)
    ensures NoRealAfter(b.calls, SyncPart(ctx, b).calls)
  {
    hide PhaseDone, SyncPart;
    SyncPartOk(ctx, b);
    var n := SyncPart(ctx, b);
    forall k | |b.calls| <= k < |n.calls| ensures !n.calls[k].RealApply() {
      assert CallOk(ctx, b, n.calls[k]);
    }
  }

  /** Calls after a good apply: the hooks of the Sync phase add no real apply, so all of those have succeeded. */
  lemma {:induction false} HooksAddNoApply(ctx: Ctx, m: Machine, from: nat)
    requires from <= |m.calls| && forall k :: from <= k < |m.calls| && m.calls[k].RealApply() ==> m.calls[k].ok
    ensures var n := RunHooks(ctx, m, Sync).m;
            && NoRealAfter(m.calls, n.calls) && |m.resources| <= |n.resources|
            && RealApplies(n.calls) == RealApplies(m.calls) && Prunes(n.calls) == Prunes(m.calls)
            && forall k :: from <= k < |n.calls| && n.calls[k].RealApply() ==> n.calls[k].ok
  {
    hide RunHooks, RealApplies, Prunes;
    RunHooksEvolves(ctx, m, Sync);
    var n := RunHooks(ctx, m, Sync).m;
    forall k | |m.calls| <= k < |n.calls| ensures !n.calls[k].RealApply() {
      assert HookCall(m.hooks, Sync, n.calls[k]);
    }
    RealAppliesSame(m.calls, n.calls);
    forall k | from <= k < |n.calls| && n.calls[k].RealApply() ensures n.calls[k].ok {
      if k < |m.calls| { assert n.calls[k] == n.calls[..|m.calls|][k] == m.calls[k]; }
    }
  }

  lemma {:induction false} FirstApply(ctx: Ctx, b: Machine)
    requires ctx.op.SyncOperation? && b.phase.Running? && !StartedSync(b) && ValidTasks(ctx.env.tasks)
    requires RealApplies(b.calls) == []
    ensures var n, targets := SyncPart(ctx, b), Targets(NonHookTasks(ctx.env.tasks));
            && multiset(RealApplies(n.calls)) <= multiset(targets)
            && if RunApply(ctx, b, RealMode(ctx.op), NonHookTasks(ctx.env.tasks)).go
               then && RealApplies(n.calls) == targets && (NonHookTasks(ctx.env.tasks) != [] ==> n.resources != [])
                    && (forall k :: |b.calls| <= k < |n.calls| && n.calls[k].RealApply() ==> n.calls[k].ok)
               else n.phase.Failed?
  {
    hide RunHooks, IsHook, DoApply, Prunes, Lives, RealApplies, Targets, ValidTasks, NonHookTasks;
    var tasks, mode := NonHookTasks(ctx.env.tasks), RealMode(ctx.op);
    NonHookValid(ctx.env.tasks);
    DoApplyMeaning(ctx.env.cluster, mode, tasks, b.resources);
    var a := DoApply(ctx.env.cluster, mode, tasks, b.resources);
    RealAppliesAppend(b.calls, a.calls);
    assert RealApplies(b.calls + a.calls) == RealApplies(a.calls);
    if a.ok { HooksAddNoApply(ctx, RunApply(ctx, b, mode, tasks).m, |b.calls|); }
  }

  /** A step really applies nothing once Sync has started; a step that applies successfully applies exactly the
      un-annotated targets, once each, and marks Sync as started if it had any task; a failed call ends the
      operation; and Sync is only ever started by a step that applied. */
  lemma {:induction false} StepApplies(ctx: Ctx, m: Machine)
    requires HookSyncStep(ctx, m) && m.calls == []
    ensures var n, targets := SyncOnce(ctx, m), Targets(NonHookTasks(ctx.env.tasks));
            && multiset(RealApplies(n.calls)) <= multiset(targets)
            && (StartedSync(m) ==> RealApplies(n.calls) == [])
            && (AppliedIn(ctx, m) ==>
                  && !StartedSync(m) && RealApplies(n.calls) == targets
                  && (NonHookTasks(ctx.env.tasks) != [] ==> StartedSync(n)))
            && (forall k :: 0 <= k < |n.calls| && n.calls[k].RealApply() ==> n.calls[k].ok || n.phase.Completed())
            && (!AppliedIn(ctx, m) && !n.phase.Completed() ==>
                  RealApplies(n.calls) == [] && (StartedSync(n) ==> StartedSync(m)))
  {
    hide PhaseDone, SyncPart, RunApply, IsHook, SyncOnce, BeforeSync;
    BeforeSyncFacts(ctx, m);
    var o, n := BeforeSync(ctx, m), SyncOnce(ctx, m);
    if o.None? {
      RealAppliesSame(m.calls, n.calls);
    } else {
      RealAppliesSame(m.calls, o.value.calls);
      if StartedSync(m) {
        LaterSteps(ctx, o.value);
        RealAppliesSame(o.value.calls, n.calls);
      } else {
        FirstApply(ctx, o.value);
      }
      SyncPartOk(ctx, o.value);
      assert forall k :: 0 <= k < |o.value.calls| ==> n.calls[k] == n.calls[..|o.value.calls|][k];
    }
  }

  // ---------------------------------------------------------------------------------------------
  // Prunes
  // ---------------------------------------------------------------------------------------------

  /** Tasks without a target carry no annotation, so none of them is dropped. */
  lemma {:induction false} LivesKept(tasks: seq<Task>)
    ensures Lives(NonHookTasks(tasks)) == Lives(tasks)
  {
    hide Annotated;
    if tasks != [] {
      var n := |tasks| - 1;
      LivesKept(tasks[..n]);
      var before := NonHookTasks(tasks[..n]);
      assert (before + [tasks[n]])[..|before|] == before;
    }
  }

  /** The objects that a step which applies has to prune. */
  function ToPrune(ctx: Ctx): seq<Object>
    requires ctx.op.SyncOperation?
  {
    if ctx.op.prune then Lives(ctx.env.tasks) else []
  }

  lemma {:induction false} FirstPrunes(ctx: Ctx, b: Machine)
    requires ctx.op.SyncOperation? && b.phase.Running? && !StartedSync(b) && ValidTasks(ctx.env.tasks)
    requires Prunes(b.calls) == []
    ensures Prunes(SyncPart(ctx, b).calls) == ToPrune(ctx)
  {
    hide RunHooks, IsHook, DoApply, Prunes, Lives;
    var tasks, mode := NonHookTasks(ctx.env.tasks), RealMode(ctx.op);
    NonHookValid(ctx.env.tasks);
    LivesKept(ctx.env.tasks);
    DoApplyMeaning(ctx.env.cluster, mode, tasks, b.resources);
    var a := DoApply(ctx.env.cluster, mode, tasks, b.resources);
    PrunesAppend(b.calls, a.calls);
    if a.ok {
      var applied := RunApply(ctx, b, mode, tasks).m;
      HooksAddNoApply(ctx, applied, |applied.calls|);
    }
  }

  /** A step that applies successfully prunes each live object without a target exactly once, if pruning is on; no other
      step that leaves the operation going prunes anything. */
  lemma {:induction false} StepPrunes(ctx: Ctx, m: Machine)
    requires HookSyncStep(ctx, m) && m.calls == []
    ensures var n := SyncOnce(ctx, m);
            && (StartedSync(m) ==> Prunes(n.calls) == [])
            && (AppliedIn(ctx, m) ==> Prunes(n.calls) == ToPrune(ctx))
            && (!AppliedIn(ctx, m) && !n.phase.Completed() ==> Prunes(n.calls) == [])
            && (Prunes(n.calls) == [] || Prunes(n.calls) == ToPrune(ctx))
  {
    hide PhaseDone, SyncPart, RunApply, IsHook, SyncOnce, BeforeSync, ToPrune;
    BeforeSyncFacts(ctx, m);
    StepApplies(ctx, m);
    var o, n := BeforeSync(ctx, m), SyncOnce(ctx, m);
    if o.None? {
      RealAppliesSame(m.calls, n.calls);
    } else {
      RealAppliesSame(m.calls, o.value.calls);
      if StartedSync(m) {
        LaterSteps(ctx, o.value);
        RealAppliesSame(o.value.calls, n.calls);
      } else {
        FirstPrunes(ctx, o.value);
        FirstFails(ctx, o.value);
      }
    }
  }

  lemma {:induction false} FirstFails(ctx: Ctx, b: Machine)
    requires ctx.op.SyncOperation? && !StartedSync(b)
    ensures !RunApply(ctx, b, RealMode(ctx.op), NonHookTasks(ctx.env.tasks)).go ==> SyncPart(ctx, b).phase.Failed?
  {
    hide RunHooks, RunApply;
  }
}
