/** How operations end that do not get as far as a sync, or only as far as its validation. */
module Outcomes {
  import opened Kube
  import opened Keyed
  import opened SyncState
  import opened ApplySync
  import opened HookSync
  import opened HookFacts
  import opened SyncStep
  import opened SyncRun
  import opened Admission
  import opened ApplyDetails

  /** A step that cannot compare, or finds the application in an error condition or not ready, ends the operation in
      Error and does nothing; and there is nothing to do for an operation that is none. */
  lemma {:induction false} CannotSync(op: Operation, r: Reconcile)
    requires op.SyncOperation? ==> !EnvAt(op, r).Ready?
    ensures var res := Result(op, r);
            && res.calls == [] && res.history.None?
            && res.post.hooks == r.pre.hooks && res.post.resources == r.pre.resources
            && res.post.phase == if op.SyncOperation? then Error else Failed
  {
  }

  /** There is nothing to sync: the operation has succeeded, if that could be recorded where it has to be. */
  lemma {:induction false} NothingToSync(op: Operation, r: Reconcile)
    requires op.SyncOperation? && r.pre.phase.Running? && EnvAt(op, r).Ready? && EnvAt(op, r).env.tasks == []
    ensures var res := Result(op, r);
            && res.calls == [] && res.post.hooks == r.pre.hooks && res.post.resources == r.pre.resources
            && res.post.phase == if op.dryRun || op.partial || EnvAt(op, r).env.recorded then Succeeded else Error
  {
  }

  /** The first step has something to sync, with the given validation. */
  predicate Validates(op: Operation, r: Reconcile) {
    op.SyncOperation? && r.pre == FRESH && EnvAt(op, r).Ready? && EnvAt(op, r).env.tasks != []
  }

  /** The dry run that comes first succeeds: it turns no group away and no call of it fails. */
  predicate Passes(op: Operation, r: Reconcile)
    requires Validates(op, r)
  {
    DoApply(EnvAt(op, r).env.cluster, Mode(true, false, op.dryRun, op.prune), EnvAt(op, r).env.tasks, []).ok
  }

  /** Whatever the strategy: if the dry run that comes first turns a group away or a call of it fails, the operation has
      failed, nothing but that dry run was called, and none of its calls was forced. */
  lemma {:induction false} ValidationFails(op: Operation, r: Reconcile)
    requires Validates(op, r) && WorldOk(op, r) && !Passes(op, r)
    ensures Result(op, r).post.phase.Failed?
    ensures forall c :: c in Result(op, r).calls ==> c.Applied? && c.dryRun && !c.force
  {
    hide DoApply, ByStrategy, AllAdmitted, ValidTasks, Applies, Admits, ArgoHooks;
    var ctx, m := CtxAt(op, r), MachineOf(r.pre);
    DoApplyAdmits(ctx.env.cluster, DryMode(op), ctx.env.tasks, m.resources);
    DoApplyMeaning(ctx.env.cluster, DryMode(op), ctx.env.tasks, m.resources);
  }

  /** Whatever the strategy: a step that begins with a dry run makes its dry-run calls without force. */
  lemma {:induction false} DryCallsUnforced(op: Operation, r: Reconcile, c: Call)
    requires Validates(op, r) && WorldOk(op, r) && c in Result(op, r).calls && c.Applied? && c.dryRun
    ensures !c.force
  {
    hide DoApply, DoHookSync, AllAdmitted, ValidTasks, Applies, Admits, ArgoHooks;
    var ctx, m := CtxAt(op, r), MachineOf(r.pre);
    var tasks, d := ctx.env.tasks, RunApply(CtxAt(op, r), MachineOf(r.pre), DryMode(op), ctx.env.tasks).m;
    DoApplyAdmits(ctx.env.cluster, DryMode(op), tasks, m.resources);
    DoApplyMeaning(ctx.env.cluster, RealMode(op), tasks, d.resources);
    HookSyncAddsNoDryRun(ctx, d, c);
  }

  /** Nothing after the dry run of a hook sync is a dry run. */
  lemma {:induction false} HookSyncAddsNoDryRun(ctx: Ctx, m: Machine, c: Call)
    requires ctx.op.SyncOperation? && m.phase.Running? && ValidTasks(ctx.env.tasks)
    ensures c in DoHookSync(ctx, m).calls && c !in m.calls ==> !(c.Applied? && c.dryRun)
  {
    hide RunHooks, RunApply, VerifyHooks, ValidTasks;
    var p := RunHooks(ctx, m, PreSync).m;
    HooksAddHookCalls(ctx, m, PreSync, c);
    HooksAddHookCalls(ctx, p, Sync, c);
    HooksAddHookCalls(ctx, RunHooks(ctx, p, Sync).m, PostSync, c);
    NonHookValid(ctx.env.tasks);
    var tasks := NonHookTasks(ctx.env.tasks);
    RunApplyFacts(ctx, p, RealMode(ctx.op), tasks);
    var a := RunApply(ctx, p, RealMode(ctx.op), tasks).m;
    assert a.calls == p.calls + a.calls[|p.calls|..];
    HooksAddHookCalls(ctx, a, Sync, c);
  }

  lemma {:induction false} HooksAddHookCalls(ctx: Ctx, m: Machine, t: HookType, c: Call)
    ensures c in RunHooks(ctx, m, t).m.calls && c !in m.calls ==> !c.Applied?
  {
    hide RunHooks;
    RunHooksEvolves(ctx, m, t);
    var n := RunHooks(ctx, m, t).m;
    assert n.calls == m.calls + n.calls[|m.calls|..];
  }

  /** An operation with a strategy that is not known fails, and has really done nothing. */
  lemma {:induction false} UnknownStrategyFails(op: Operation, r: Reconcile)
    requires op.SyncOperation? && op.strategy.UnknownStrategy? && !op.dryRun && r.pre.phase.Running?
    requires EnvAt(op, r).Ready? && EnvAt(op, r).env.tasks != [] && WorldOk(op, r)
    ensures Result(op, r).post.phase.Failed?
    ensures forall c :: c in Result(op, r).calls ==> c.Applied? && c.dryRun
  {
    hide RunApply, ValidTasks, ArgoHooks;
    RunApplyFacts(CtxAt(op, r), MachineOf(r.pre), DryMode(op), EnvAt(op, r).env.tasks);
  }

  /** A dry-run operation has succeeded exactly if its validation passes, and then has recorded every target that was
      let through as Synced; it makes no real call. */
  lemma {:induction false} DryRunOutcome(op: Operation, r: Reconcile, k: ResourceKey)
    requires Validates(op, r) && op.dryRun && WorldOk(op, r)
    ensures var res, env := Result(op, r), EnvAt(op, r).env;
            && res.post.phase == (if Passes(op, r) then Succeeded else Failed)
            && (forall c :: c in res.calls ==> c.Applied? && c.dryRun && !c.force)
            && (Passes(op, r) && HasKey(Admits(env.cluster, DryMode(op), Groups(Targets(env.tasks))), k) ==>
                  Lookup(res.post.resources, k) == Some(Synced))
  {
    hide DoApply, ByStrategy, AllAdmitted, ValidTasks, Applies, Admits, ArgoHooks, HasKey;
    var ctx, m := CtxAt(op, r), MachineOf(r.pre);
    DoApplyAdmits(ctx.env.cluster, DryMode(op), ctx.env.tasks, m.resources);
    DoApplyMeaning(ctx.env.cluster, DryMode(op), ctx.env.tasks, m.resources);
    var dry := DoApply(ctx.env.cluster, DryMode(op), ctx.env.tasks, m.resources);
    if dry.ok { SuccessIsRecorded(ctx.env.cluster, DryMode(op), ctx.env.tasks, m.resources, k); }
  }
}
