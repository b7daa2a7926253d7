/** Whole runs of a sync operation: what holds however many steps it takes, whatever the cluster answers, and
    whenever a user asks to terminate it. */
module SyncRun {
  import opened Kube
  import opened Keyed
  import opened SyncState
  import opened ApplySync
  import opened HookSync
  import opened HookFacts
  import opened SyncStep
  import opened SyncApply

  /** A step: the persisted state it resumed from and the world it ran in. */
  datatype Reconcile = Reconcile(pre: OpState, world: World)

  function Result(op: Operation, r: Reconcile): StepResult {
    Step(op, r.pre, r.world)
  }

  function EnvAt(op: Operation, r: Reconcile): Env
    requires op.SyncOperation?
  {
    r.world(EffectiveRevision(op, r.pre))
  }

  /** The comparison never hands a hook or an empty task to the sync. */
  ghost predicate WorldOk(op: Operation, r: Reconcile) {
    op.SyncOperation? && EnvAt(op, r).Ready? ==> ValidTasks(EnvAt(op, r).env.tasks)
  }

  /** Between steps the state is only persisted, or a terminate request arrives. */
  predicate Follows(post: OpState, next: OpState) {
    && !post.phase.Completed()
    && (next == post || (post.phase.Running? && next == post.(phase := Terminating)))
  }

  ghost predicate ValidRun(op: Operation, run: seq<Reconcile>) {
    && (forall i :: 0 <= i < |run| ==>
          (run[i].pre.phase.Running? || run[i].pre.phase.Terminating?) && WorldOk(op, run[i]))
    && (|run| > 0 ==> run[0].pre == FRESH)
    && (forall i :: 0 < i < |run| ==> Follows(Result(op, run[i - 1]).post, run[i].pre))
  }

  function CtxAt(op: Operation, r: Reconcile): Ctx
    requires op.SyncOperation? && EnvAt(op, r).Ready?
  {
    Ctx(op, EnvAt(op, r).env, ArgoHooks(EnvAt(op, r).env.manifests))
  }

  /** The step runs the sync of a hook-strategy operation on at least one task. */
  predicate HookStep(op: Operation, r: Reconcile) {
    && op.SyncOperation? && op.strategy.UsesHooks() && !op.dryRun
    && r.pre.phase.Running? && EnvAt(op, r).Ready? && EnvAt(op, r).env.tasks != []
  }

  /** The step really applied the un-annotated tasks, with success. */
  predicate AppliesAt(op: Operation, r: Reconcile) {
    HookStep(op, r) && AppliedIn(CtxAt(op, r), MachineOf(r.pre))
  }

  /** The step is the first of its PostSync phase: no PostSync hook was recorded before it, and it creates or records
      one. */
  predicate EntersPostSync(op: Operation, r: Reconcile) {
    && !StartedPostSync(MachineOf(r.pre))
    && (|| StartedPostSync(MachineOf(Result(op, r).post))
        || exists c :: c in Result(op, r).calls && c.HookApplied? && c.hook.typ == PostSync)
  }

  /** The step may enter PostSync: it syncs, Sync had started before it, the PreSync and Sync hooks had succeeded, and
      it found the application healthy. */
  predicate MayEnterPostSync(op: Operation, r: Reconcile) {
    && HookStep(op, r) && StartedSync(MachineOf(r.pre)) && EnvAt(op, r).env.health.Healthy?
    && PhaseDone(CtxAt(op, r), r.pre.hooks, PreSync) && PhaseDone(CtxAt(op, r), r.pre.hooks, Sync)
  }

  lemma {:induction false} HookStepResult(op: Operation, r: Reconcile)
    requires HookStep(op, r) && WorldOk(op, r)
    ensures var n, res := SyncOnce(CtxAt(op, r), MachineOf(r.pre)), Result(op, r);
            && res.calls == n.calls && res.post.hooks == n.hooks && res.post.resources == n.resources
            && (res.post.phase == n.phase || (n.phase.Succeeded? && res.post.phase.Error?))
            && StepOk(CtxAt(op, r), MachineOf(r.pre), n)
  {
    hide SyncOnce, IsHook;
    SyncOnceOk(CtxAt(op, r), MachineOf(r.pre));
  }

  /** The operation is hook based and not a dry run. */
  predicate HookOp(op: Operation) {
    op.SyncOperation? && op.strategy.UsesHooks() && !op.dryRun
  }

  /** A step of a hook operation that is neither a hook step nor a termination ends it and changes no status. */
  lemma {:induction false} OtherStep(op: Operation, r: Reconcile)
    requires HookOp(op) && r.pre.phase.Running? && !HookStep(op, r)
    ensures var res := Result(op, r);
            && res.post.phase.Completed() && res.calls == []
            && res.post.hooks == r.pre.hooks && res.post.resources == r.pre.resources
  {
  }

  // ---------------------------------------------------------------------------------------------
  // Termination
  // ---------------------------------------------------------------------------------------------

  lemma {:induction false} StopHooksPointwise(m: Machine, deleted: HookKey -> bool, i: nat, ok: bool)
    requires i <= |m.hooks| && Distinct(m.hooks)
    ensures var s := StopHooks(m, deleted, i, ok);
            && |s.m.hooks| == |m.hooks| && s.m.resources == m.resources
            && (forall j :: 0 <= j < |m.hooks| ==>
                  s.m.hooks[j] == if i <= j && ToStop(m.hooks[j])
                                  then Entry(m.hooks[j].key, HookInfo(m.hooks[j].value.api, Failed)) else m.hooks[j])
            && (s.ok <==> ok && forall j :: i <= j < |m.hooks| && ToStop(m.hooks[j]) ==> deleted(m.hooks[j].key))
    decreases |m.hooks| - i
  {
    hide IsCompleted, Put, IsRunnable;
    if i < |m.hooks| {
      var e := m.hooks[i];
      if !ToStop(e) {
        StopHooksPointwise(m, deleted, i + 1, ok);
      } else {
        var n := StopOne(m, deleted, i);
        StopHooksPointwise(n, deleted, i + 1, ok && deleted(e.key));
      }
    }
  }

  /** With distinct keys the keyed update hits the entry that was failed in place. */
  lemma {:induction false} StopOne(m: Machine, deleted: HookKey -> bool, i: nat) returns (n: Machine)
    requires i < |m.hooks| && Distinct(m.hooks) && ToStop(m.hooks[i])
    ensures var e := m.hooks[i];
            var failed := Entry(e.key, HookInfo(e.value.api, Failed));
            && n == m.(hooks := Put(m.hooks[i := failed], e.key, failed.value),
                       calls := m.calls + [HookDeleted(e.key, deleted(e.key))])
            && n.hooks == m.hooks[i := failed] && Distinct(n.hooks)
            && !IsCompleted(m.hooks, e.key) && (forall q :: IsCompleted(m.hooks, q) ==> IsCompleted(n.hooks, q))
  {
    hide Put, IsCompleted;
    var e := m.hooks[i];
    var failed := Entry(e.key, HookInfo(e.value.api, Failed));
    var inPlace := m.hooks[i := failed];
    n := m.(hooks := Put(inPlace, e.key, failed.value), calls := m.calls + [HookDeleted(e.key, deleted(e.key))]);
    PutSame(inPlace, i);
    FailingKeeps(m.hooks, i, failed.value);
  }

  /** Failing an unfinished hook leaves the completed ones completed. */
  lemma {:induction false} FailingKeeps(hooks: HookStatuses, i: nat, v: HookInfo)
    requires i < |hooks| && Distinct(hooks) && !hooks[i].value.status.Completed()
    ensures !IsCompleted(hooks, hooks[i].key)
    ensures forall q :: IsCompleted(hooks, q) ==> IsCompleted(hooks[i := Entry(hooks[i].key, v)], q)
  {
    EntryIsLookup(hooks, i);
    var after := hooks[i := Entry(hooks[i].key, v)];
    forall q | IsCompleted(hooks, q) ensures IsCompleted(after, q) {
      LookupIsEntry(hooks, q);
      var j :| 0 <= j < |hooks| && hooks[j] == Entry(q, Lookup(hooks, q).value);
      assert after[j] == hooks[j];
      EntryIsLookup(after, j);
    }
  }

  lemma {:induction false} PrefixSnoc(s: seq<Call>, a: seq<Call>, c: Call)
    requires |a| < |s| && s[..|a| + 1] == a + [c]
    ensures s[|a|] == c && s[..|a|] == a
  {
  }

  lemma {:induction false} StopHooksCalls(m: Machine, deleted: HookKey -> bool, i: nat, ok: bool)
    requires i <= |m.hooks| && Distinct(m.hooks)
    ensures var s := StopHooks(m, deleted, i, ok);
            && |m.calls| <= |s.m.calls| && s.m.calls[..|m.calls|] == m.calls
            && (forall k :: |m.calls| <= k < |s.m.calls| ==>
                  s.m.calls[k].HookDeleted? && !IsCompleted(m.hooks, s.m.calls[k].hook))
            && (forall j :: i <= j < |m.hooks| && ToStop(m.hooks[j]) ==>
                  HookDeleted(m.hooks[j].key, deleted(m.hooks[j].key)) in s.m.calls)
    decreases |m.hooks| - i
  {
    hide IsCompleted, Put, IsRunnable;
    if i < |m.hooks| {
      var e := m.hooks[i];
      if !ToStop(e) {
        StopHooksCalls(m, deleted, i + 1, ok);
      } else {
        var n := StopOne(m, deleted, i);
        StopHooksCalls(n, deleted, i + 1, ok && deleted(e.key));
        var s := StopHooks(n, deleted, i + 1, ok && deleted(e.key));
        assert forall j :: i < j < |m.hooks| ==> n.hooks[j] == m.hooks[j];
        PrefixSnoc(s.m.calls, m.calls, HookDeleted(e.key, deleted(e.key)));
      }
    }
  }

  lemma {:induction false} TerminatingResult(op: Operation, r: Reconcile)
    requires r.pre.phase.Terminating?
    ensures var res := Result(op, r);
            if op.SyncOperation? && EnvAt(op, r).Ready? then
              var stop := StopHooks(MachineOf(r.pre), EnvAt(op, r).env.deleted, 0, true);
              && res.post.phase == (if stop.ok then Failed else Error) && res.history.None?
              && res.post.hooks == stop.m.hooks && res.post.resources == stop.m.resources && res.calls == stop.m.calls
            else
              && (res.post.phase.Failed? || res.post.phase.Error?) && res.history.None?
              && res.post.hooks == r.pre.hooks && res.post.resources == r.pre.resources && res.calls == []
  {
  }

  /** Any step taken in phase Terminating ends the operation in Failed or Error and records nothing; it makes no
      call but the deletion of each unfinished hook, and it is Failed exactly if all of those succeed. Unless it
      could not compare, it leaves every hook completed: the unfinished ones Failed, the others as they were. */
  lemma {:induction false} TerminatingStep(op: Operation, r: Reconcile)
    requires r.pre.phase.Terminating? && GoodHooks(r.pre.hooks)
    ensures var res := Result(op, r);
            && (res.post.phase.Failed? || res.post.phase.Error?) && res.history.None?
            && res.post.resources == r.pre.resources && |res.post.hooks| == |r.pre.hooks|
            && GoodHooks(res.post.hooks)
            && (forall k :: 0 <= k < |res.calls| ==>
                  res.calls[k].HookDeleted? && !IsCompleted(r.pre.hooks, res.calls[k].hook))
    ensures op.SyncOperation? && EnvAt(op, r).Ready? ==>
      var res, deleted := Result(op, r), EnvAt(op, r).env.deleted;
      && (forall j :: 0 <= j < |r.pre.hooks| ==>
            var e := r.pre.hooks[j];
            if e.value.status.Completed() then res.post.hooks[j] == e
            else
              && res.post.hooks[j] == Entry(e.key, HookInfo(e.value.api, Failed))
              && HookDeleted(e.key, deleted(e.key)) in res.calls)
      && (res.post.phase.Failed? <==>
            forall j :: 0 <= j < |r.pre.hooks| && !r.pre.hooks[j].value.status.Completed() ==>
              deleted(r.pre.hooks[j].key))
    ensures !(op.SyncOperation? && EnvAt(op, r).Ready?) ==>
      Result(op, r).post.hooks == r.pre.hooks && Result(op, r).calls == []
  {
    hide Step, StopHooks, IsCompleted, IsRunnable, Lookup;
    TerminatingResult(op, r);
    if op.SyncOperation? && EnvAt(op, r).Ready? {
      var m, deleted := MachineOf(r.pre), EnvAt(op, r).env.deleted;
      StopHooksPointwise(m, deleted, 0, true);
      StopHooksCalls(m, deleted, 0, true);
    }
  }

  // ---------------------------------------------------------------------------------------------
  // Settled hooks
  // ---------------------------------------------------------------------------------------------

  ghost predicate NoHookCalls(calls: seq<Call>) {
    forall k :: 0 <= k < |calls| ==> !calls[k].HookApplied? && !calls[k].HookDeleted?
  }

  /** Apply-strategy and dry-run steps have nothing to do with hooks. */
  lemma {:induction false} PlainStep(op: Operation, r: Reconcile)
    requires WorldOk(op, r) && r.pre.phase.Running? && !HookStep(op, r)
    requires op.SyncOperation? && op.dryRun ==> !StartedPreSync(MachineOf(r.pre))
    ensures Result(op, r).post.hooks == r.pre.hooks && NoHookCalls(Result(op, r).calls)
    ensures op.SyncOperation? && op.dryRun ==> Result(op, r).post.phase.Completed()
  {
    hide IsHook, RunApply, DoHookSync;
    if op.SyncOperation? && EnvAt(op, r).Ready? {
      var ctx, m := CtxAt(op, r), MachineOf(r.pre);
      var tasks := ctx.env.tasks;
      RunApplyFacts(ctx, m, DryMode(op), tasks);
      var dry := RunApply(ctx, m, DryMode(op), tasks).m;
      RunApplyFacts(ctx, m, RealMode(op), tasks);
      RunApplyFacts(ctx, dry, RealMode(op), tasks);
      assert NoHookCalls(RunApply(ctx, m, RealMode(op), tasks).m.calls);
      var both := RunApply(ctx, dry, RealMode(op), tasks).m;
      forall k | 0 <= k < |both.calls| ensures !both.calls[k].HookApplied? && !both.calls[k].HookDeleted? {
        if k < |dry.calls| { assert both.calls[k] == both.calls[..|dry.calls|][k] == dry.calls[k]; }
      }
    }
  }

  /** A completed status survives the step, and the step does nothing to that hook. */
  ghost predicate Settles(op: Operation, r: Reconcile) {
    var res := Result(op, r);
    && GoodHooks(res.post.hooks)
    && (forall q :: IsCompleted(r.pre.hooks, q) ==> Lookup(res.post.hooks, q) == Lookup(r.pre.hooks, q))
    && (forall k :: 0 <= k < |res.calls| && (res.calls[k].HookApplied? || res.calls[k].HookDeleted?) ==>
          !IsCompleted(r.pre.hooks, res.calls[k].hook))
  }

  lemma {:induction false} StepSettles(op: Operation, r: Reconcile)
    requires WorldOk(op, r) && GoodHooks(r.pre.hooks)
    requires r.pre.phase.Running? || r.pre.phase.Terminating?
    requires op.SyncOperation? && op.dryRun ==> !StartedPreSync(MachineOf(r.pre))
    ensures Settles(op, r)
  {
    hide IsCompleted, IsHook;
    var res := Result(op, r);
    if r.pre.phase.Terminating? {
      TerminatingSettles(op, r);
    } else if HookStep(op, r) {
      HookStepResult(op, r);
      var ctx, m := CtxAt(op, r), MachineOf(r.pre);
      var n := SyncOnce(ctx, m);
      assert forall k :: 0 <= k < |n.calls| ==> CallOk(ctx, m, n.calls[k]);
    } else {
      PlainStep(op, r);
    }
  }

  lemma {:induction false} TerminatingSettles(op: Operation, r: Reconcile)
    requires r.pre.phase.Terminating? && GoodHooks(r.pre.hooks)
    ensures Settles(op, r)
  {
    hide Step, IsRunnable;
    TerminatingStep(op, r);
    var res := Result(op, r);
    forall q | IsCompleted(r.pre.hooks, q) ensures Lookup(res.post.hooks, q) == Lookup(r.pre.hooks, q) {
      LookupIsEntry(r.pre.hooks, q);
      var j :| 0 <= j < |r.pre.hooks| && r.pre.hooks[j] == Entry(q, Lookup(r.pre.hooks, q).value);
      assert res.post.hooks[j] == r.pre.hooks[j];
      EntryIsLookup(res.post.hooks, j);
    }
  }

  /** Every reachable state has one status per hook and phase, and a dry run never gets a second step. */
  lemma {:induction false} RunGood(op: Operation, run: seq<Reconcile>, i: nat)
    requires ValidRun(op, run) && i < |run|
    ensures GoodHooks(run[i].pre.hooks)
    ensures op.SyncOperation? && op.dryRun ==> i == 0
    ensures Settles(op, run[i])
  {
    hide Step, IsHook;
    if i > 0 {
      RunGood(op, run, i - 1);
      assert Follows(Result(op, run[i - 1]).post, run[i].pre);
      if op.SyncOperation? && op.dryRun {
        DryRunEnds(op, run[0]);
      }
    }
    StepSettles(op, run[i]);
  }

  lemma {:induction false} DryRunEnds(op: Operation, r: Reconcile)
    requires op.SyncOperation? && op.dryRun && r.pre == FRESH && WorldOk(op, r)
    ensures Result(op, r).post.phase.Completed()
  {
  }

  /** Once a hook's status is completed it never changes, and no later step creates or deletes that hook. */
  lemma {:induction false} HookSettled(op: Operation, run: seq<Reconcile>, i: nat, j: nat, key: HookKey)
    requires ValidRun(op, run) && i < j < |run|
    requires IsCompleted(Result(op, run[i]).post.hooks, key)
    ensures Lookup(Result(op, run[j]).post.hooks, key) == Lookup(Result(op, run[i]).post.hooks, key)
    ensures forall ok ::
      HookApplied(key, ok) !in Result(op, run[j]).calls && HookDeleted(key, ok) !in Result(op, run[j]).calls
    decreases j
  {
    hide Step, IsHook;
    assert Follows(Result(op, run[j - 1]).post, run[j].pre);
    if i < j - 1 { HookSettled(op, run, i, j - 1, key); }
    assert run[j].pre.hooks == Result(op, run[j - 1]).post.hooks;
    RunGood(op, run, j);
  }
}
