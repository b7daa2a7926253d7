/** The main results about runs of a sync operation. */
module SyncTheorems {
  import opened Kube
  import opened Git
  import opened Keyed
  import opened SyncState
  import opened ApplySync
  import opened HookSync
  import opened HookFacts
  import opened HookReports
  import opened SyncStep
  import opened SyncApply
  import opened SyncRun

  /** A step after which the operation goes on is a hook step that is not terminating. */
  lemma {:induction false} GoingOn(op: Operation, run: seq<Reconcile>, i: nat)
    requires HookOp(op) && ValidRun(op, run) && 0 < i < |run|
    ensures HookStep(op, run[i - 1]) && WorldOk(op, run[i - 1])
    ensures run[i].pre.hooks == Result(op, run[i - 1]).post.hooks
    ensures run[i].pre.resources == Result(op, run[i - 1]).post.resources
    ensures run[i].pre.revision == Result(op, run[i - 1]).post.revision
    ensures !Result(op, run[i - 1]).post.phase.Completed()
  {
    hide Step, IsHook;
    assert Follows(Result(op, run[i - 1]).post, run[i].pre);
    RunGood(op, run, i - 1);
    if run[i - 1].pre.phase.Terminating? {
      TerminatingStep(op, run[i - 1]);
    } else if !HookStep(op, run[i - 1]) {
      OtherStep(op, run[i - 1]);
    }
  }

  lemma {:induction false} NothingStarted(op: Operation, run: seq<Reconcile>)
    requires ValidRun(op, run) && run != []
    ensures !StartedSync(MachineOf(run[0].pre)) && !StartedPostSync(MachineOf(run[0].pre))
  {
    hide Step, WorldOk;
  }

  /** What a step after which the operation goes on really applies: the un-annotated targets if it starts Sync, and
      otherwise nothing. Sync stays started, and only a successful apply starts it. */
  lemma {:induction false} StartsOnce(op: Operation, run: seq<Reconcile>, i: nat)
    requires HookOp(op) && ValidRun(op, run) && 0 < i < |run|
    ensures HookStep(op, run[i - 1])
    ensures var r := run[i - 1];
            var before, after := StartedSync(MachineOf(r.pre)), StartedSync(MachineOf(run[i].pre));
            && (before ==> after) && (after && !before ==> AppliesAt(op, r))
            && RealApplies(Result(op, r).calls) ==
                 if after && !before then Targets(NonHookTasks(EnvAt(op, r).env.tasks)) else []
  {
    hide Step, IsHook, SyncOnce, AppliedIn, StepOk, RealApplies, NonHookTasks;
    var r := run[i - 1];
    GoingOn(op, run, i);
    HookStepResult(op, r);
    var ctx, m := CtxAt(op, r), MachineOf(r.pre);
    StaysStartedInStep(ctx, m, SyncOnce(ctx, m));
    StepApplies(ctx, m);
    assert StartedSync(MachineOf(run[i].pre)) == StartedSync(SyncOnce(ctx, m));
  }

  /** Step b entered, as it may, the PostSync phase that step i is in or enters. */
  ghost predicate BeginsPostSync(op: Operation, run: seq<Reconcile>, b: nat, i: nat)
    requires b <= i < |run|
  {
    && EntersPostSync(op, run[b]) && MayEnterPostSync(op, run[b])
    && forall k :: b < k <= i ==> StartedPostSync(MachineOf(run[k].pre))
  }

  /** A step that enters PostSync may do so. */
  lemma {:induction false} EntersProperly(op: Operation, run: seq<Reconcile>, i: nat)
    requires HookOp(op) && ValidRun(op, run) && i < |run| && EntersPostSync(op, run[i])
    ensures MayEnterPostSync(op, run[i])
  {
    hide Step, IsHook, SyncOnce, PhaseDone;
    var r := run[i];
    RunGood(op, run, i);
    if r.pre.phase.Terminating? {
      TerminatingStep(op, r);
    } else if !HookStep(op, r) {
      OtherStep(op, r);
    } else {
      HookStepResult(op, r);
      assert forall c :: c in Result(op, r).calls ==> CallOk(CtxAt(op, r), MachineOf(r.pre), c);
    }
  }

  /** Whatever has started was properly started by an earlier step: the Sync part by a successful real apply, and
      PostSync in a step that found the application healthy. */
  lemma {:induction false} StartedProperly(op: Operation, run: seq<Reconcile>, i: nat)
    requires HookOp(op) && ValidRun(op, run) && i < |run|
    ensures StartedSync(MachineOf(run[i].pre)) ==> exists j :: 0 <= j < i && AppliesAt(op, run[j])
    ensures StartedPostSync(MachineOf(run[i].pre)) ==> exists b :: 0 <= b < i && BeginsPostSync(op, run, b, i)
  {
    hide Step, ValidRun, AppliesAt, StartedSync, HasType, MayEnterPostSync;
    if i == 0 {
      NothingStarted(op, run);
    } else {
      StartsOnce(op, run, i);
      StartedProperly(op, run, i - 1);
      if StartedPostSync(MachineOf(run[i].pre)) {
        if StartedPostSync(MachineOf(run[i - 1].pre)) {
          var b :| 0 <= b < i - 1 && BeginsPostSync(op, run, b, i - 1);
          assert BeginsPostSync(op, run, b, i);
        } else {
          GoingOn(op, run, i);
          EntersProperly(op, run, i - 1);
          assert BeginsPostSync(op, run, i - 1, i);
        }
      }
    }
  }

  /** Every step of a run that enters PostSync found the application healthy and the PreSync and Sync hooks done, and
      comes after a step that applied the manifests with success. */
  lemma {:induction false} PostSyncEntered(op: Operation, run: seq<Reconcile>, b: nat)
    requires HookOp(op) && ValidRun(op, run) && b < |run| && EntersPostSync(op, run[b])
    ensures MayEnterPostSync(op, run[b]) && exists j :: 0 <= j < b && AppliesAt(op, run[j])
  {
    hide EntersPostSync, AppliesAt, StartedPostSync;
    EntersProperly(op, run, b);
    StartedProperly(op, run, b);
  }

  /** Phase order, over every run. Nothing is really applied or pruned and no Sync hook is created before every
      PreSync hook has succeeded. No PostSync hook is created before, in addition, every Sync hook that runs has
      succeeded, the step that entered this PostSync phase has found the application healthy, and a step before that one
      has applied the manifests with success. */
  lemma {:induction false} PhaseOrder(op: Operation, run: seq<Reconcile>, i: nat, c: Call)
    requires HookOp(op) && ValidRun(op, run) && i < |run| && c in Result(op, run[i]).calls
    requires c.RealApply() || (c.HookApplied? && c.hook.typ != PreSync)
    ensures HookStep(op, run[i])
    ensures c.RealApply() || (c.HookApplied? && (c.hook.typ == Sync || c.hook.typ == PostSync)) ==>
              PhaseDone(CtxAt(op, run[i]), run[i].pre.hooks, PreSync)
    ensures c.HookApplied? && c.hook.typ == PostSync ==>
              && PhaseDone(CtxAt(op, run[i]), run[i].pre.hooks, Sync)
              && (exists b :: 0 <= b <= i && BeginsPostSync(op, run, b, i)
                              && exists j :: 0 <= j < b && AppliesAt(op, run[j]))
  {
    hide Step, IsHook, SyncOnce, AppliedIn, PhaseDone;
    var r := run[i];
    RunGood(op, run, i);
    if r.pre.phase.Terminating? {
      TerminatingStep(op, r);
    } else if !HookStep(op, r) {
      OtherStep(op, r);
    } else {
      HookStepResult(op, r);
      assert CallOk(CtxAt(op, r), MachineOf(r.pre), c);
      if c.HookApplied? && c.hook.typ == PostSync { PostSyncHasBegun(op, run, i, c); }
    }
  }

  lemma {:induction false} PostSyncHasBegun(op: Operation, run: seq<Reconcile>, i: nat, c: Call)
    requires HookOp(op) && ValidRun(op, run) && i < |run|
    requires c in Result(op, run[i]).calls && c.HookApplied? && c.hook.typ == PostSync
    ensures exists b :: 0 <= b <= i && BeginsPostSync(op, run, b, i) && exists j :: 0 <= j < b && AppliesAt(op, run[j])
  {
    hide Step, AppliesAt, StartedPostSync, MayEnterPostSync, ValidRun;
    var b := i;
    if StartedPostSync(MachineOf(run[i].pre)) {
      StartedProperly(op, run, i);
      b :| 0 <= b < i && BeginsPostSync(op, run, b, i);
    } else {
      EntersProperly(op, run, i);
    }
    assert BeginsPostSync(op, run, b, i);
    PostSyncEntered(op, run, b);
  }

  // ---------------------------------------------------------------------------------------------
  // Hook statuses are what the hooks reported
  // ---------------------------------------------------------------------------------------------

  ghost predicate ReportedAt(op: Operation, r: Reconcile, key: HookKey, status: OperationPhase) {
    HookStep(op, r) && Reported(CtxAt(op, r), key, status)
  }

  /** Whatever status a hook has, in every state that can be reached, is what a live object of that hook has reported in
      an earlier step. */
  lemma {:induction false} StatusWasReported(op: Operation, run: seq<Reconcile>, i: nat, key: HookKey)
    requires HookOp(op) && ValidRun(op, run) && i < |run| && Lookup(run[i].pre.hooks, key).Some?
    ensures exists k :: 0 <= k < i && ReportedAt(op, run[k], key, Lookup(run[i].pre.hooks, key).value.status)
  {
    hide Step, Reported, ArgoHooks, SyncOnce, StepOk;
    if i > 0 {
      var r := run[i - 1];
      GoingOn(op, run, i);
      HookStepResult(op, r);
      StepReports(CtxAt(op, r), MachineOf(r.pre));
      if Lookup(run[i].pre.hooks, key) == Lookup(r.pre.hooks, key) {
        StatusWasReported(op, run, i - 1, key);
      } else {
        assert ReportedAt(op, r, key, Lookup(run[i].pre.hooks, key).value.status);
      }
    }
  }

  /** In the step a live object of the hook said that it has succeeded. */
  ghost predicate SucceedsAt(op: Operation, r: Reconcile, key: HookKey) {
    HookStep(op, r) && exists j :: 0 <= j < |CtxAt(op, r).hooks| && SeenSucceeding(CtxAt(op, r), j, key)
  }

  /** A hook is recorded as Succeeded only after its live object has said so in a step of the run. */
  lemma {:induction false} SucceededWasSeen(op: Operation, run: seq<Reconcile>, i: nat, key: HookKey)
    requires HookOp(op) && ValidRun(op, run) && i < |run| && IsSucceeded(run[i].pre.hooks, key)
    ensures exists k :: 0 <= k < i && SucceedsAt(op, run[k], key)
  {
    hide Step, ArgoHooks, ValidRun, IsRunOf, SaysSucceeded, SaysFailed, SaysError, ToDelete, Lookup;
    StatusWasReported(op, run, i, key);
    var k :| 0 <= k < i && ReportedAt(op, run[k], key, OperationPhase.Succeeded);
    var ctx := CtxAt(op, run[k]);
    var j :| 0 <= j < |ctx.hooks| && ReportsAs(ctx, j, key, OperationPhase.Succeeded);
    assert SeenSucceeding(ctx, j, key);
    assert SucceedsAt(op, run[k], key);
  }

  // ---------------------------------------------------------------------------------------------
  // Soundness of Succeeded
  // ---------------------------------------------------------------------------------------------

  /** The objects really applied in the first n steps of a run. */
  function AppliedObjects(op: Operation, run: seq<Reconcile>, n: nat): seq<Object>
    requires n <= |run|
  {
    if n == 0 then [] else AppliedObjects(op, run, n - 1) + RealApplies(Result(op, run[n - 1]).calls)
  }

  /** The un-annotated targets are the same, whatever their order, in every step that syncs. */
  ghost predicate FixedTargets(op: Operation, run: seq<Reconcile>, targets: multiset<Object>) {
    forall i :: 0 <= i < |run| && HookStep(op, run[i]) ==>
      multiset(Targets(NonHookTasks(EnvAt(op, run[i]).env.tasks))) == targets
  }

  /** Until Sync has started nothing was applied, and from then on exactly the targets were, once each. */
  lemma {:induction false} AppliedOnce(op: Operation, run: seq<Reconcile>, i: nat, targets: multiset<Object>)
    requires HookOp(op) && ValidRun(op, run) && i < |run| && FixedTargets(op, run, targets)
    ensures if StartedSync(MachineOf(run[i].pre)) then multiset(AppliedObjects(op, run, i)) == targets
            else AppliedObjects(op, run, i) == []
  {
    hide ValidRun, HookStep, AppliesAt, StartedSync, Result, RealApplies;
    if i == 0 {
      NothingStarted(op, run);
    } else {
      StartsOnce(op, run, i);
      AppliedOnce(op, run, i - 1, targets);
    }
  }

  /** No run applies any object more often than it is listed among the targets. */
  lemma {:induction false} AppliedAtMostOnce(op: Operation, run: seq<Reconcile>, targets: multiset<Object>)
    requires HookOp(op) && ValidRun(op, run) && FixedTargets(op, run, targets)
    ensures multiset(AppliedObjects(op, run, |run|)) <= targets
  {
    hide Step, IsHook, SyncOnce, AppliedIn, PhaseDone, StepOk;
    if |run| > 0 {
      var i := |run| - 1;
      var r := run[i];
      AppliedOnce(op, run, i, targets);
      RunGood(op, run, i);
      if r.pre.phase.Terminating? {
        TerminatingStep(op, r);
        RealAppliesSame([], Result(op, r).calls);
      } else if !HookStep(op, r) {
        OtherStep(op, r);
      } else {
        HookStepResult(op, r);
        StepApplies(CtxAt(op, r), MachineOf(r.pre));
      }
    }
  }

  /** What a step has to prune. */
  function Due(op: Operation, r: Reconcile): seq<Object> {
    if AppliesAt(op, r) then ToPrune(CtxAt(op, r)) else []
  }

  /** What a step prunes: the live objects without a target, once each, if it applied and pruning is on, and otherwise
      nothing, as long as the operation goes on. */
  lemma {:induction false} PrunedOnce(op: Operation, run: seq<Reconcile>, i: nat)
    requires HookOp(op) && ValidRun(op, run) && i + 1 < |run|
    ensures Prunes(Result(op, run[i]).calls) == Due(op, run[i])
  {
    hide Step, IsHook, SyncOnce, AppliedIn, PhaseDone, ToPrune, StepOk;
    GoingOn(op, run, i + 1);
    HookStepResult(op, run[i]);
    StepPrunes(CtxAt(op, run[i]), MachineOf(run[i].pre));
  }

  /** Once Sync has started, it stays so. */
  lemma {:induction false} StaysStarted(op: Operation, run: seq<Reconcile>, i: nat, j: nat)
    requires HookOp(op) && ValidRun(op, run) && i <= j < |run| && StartedSync(MachineOf(run[i].pre))
    ensures StartedSync(MachineOf(run[j].pre))
    decreases j
  {
    hide ValidRun, HookStep, AppliesAt, StartedSync, Result, RealApplies;
    if i < j {
      StaysStarted(op, run, i, j - 1);
      StartsOnce(op, run, j);
    }
  }

  /** At most one step of a run really applies or prunes anything. */
  lemma {:induction false} OneStepApplies(op: Operation, run: seq<Reconcile>, i: nat, j: nat, c: Call)
    requires HookOp(op) && ValidRun(op, run) && i < j < |run|
    requires c in Result(op, run[i]).calls && c.RealApply()
    ensures forall d :: d in Result(op, run[j]).calls ==> !d.RealApply()
  {
    hide Result, HookStep, AppliesAt, GoodHooks, StartedSync;
    StartsWhenApplying(op, run, i, c);
    StaysStarted(op, run, i + 1, j);
    RunGood(op, run, j);
    StartedIsQuiet(op, run[j]);
  }

  /** A step after Sync has started really applies nothing. */
  lemma {:induction false} StartedIsQuiet(op: Operation, r: Reconcile)
    requires HookOp(op) && WorldOk(op, r) && (r.pre.phase.Running? || r.pre.phase.Terminating?)
    requires GoodHooks(r.pre.hooks) && StartedSync(MachineOf(r.pre))
    ensures forall c :: c in Result(op, r).calls ==> !c.RealApply()
  {
    hide Step, IsHook, SyncOnce, AppliedIn, PhaseDone, ToPrune, RealApplies, Prunes, NonHookTasks, StepOk;
    if r.pre.phase.Terminating? {
      TerminatingStep(op, r);
    } else if !HookStep(op, r) {
      OtherStep(op, r);
    } else {
      HookStepResult(op, r);
      StepApplies(CtxAt(op, r), MachineOf(r.pre));
      StepPrunes(CtxAt(op, r), MachineOf(r.pre));
      forall c | c in Result(op, r).calls ensures !c.RealApply() {
        if c.RealApply() { RealCallShows(Result(op, r).calls, c); }
      }
    }
  }

  lemma {:induction false} RealCallShows(calls: seq<Call>, c: Call)
    requires c in calls && c.RealApply()
    ensures RealApplies(calls) != [] || Prunes(calls) != []
  {
    var n := |calls| - 1;
    if c != calls[n] { RealCallShows(calls[..n], c); }
  }

  lemma {:induction false} StartsWhenApplying(op: Operation, run: seq<Reconcile>, i: nat, c: Call)
    requires HookOp(op) && ValidRun(op, run) && i + 1 < |run| && c in Result(op, run[i]).calls && c.RealApply()
    ensures AppliesAt(op, run[i]) && StartedSync(MachineOf(run[i + 1].pre))
  {
    hide Step, IsHook, SyncOnce, AppliedIn, PhaseDone, NonHookTasks, Lives, Targets, StepOk;
    var r := run[i];
    GoingOn(op, run, i + 1);
    HookStepResult(op, r);
    StepApplies(CtxAt(op, r), MachineOf(r.pre));
    StepPrunes(CtxAt(op, r), MachineOf(r.pre));
    RealCallShows(Result(op, r).calls, c);
    NothingToDo(EnvAt(op, r).env.tasks);
    assert StartedSync(MachineOf(run[i + 1].pre)) == StartedSync(SyncOnce(CtxAt(op, r), MachineOf(r.pre)));
  }

  lemma {:induction false} NothingToDo(tasks: seq<Task>)
    ensures NonHookTasks(tasks) == [] ==> Targets(NonHookTasks(tasks)) == [] && Lives(tasks) == []
  {
    hide IsNonHookTask, NonHookTasks;
    LivesKept(tasks);
  }

  /** A real apply or prune that fails ends its run. */
  lemma {:induction false} EarlierCallsSucceed(op: Operation, run: seq<Reconcile>, j: nat, c: Call)
    requires HookOp(op) && ValidRun(op, run) && j + 1 < |run|
    requires c in Result(op, run[j]).calls && c.RealApply()
    ensures c.ok
  {
    hide Step, IsHook, SyncOnce, AppliedIn, PhaseDone, StepOk;
    GoingOn(op, run, j + 1);
    HookStepResult(op, run[j]);
    StepApplies(CtxAt(op, run[j]), MachineOf(run[j].pre));
  }

  /** The step that ends Succeeded found everything done, and does nothing more. */
  lemma {:induction false} SucceedingStep(op: Operation, run: seq<Reconcile>)
    requires HookOp(op) && ValidRun(op, run) && |run| > 0
    requires Result(op, run[|run| - 1]).post.phase.Succeeded?
    requires EnvAt(op, run[|run| - 1]).Ready? && EnvAt(op, run[|run| - 1]).env.tasks != []
    ensures var last := run[|run| - 1];
            && StartedSync(MachineOf(last.pre)) && GoodHooks(last.pre.hooks)
            && Result(op, last).post.hooks == last.pre.hooks && Result(op, last).calls == []
            && AllDone(CtxAt(op, last), last.pre.hooks)
  {
    hide Step, IsHook, SyncOnce, PhaseDone;
    var r := run[|run| - 1];
    RunGood(op, run, |run| - 1);
    if r.pre.phase.Terminating? { TerminatingStep(op, r); }
    HookStepResult(op, r);
  }

  /** A hook sync that ends Succeeded has applied its un-annotated targets exactly once each, no real apply or
      prune of the run having failed; exactly the step that applied has, with pruning on, pruned its live objects
      without a target, once each, and no other step has pruned or applied anything; every hook that runs in a phase has
      exactly one status for that phase, it is Succeeded, and in some step its live object has said so; and the last
      step did nothing more. */
  lemma {:induction false} SucceededIsSound(op: Operation, run: seq<Reconcile>, targets: multiset<Object>)
    requires HookOp(op) && ValidRun(op, run) && |run| > 0 && FixedTargets(op, run, targets)
    requires Result(op, run[|run| - 1]).post.phase.Succeeded?
    requires EnvAt(op, run[|run| - 1]).Ready? && EnvAt(op, run[|run| - 1]).env.tasks != []
    ensures multiset(AppliedObjects(op, run, |run|)) == targets
    ensures exists j :: 0 <= j < |run| - 1 && AppliesAt(op, run[j])
    ensures forall i, c :: 0 <= i < |run| && c in Result(op, run[i]).calls && c.RealApply() ==> c.ok
    ensures forall i :: 0 <= i < |run| - 1 ==> Prunes(Result(op, run[i]).calls) == Due(op, run[i])
    ensures forall i, j, c, d ::
      0 <= i < j < |run| && c in Result(op, run[i]).calls && d in Result(op, run[j]).calls ==>
        !c.RealApply() || !d.RealApply()
    ensures var last := run[|run| - 1];
            && Result(op, last).post.hooks == last.pre.hooks && Result(op, last).calls == []
            && Distinct(last.pre.hooks)
            && AllDone(CtxAt(op, last), last.pre.hooks)
            && (forall key :: IsSucceeded(last.pre.hooks, key) ==>
                  exists k :: 0 <= k < |run| && SucceedsAt(op, run[k], key))
  {
    hide Result, AllDone, StartedSync, ValidRun, FixedTargets, AppliesAt, HookOp, Distinct, EnvAt, MachineOf, CtxAt,
      Due, Prunes, SucceedsAt, IsSucceeded;
    var i := |run| - 1;
    forall key | IsSucceeded(run[i].pre.hooks, key) ensures exists k :: 0 <= k < |run| && SucceedsAt(op, run[k], key) {
      SucceededWasSeen(op, run, i, key);
    }
    SucceedingStep(op, run);
    AppliedOnce(op, run, i, targets);
    StartedProperly(op, run, i);
    forall j, c | 0 <= j < |run| && c in Result(op, run[j]).calls && c.RealApply() ensures c.ok {
      if j < i { EarlierCallsSucceed(op, run, j, c); }
    }
    forall j | 0 <= j < i ensures Prunes(Result(op, run[j]).calls) == Due(op, run[j]) { PrunedOnce(op, run, j); }
    forall j, k, c, d | 0 <= j < k < |run| && c in Result(op, run[j]).calls && d in Result(op, run[k]).calls
      ensures !c.RealApply() || !d.RealApply()
    {
      if c.RealApply() { OneStepApplies(op, run, j, k, c); }
    }
  }

  /** History is written exactly by a step that succeeds in full, with the commit the step compared at. */
  lemma {:induction false} HistoryOnlyOnSuccess(op: Operation, r: Reconcile)
    ensures Result(op, r).history.Some? ==>
      && op.SyncOperation? && !op.dryRun && !op.partial && !r.pre.phase.Terminating?
      && Result(op, r).history.value == Result(op, r).post.revision && Result(op, r).post.phase.Completed()
    ensures Result(op, r).post.phase.Succeeded? ==>
      op.SyncOperation? && (Result(op, r).history.Some? <==> !op.dryRun && !op.partial)
  {
  }

  /** A dry run only ever makes dry-run calls. */
  lemma {:induction false} DryRunCalls(op: Operation, run: seq<Reconcile>, i: nat, c: Call)
    requires op.SyncOperation? && op.dryRun && ValidRun(op, run) && i < |run| && c in Result(op, run[i]).calls
    ensures c.Applied? && c.dryRun
  {
    hide IsHook, RunApply, ByStrategy;
    RunGood(op, run, i);
    var r := run[i];
    assert r.pre == FRESH;
    if EnvAt(op, r).Ready? {
      RunApplyFacts(CtxAt(op, r), MachineOf(r.pre), DryMode(op), EnvAt(op, r).env.tasks);
    }
  }

  // ---------------------------------------------------------------------------------------------
  // Revision pinning
  // ---------------------------------------------------------------------------------------------

  function ComparedAt(env: Env): Option<string> {
    match env
    case Ready(e) => Some(e.revision)
    case Unready(revision) => Some(revision)
    case _ => None
  }

  /** What the repository server answers: a commit, and for a commit that same commit, however branches move. */
  ghost predicate ResolvesCommits(world: World) {
    forall s :: ComparedAt(world(s)).Some? ==>
      IsCommitSHA(ComparedAt(world(s)).value) && (IsCommitSHA(s) ==> ComparedAt(world(s)).value == s)
  }

  ghost predicate CommitWorlds(run: seq<Reconcile>) {
    forall i :: 0 <= i < |run| ==> ResolvesCommits(run[i].world)
  }

  /** A step keeps a commit once resolved, records the one it compared at, and resolves a commit that was asked for to
      itself. */
  lemma {:induction false} StepRevision(op: Operation, r: Reconcile)
    requires ResolvesCommits(r.world) && (r.pre.revision == "" || IsCommitSHA(r.pre.revision))
    ensures var post := Result(op, r).post;
            && (post.revision == "" || IsCommitSHA(post.revision))
            && (r.pre.revision != "" ==> post.revision == r.pre.revision)
            && (op.SyncOperation? ==>
                  && (ComparedAt(EnvAt(op, r)).Some? ==> post.revision == ComparedAt(EnvAt(op, r)).value)
                  && (IsCommitSHA(op.revision) && r.pre.revision == "" ==>
                        post.revision == "" || post.revision == op.revision))
  {
  }

  lemma {:induction false} RevisionShape(op: Operation, run: seq<Reconcile>, i: nat)
    requires op.SyncOperation? && ValidRun(op, run) && CommitWorlds(run) && i < |run|
    ensures run[i].pre.revision == "" || IsCommitSHA(run[i].pre.revision)
  {
    hide Step;
    if i > 0 {
      RevisionShape(op, run, i - 1);
      StepRevision(op, run[i - 1]);
      assert Follows(Result(op, run[i - 1]).post, run[i].pre);
    }
  }

  /** Once a step has compared, every later step requests, compares at and records that same commit. */
  lemma {:induction false} RevisionPinned(op: Operation, run: seq<Reconcile>, i: nat, j: nat)
    requires op.SyncOperation? && ValidRun(op, run) && CommitWorlds(run) && i < j < |run|
    requires ComparedAt(EnvAt(op, run[i])).Some?
    ensures var commit := ComparedAt(EnvAt(op, run[i])).value;
            && run[j].pre.revision == commit && EffectiveRevision(op, run[j].pre) == commit
            && Result(op, run[j]).post.revision == commit
            && (ComparedAt(EnvAt(op, run[j])).Some? ==> ComparedAt(EnvAt(op, run[j])).value == commit)
    decreases j
  {
    hide Step;
    RevisionShape(op, run, j);
    RevisionShape(op, run, j - 1);
    StepRevision(op, run[j - 1]);
    assert Follows(Result(op, run[j - 1]).post, run[j].pre);
    var s := EffectiveRevision(op, run[i].pre);
    assert IsCommitSHA(ComparedAt(run[i].world(s)).value);
    if i < j - 1 { RevisionPinned(op, run, i, j - 1); }
    StepRevision(op, run[j]);
  }

  // ---------------------------------------------------------------------------------------------
  // Steps that follow one another
  // ---------------------------------------------------------------------------------------------

  /** What a step leaves behind is running or completed, and never terminating. */
  lemma {:induction false} StepPhase(op: Operation, st: OpState, world: World)
    requires st.phase.Running? || st.phase.Terminating?
    ensures var post := Step(op, st, world).post;
            post.phase.Completed() || (post.phase.Running? && st.phase.Running?)
  {
    hide SyncOnce, StopHooks;
    if op.SyncOperation? && st.phase.Running? && world(EffectiveRevision(op, st)).Ready? {
      var env := world(EffectiveRevision(op, st)).env;
      SyncPhase(Ctx(op, env, ArgoHooks(env.manifests)), MachineOf(st));
    }
  }

  lemma {:induction false} SyncPhase(ctx: Ctx, m: Machine)
    requires ctx.op.SyncOperation? && m.phase.Running?
    ensures SyncOnce(ctx, m).phase.Completed() || SyncOnce(ctx, m).phase.Running?
  {
    hide DoHookSync, DoApply;
    HookSyncPhase(ctx, m);
    HookSyncPhase(ctx, RunApply(ctx, m, DryMode(ctx.op), ctx.env.tasks).m);
  }

  lemma {:induction false} HookSyncPhase(ctx: Ctx, m: Machine)
    requires ctx.op.SyncOperation? && m.phase.Running?
    ensures DoHookSync(ctx, m).phase.Completed() || DoHookSync(ctx, m).phase.Running?
  {
    hide RunHooks, DoApply, VerifyHooks, Evolves;
    VerdictEnds(ctx, 0);
    RunHooksEvolves(ctx, m, PreSync);
    var p := RunHooks(ctx, m, PreSync).m;
    RunHooksEvolves(ctx, p, Sync);
    RunHooksEvolves(ctx, RunHooks(ctx, p, Sync).m, PostSync);
    RunHooksEvolves(ctx, RunApply(ctx, p, RealMode(ctx.op), NonHookTasks(ctx.env.tasks)).m, Sync);
  }

  /** A run goes on with a step that follows its last one. */
  lemma {:induction false} RunGoesOn(op: Operation, run: seq<Reconcile>, r: Reconcile)
    requires ValidRun(op, run) && WorldOk(op, r) && (r.pre.phase.Running? || r.pre.phase.Terminating?)
    requires if run == [] then r.pre == FRESH else Follows(Result(op, run[|run| - 1]).post, r.pre)
    ensures ValidRun(op, run + [r])
  {
    hide Step, ValidTasks;
    var longer := run + [r];
    forall i | 0 < i < |longer| ensures Follows(Result(op, longer[i - 1]).post, longer[i].pre) {
      if i < |run| { assert Follows(Result(op, run[i - 1]).post, run[i].pre); }
    }
  }

  // ---------------------------------------------------------------------------------------------
  // Apply-strategy operations
  // ---------------------------------------------------------------------------------------------

  /** The operation is apply based and not a dry run. */
  predicate ApplyOp(op: Operation) {
    op.SyncOperation? && op.strategy.ApplyStrategy? && !op.dryRun
  }

  /** With a recorded resource an apply-strategy step makes no real apply, and ends the operation. */
  lemma {:induction false} RecordedIsQuiet(op: Operation, r: Reconcile)
    requires ApplyOp(op) && (r.pre.phase.Running? || r.pre.phase.Terminating?)
    requires GoodHooks(r.pre.hooks) && r.pre.resources != []
    ensures Result(op, r).post.phase.Completed() && (r.pre.phase.Running? ==> Result(op, r).calls == [])
    ensures forall c :: c in Result(op, r).calls ==> !c.RealApply()
  {
    if r.pre.phase.Terminating? {
      hide Step;
      TerminatingStep(op, r);
    }
  }

  /** The step has really applied every target and, with pruning on, pruned every live object without a target, once
      each, and all its calls have succeeded. */
  ghost predicate AppliesAll(op: Operation, r: Reconcile) {
    && op.SyncOperation? && EnvAt(op, r).Ready?
    && RealApplies(Result(op, r).calls) == Targets(EnvAt(op, r).env.tasks)
    && Prunes(Result(op, r).calls) == ToPrune(CtxAt(op, r))
    && forall c :: c in Result(op, r).calls ==> c.ok
  }

  /** The calls of a successful apply after a successful dry run. */
  lemma {:induction false} ApplyAfterDryRun(ctx: Ctx, m: Machine)
    requires ctx.op.SyncOperation? && ValidTasks(ctx.env.tasks) && m.calls == []
    ensures var d := RunApply(ctx, m, DryMode(ctx.op), ctx.env.tasks);
            var a := RunApply(ctx, d.m, RealMode(ctx.op), ctx.env.tasks);
            d.go && a.go ==>
              && RealApplies(a.m.calls) == Targets(ctx.env.tasks) && Prunes(a.m.calls) == ToPrune(ctx)
              && (forall c :: c in a.m.calls ==> c.ok)
  {
    hide DoApply, ValidTasks, RealApplies, Prunes, Targets, Lives;
    var tasks, cluster := ctx.env.tasks, ctx.env.cluster;
    var d := DoApply(cluster, DryMode(ctx.op), tasks, m.resources);
    var a := DoApply(cluster, RealMode(ctx.op), tasks, d.resources);
    DoApplyMeaning(cluster, DryMode(ctx.op), tasks, m.resources);
    DoApplyMeaning(cluster, RealMode(ctx.op), tasks, d.resources);
    RealAppliesSame([], d.calls);
    NoCalls();
    RealAppliesAppend(d.calls, a.calls);
    PrunesAppend(d.calls, a.calls);
    assert m.calls + d.calls == d.calls;
  }

  /** The first step of an apply-strategy operation on some task applies everything and leaves the operation going, or
      fails it. */
  lemma {:induction false} FirstApplyStep(op: Operation, r: Reconcile)
    requires ApplyOp(op) && WorldOk(op, r) && r.pre == FRESH
    ensures var post := Result(op, r).post;
            if post.phase.Completed() then
              EnvAt(op, r).Ready? ==> if EnvAt(op, r).env.tasks == [] then !post.phase.Failed? else post.phase.Failed?
            else AppliesAll(op, r) && post.resources != []
  {
    hide RunApply, ValidTasks, RealApplies, Prunes, Targets, ToPrune;
    if EnvAt(op, r).Ready? {
      var ctx, m := CtxAt(op, r), MachineOf(r.pre);
      ApplyAfterDryRun(ctx, m);
      RunApplyFacts(ctx, m, DryMode(op), ctx.env.tasks);
      RunApplyFacts(ctx, RunApply(ctx, m, DryMode(op), ctx.env.tasks).m, RealMode(op), ctx.env.tasks);
    }
  }

  /** Such an operation that goes on after its first step has applied everything with it, and ends with the second,
      which really applies and prunes nothing. */
  lemma {:induction false} OneApplyStepApplies(op: Operation, run: seq<Reconcile>)
    requires ApplyOp(op) && ValidRun(op, run) && |run| > 1
    ensures |run| == 2 && AppliesAll(op, run[0]) && Result(op, run[1]).post.phase.Completed()
    ensures forall c :: c in Result(op, run[1]).calls ==> !c.RealApply()
    ensures run[1].pre.phase.Running? ==> Result(op, run[1]).calls == []
  {
    hide Step, ValidTasks, AppliesAll;
    FirstApplyStep(op, run[0]);
    assert Follows(Result(op, run[0]).post, run[1].pre);
    RunGood(op, run, 1);
    RecordedIsQuiet(op, run[1]);
    assert |run| > 2 ==> Follows(Result(op, run[1]).post, run[2].pre);
  }

  /** An apply-strategy sync of some task that ends Succeeded has taken two steps: the first has really applied each
      target exactly once and, with pruning on, pruned each live object without a target exactly once, every call with
      success; the second has done nothing more. */
  lemma {:induction false} SucceededApplyIsSound(op: Operation, run: seq<Reconcile>)
    requires ApplyOp(op) && ValidRun(op, run) && |run| > 0
    requires Result(op, run[|run| - 1]).post.phase.Succeeded?
    requires EnvAt(op, run[|run| - 1]).Ready? && EnvAt(op, run[|run| - 1]).env.tasks != []
    ensures |run| == 2 && AppliesAll(op, run[0]) && Result(op, run[1]).calls == []
  {
    hide Step, ValidTasks, AppliesAll;
    if |run| == 1 {
      FirstApplyStep(op, run[0]);
    } else {
      OneApplyStepApplies(op, run);
      RunGood(op, run, 1);
      if run[1].pre.phase.Terminating? { TerminatingStep(op, run[1]); }
    }
  }
}
