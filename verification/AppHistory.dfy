/** What is deployed, what is stored in the deployment history, and what a rollback goes back to, over the lifecycle of
    an application. */
module AppHistory {
  import opened Kube
  import opened SyncState
  import opened ApplySync
  import opened HookSync
  import opened SyncStep
  import opened SyncRun
  import opened SyncTheorems
  import opened Progress
  import opened Completion
  import opened History
  import opened AppLifecycle

  // ---------------------------------------------------------------------------------------------
  // The history follows the deployments
  // ---------------------------------------------------------------------------------------------

  lemma {:induction false} HappenRecords(s: State, e: Event, start: seq<Deployment>)
    requires s.app.history == LastFive(Filed(start, s.made))
    ensures Happen(s, e).app.history == LastFive(Filed(start, Happen(s, e).made))
  {
    hide Filed, LastFive, Persist, Step, AppliedSpec;
    if e.Operate? && s.app.operation.Some? && s.log != [] {
      var current, n := Current(s.app), Happen(s, e);
      HistoryOnlyOnSuccess(current.request.op, Reconcile(current.st, e.world));
      if |n.made| > |s.made| {
        var m := n.made[|s.made|];
        FiledSnoc(start, s.made, m);
        PersistFollowsLog(Filed(start, s.made), m.revision, Kept(m.spec));
      }
    }
  }

  lemma {:induction false} FiledSnoc(start: seq<Deployment>, made: seq<Made>, m: Made)
    ensures Filed(start, made + [m]) ==
            Filed(start, made) + [Next(Filed(start, made), m.revision, Kept(m.spec))]
  {
    assert (made + [m])[..|made|] == made;
  }

  lemma {:induction false} HistoryFollows(s: State, events: seq<Event>)
    requires Start(s)
    ensures Run(s, events).app.history == LastFive(Filed(s.app.history, Run(s, events).made))
  {
    if events != [] {
      hide Happen;
      HistoryFollows(s, events[..|events| - 1]);
      HappenRecords(Run(s, events[..|events| - 1]), events[|events| - 1], s.app.history);
    }
  }

  /** Over any run the stored history is the last five of all deployments, the full syncs that succeeded, in order,
      numbered consecutively and with their commits; and an entry has the overrides that were deployed if and only if it
      was there at the start, or the operation asked for those of the specification, or for none and the specification
      did not change them between the step that applied and the step that recorded. */
  lemma {:induction false} HistoryIsLastFive(s: State, events: seq<Event>, i: nat)
    requires Start(s) && i < |Run(s, events).app.history|
    ensures var n := Run(s, events);
            var log, start := Log(s.app.history, n.made), |s.app.history|;
            var k := |log| - |n.app.history| + i;
            && |log| == start + |n.made| && |n.app.history| == (if |log| > MAX_HISTORY then MAX_HISTORY else |log|)
            && Consecutive(n.app.history)
            && n.app.history[i].id == log[k].id && n.app.history[i].revision == log[k].revision
            && (AsList(n.app.history[i].overrides) == AsList(log[k].overrides) <==>
                  k < start || KeptOverrides(n.made[k - start]))
  {
    hide Run, Filed, Log;
    HistoryFollows(s, events);
    var n, start := Run(s, events), s.app.history;
    FiledConsecutive(start, n.made);
    var k := |start| + |n.made| - |n.app.history| + i;
    StoredOverridesCondition(start, n.made, k);
  }

  // ---------------------------------------------------------------------------------------------
  // What was applied
  // ---------------------------------------------------------------------------------------------

  /** In a run at most one step really applies, so the overrides taken for the applied ones are those of that step. */
  lemma {:induction false} AppliedSpecIs(op: Operation, steps: seq<Taken>, now: Overrides, i: nat)
    requires (HookOp(op) || ApplyOp(op)) && ValidRun(op, Path(steps)) && i < |steps| && ReallyApplies(op, steps[i].step)
    ensures AppliedSpec(op, steps, now) == steps[i].spec
  {
    hide Step, ValidRun;
    LaterDoNot(op, steps, i);
    LastThatApplies(op, steps, now, i);
  }

  lemma {:induction false} LaterDoNot(op: Operation, steps: seq<Taken>, i: nat)
    requires (HookOp(op) || ApplyOp(op)) && ValidRun(op, Path(steps)) && i < |steps| && ReallyApplies(op, steps[i].step)
    ensures forall j :: i < j < |steps| ==> !ReallyApplies(op, steps[j].step)
  {
    hide Step, ValidRun;
    var run := Path(steps);
    var c :| c in Result(op, run[i]).calls && c.RealApply();
    forall j | i < j < |steps| ensures !ReallyApplies(op, steps[j].step) {
      if HookOp(op) { OneStepApplies(op, run, i, j, c); } else { OneApplyStepApplies(op, run); }
    }
  }

  lemma {:induction false} LastThatApplies(op: Operation, steps: seq<Taken>, now: Overrides, i: nat)
    requires i < |steps| && ReallyApplies(op, steps[i].step)
    requires forall j :: i < j < |steps| ==> !ReallyApplies(op, steps[j].step)
    ensures AppliedSpec(op, steps, now) == steps[i].spec
  {
    hide ReallyApplies;
    if i < |steps| - 1 { LastThatApplies(op, steps[..|steps| - 1], now, i); }
  }

  /** A deployment that an event makes is that of the operation started last, at its commit; the overrides it was
      deployed with are those asked for, or else those that the specification had at the one step of the operation
      that really applied. */
  lemma {:induction false} DeploymentIsWhatWasApplied(s: State, events: seq<Event>, e: Event, i: nat)
    requires Start(s) && ValidEvents(events + [e]) && |Run(s, events + [e]).made| > |Run(s, events).made|
    requires i < |Run(s, events + [e]).steps| && Run(s, events + [e]).app.state.Some?
    requires var n := Run(s, events + [e]); ReallyApplies(n.app.state.value.request.op, n.steps[i].step)
    ensures var before, n := Run(s, events).made, Run(s, events + [e]);
            var request := n.app.state.value.request;
            && |n.made| == |before| + 1 && n.made[..|before|] == before
            && n.made[|before|].asked == request.overrides
            && n.made[|before|].revision == n.app.state.value.st.revision
            && (HookOp(request.op) || ApplyOp(request.op) ==>
                  Deployed(n.made[|before|]) == Effective(request.overrides, n.steps[i].spec))
  {
    hide Step, ValidRun, ReallyApplies, AppliedSpec, ValidWorld, Persist;
    var b, n := Run(s, events), Run(s, events + [e]);
    assert (events + [e])[..|events|] == events;
    assert n == Happen(b, e);
    RunOnCourse(s, events + [e]);
    var op := n.app.state.value.request.op;
    assert ValidRun(op, Path(n.steps)) by { CourseIsRun(n); }
    if HookOp(op) || ApplyOp(op) { AppliedSpecIs(op, n.steps, b.app.overrides, i); }
  }

  lemma {:induction false} CourseIsRun(s: State)
    requires OnCourse(s) && s.steps != [] && s.app.state.Some?
    ensures ValidRun(s.app.state.value.request.op, Path(s.steps))
  {
    hide ValidRun, Follows;
  }

  /** Rollback over any run: a stored number gives back the commit that was deployed under it; the deployment `again`
      that the rollback makes gives back the overrides under exactly the condition of `RollbackIsExact`. */
  lemma {:induction false} RollbackOverRuns(s: State, events: seq<Event>, q: RollbackRequest, op: Operation,
                                            overrides: Overrides, again: Made, i: nat)
    requires Start(s) && i < |Run(s, events).app.history|
    requires GoesBackTo(op, overrides, q, Run(s, events).app.history[i]) && again.asked == overrides
    ensures var n, start := Run(s, events), |s.app.history|;
            var log := Log(s.app.history, n.made);
            var k := |log| - |n.app.history| + i;
            && |n.app.history| <= |log| == start + |n.made|
            && log[k].id == q.id && op.revision == log[k].revision
            && (Deployed(again) == AsList(log[k].overrides) <==>
                  if overrides.Some? then k < start || KeptOverrides(n.made[k - start])
                  else AsList(again.applied) == AsList(log[k].overrides))
  {
    hide Run, Log, Filed, LastFive;
    HistoryFollows(s, events);
    HistoryIsLastFive(s, events, i);
    var n := Run(s, events);
    var k := |Log(s.app.history, n.made)| - |n.app.history| + i;
    RollbackIsExact(s.app.history, n.made, q, op, overrides, again, i, k);
  }

  // ---------------------------------------------------------------------------------------------
  // Deployments whose overrides are not those stored, or not those gone back to
  // ---------------------------------------------------------------------------------------------

  lemma {:induction false} RunAppend(s: State, a: seq<Event>, b: seq<Event>)
    ensures Run(s, a + b) == Run(Run(s, a), b)
    decreases |b|
  {
    hide Happen;
    if b == [] {
      assert a + b == a;
    } else {
      RunAppend(s, a, b[..|b| - 1]);
      assert (a + b)[..|a + b| - 1] == a + b[..|b| - 1];
    }
  }

  lemma {:induction false} RunOne(s: State, a: Event)
    ensures Run(s, [a]) == Happen(s, a)
  {
    hide Happen;
    assert [a][..0] == [] && Run(s, []) == s;
  }

  /** The events of a request that takes two steps, with a change of the specification in between. */
  function Requested(request: Request, world: World, meanwhile: Overrides): seq<Event> {
    [Ask(request)] + [Operate(world)] + [SetSpec(false, meanwhile)] + [Operate(world)]
  }

  lemma {:induction false} RunFour(s: State, request: Request, world: World, meanwhile: Overrides)
    ensures Run(s, Requested(request, world, meanwhile)) ==
            Happen(Happen(Happen(Happen(s, Ask(request)), Operate(world)), SetSpec(false, meanwhile)), Operate(world))
  {
    hide Happen, Run;
    var a, b, c, d := Ask(request), Operate(world), SetSpec(false, meanwhile), Operate(world);
    RunAppend(s, [a] + [b] + [c], [d]);
    RunAppend(s, [a] + [b], [c]);
    RunAppend(s, [a], [b]);
    RunOne(s, a);
    RunOne(Run(s, [a]), b);
    RunOne(Run(s, [a] + [b]), c);
    RunOne(Run(s, [a] + [b] + [c]), d);
  }

  /** Two steps sync the operation fully: the first really applies and leaves it running, the second succeeds. */
  ghost predicate TwoStep(op: Operation, world: World) {
    && op.SyncOperation? && !op.dryRun && !op.partial
    && !Step(op, FRESH, world).post.phase.Completed() && ReallyApplies(op, Reconcile(FRESH, world))
    && Step(op, Step(op, FRESH, world).post, world).post.phase.Succeeded?
    && !ReallyApplies(op, Reconcile(Step(op, FRESH, world).post, world))
  }

  function Commit(op: Operation, world: World): string {
    Step(op, Step(op, FRESH, world).post, world).post.revision
  }

  /** The application is about to take a step of the request from the state. */
  ghost predicate Pending(s: State, request: Request, st: OpState) {
    s.app.operation == Some(request) && s.log != [] && Current(s.app) == Record(request, st)
  }

  /** Nothing more was deployed or stored. */
  ghost predicate SameDeployments(s: State, n: State) {
    n.made == s.made && n.app.history == s.app.history
  }

  lemma {:induction false} Asked(s: State, request: Request)
    requires s.app.operation.None?
    ensures var n := Happen(s, Ask(request));
            && Pending(n, request, FRESH) && SameDeployments(s, n)
            && n.steps == [] && n.app.overrides == s.app.overrides
  {
  }

  lemma {:induction false} Operated(s: State, request: Request, st: OpState, world: World)
    requires Pending(s, request, st)
    ensures var n, post := Happen(s, Operate(world)), Step(request.op, st, world).post;
            !post.phase.Completed() ==>
              && Pending(n, request, post) && SameDeployments(s, n)
              && n.steps == s.steps + [Taken(Reconcile(st, world), s.app.overrides)]
  {
    hide Step, AppliedSpec, Persist;
    HistoryOnlyOnSuccess(request.op, Reconcile(st, world));
  }

  lemma {:induction false} Respecified(s: State, request: Request, st: OpState, spec: Overrides)
    requires Pending(s, request, st)
    ensures var n := Happen(s, SetSpec(false, spec));
            Pending(n, request, st) && SameDeployments(s, n) && n.steps == s.steps && n.app.overrides == spec
  {
  }

  lemma {:induction false} Finished(s: State, request: Request, st: OpState, world: World)
    requires Pending(s, request, st) && request.op.SyncOperation? && !request.op.dryRun && !request.op.partial
    ensures var n, post, spec := Happen(s, Operate(world)), Step(request.op, st, world).post, s.app.overrides;
            var applied := AppliedSpec(request.op, s.steps + [Taken(Reconcile(st, world), spec)], spec);
            post.phase.Succeeded? ==>
              && n.made == s.made + [Made(post.revision, request.overrides, applied, spec)]
              && n.app.history == Persist(s.app.history, post.revision, Kept(spec))
              && n.app.operation.None? && n.app.overrides == spec
  {
    hide Step, AppliedSpec, Persist;
    HistoryOnlyOnSuccess(request.op, Reconcile(st, world));
  }

  lemma {:induction false} FirstOfTwoApplied(op: Operation, a: Taken, b: Taken, now: Overrides)
    requires ReallyApplies(op, a.step) && !ReallyApplies(op, b.step)
    ensures AppliedSpec(op, [] + [a] + [b], now) == a.spec
  {
    hide ReallyApplies;
    var steps := [] + [a] + [b];
    assert steps[..1] == [a];
    assert AppliedSpec(op, [a], now) == a.spec;
  }

  /** What is deployed and what is stored when a request takes two steps. */
  lemma {:induction false} TwoSteps(s: State, request: Request, world: World, meanwhile: Overrides)
    requires s.app.operation.None? && TwoStep(request.op, world)
    ensures var n, commit := Run(s, Requested(request, world, meanwhile)), Commit(request.op, world);
            && n.made == s.made + [Made(commit, request.overrides, s.app.overrides, meanwhile)]
            && n.app.history == Persist(s.app.history, commit, Kept(meanwhile))
            && n.app.operation.None? && n.app.overrides == meanwhile
  {
    hide Step, ReallyApplies, Persist, Run, Happen, Pending, AppliedSpec, Requested;
    RunFour(s, request, world, meanwhile);
    var first := Step(request.op, FRESH, world).post;
    var s1 := Happen(s, Ask(request));
    Asked(s, request);
    var s2 := Happen(s1, Operate(world));
    Operated(s1, request, FRESH, world);
    var s3 := Happen(s2, SetSpec(false, meanwhile));
    Respecified(s2, request, first, meanwhile);
    Finished(s3, request, first, world);
    FirstOfTwoApplied(request.op, Taken(Reconcile(FRESH, world), s.app.overrides),
                      Taken(Reconcile(first, world), meanwhile), meanwhile);
  }

  /** A fresh application with the given overrides in its specification. */
  function NewApp(spec: Overrides): State {
    State(App(false, spec, None, None, []), [], [], [])
  }

  /** An operation is stored with the overrides that the specification has when it is recorded, whatever it asked for
      and whatever the specification had when it was applied. */
  lemma {:induction false} StoredWithTheSpecification(op: Operation, world: World, asked: Overrides, spec: Overrides,
                                                      meanwhile: Overrides)
    requires TwoStep(op, world)
    ensures var n := Run(NewApp(spec), Requested(Request(op, asked), world, meanwhile));
            && Start(NewApp(spec)) && |n.made| == 1 && Deployed(n.made[0]) == Effective(asked, spec)
            && n.app.history == [Deployment(0, Commit(op, world), Kept(meanwhile))]
  {
    hide TwoStep, Run, Commit;
    TwoSteps(NewApp(spec), Request(op, asked), world, meanwhile);
  }

  /** A rollback to a deployment that is stored with no overrides deploys those that the specification has now. */
  lemma {:induction false} RollbackTakesTheSpecification(op: Operation, back: Operation, world: World,
                                                         q: RollbackRequest, now: Overrides)
    requires TwoStep(op, world) && TwoStep(back, world)
    requires GoesBackTo(back, None, q, Deployment(0, Commit(op, world), None))
    ensures var first := Run(NewApp(None), Requested(Request(op, None), world, None));
            var changed := Run(first, [SetSpec(false, now)]);
            var n := Run(changed, Requested(Request(back, None), world, now));
            && first.app.history == [Deployment(0, Commit(op, world), None)]
            && n.made == [Made(Commit(op, world), None, None, None), Made(Commit(back, world), None, now, now)]
  {
    hide TwoStep, Run, Commit;
    TwoSteps(NewApp(None), Request(op, None), world, None);
    var first := Run(NewApp(None), Requested(Request(op, None), world, None));
    RunOne(first, SetSpec(false, now));
    TwoSteps(Run(first, [SetSpec(false, now)]), Request(back, None), world, now);
  }

  // ---------------------------------------------------------------------------------------------
  // For instance, an application of one config map
  // ---------------------------------------------------------------------------------------------

  lemma {:induction false} RealAppliesShow(calls: seq<Call>)
    requires RealApplies(calls) != []
    ensures exists c :: c in calls && c.RealApply()
  {
    var n := |calls| - 1;
    if calls[n].RealApply() {
      assert calls[n] in calls;
    } else {
      RealAppliesShow(calls[..n]);
      var c :| c in calls[..n] && c.RealApply();
      assert c in calls;
    }
  }

  /** In a run of two steps that ends Succeeded and has a target to apply, it is the first that applies. */
  lemma {:induction false} FirstApplies(op: Operation, run: seq<Reconcile>, targets: multiset<Object>)
    requires HookOp(op) && ValidRun(op, run) && |run| == 2 && FixedTargets(op, run, targets) && targets != multiset{}
    requires Result(op, run[1]).post.phase.Succeeded? && EnvAt(op, run[1]).Ready? && EnvAt(op, run[1]).env.tasks != []
    ensures ReallyApplies(op, run[0]) && !ReallyApplies(op, run[1])
  {
    hide Result, AllDone, ValidRun, FixedTargets, HookOp, Prunes, RealApplies, Due;
    SucceededIsSound(op, run, targets);
    NoCalls();
    var a := RealApplies(Result(op, run[0]).calls);
    assert AppliedObjects(op, run, 1) == [] + a;
    assert AppliedObjects(op, run, 2) == [] + a + [];
    assert [] + a + [] == a;
    RealAppliesShow(Result(op, run[0]).calls);
  }

  /** A hook sync without hooks that has a target to apply. */
  lemma {:induction false} HookFreeIsTwoStep(world: World, ctx: Ctx)
    requires HookFree(world, ctx) && !ctx.op.partial && Targets(NonHookTasks(ctx.env.tasks)) != []
    ensures TwoStep(ctx.op, world) && Commit(ctx.op, world) == ctx.env.revision
  {
    hide Step, AllSucceedHooks, ArgoHooks, Smooth, NonHookTasks, Targets, ReallyApplies, ValidTasks;
    HookFreeSucceeds(world, ctx);
    var first := Reconcile(FRESH, world);
    var run := [first, Reconcile(Result(ctx.op, first).post, world)];
    ReadyRevision(ctx.op, FRESH, world);
    ReadyRevision(ctx.op, run[1].pre, world);
    assert Follows(Result(ctx.op, run[0]).post, run[1].pre);
    var targets := multiset(Targets(NonHookTasks(ctx.env.tasks)));
    assert |targets| == |Targets(NonHookTasks(ctx.env.tasks))|;
    FirstApplies(ctx.op, run, targets);
  }

  lemma {:induction false} ReadyRevision(op: Operation, st: OpState, world: World)
    requires op.SyncOperation? && world(EffectiveRevision(op, st)).Ready?
    ensures Step(op, st, world).post.revision == world(EffectiveRevision(op, st)).env.revision
  {
    hide Execute;
  }

  /** An apply-strategy operation, as a rollback is, in the same world. */
  lemma {:induction false} ApplyIsTwoStep(world: World, ctx: Ctx, op: Operation)
    requires HookFree(world, ctx) && ApplyOp(op) && !op.partial && op.revision == ctx.env.revision
    requires Targets(ctx.env.tasks) != []
    ensures TwoStep(op, world) && Commit(op, world) == ctx.env.revision
  {
    hide Smooth, AllSucceedHooks, ArgoHooks, ValidTasks, RunApply, Targets, RealApplies, Prunes, NonHookTasks;
    var tasks, c, m := ctx.env.tasks, Ctx(op, ctx.env, ctx.hooks), MachineOf(FRESH);
    assert Smooth(c) by { SameSmooth(ctx, op); }
    var d := RunApply(c, m, DryMode(op), tasks);
    SmoothRunApply(c, m, DryMode(op), tasks);
    RunApplyFacts(c, m, DryMode(op), tasks);
    SmoothRunApply(c, d.m, RealMode(op), tasks);
    RunApplyFacts(c, d.m, RealMode(op), tasks);
    var first := Reconcile(FRESH, world);
    assert SyncOnce(Ctx(op, ctx.env, ArgoHooks(ctx.env.manifests)), m) == RunApply(c, d.m, RealMode(op), tasks).m;
    FirstApplyStep(op, first);
    RealAppliesShow(Result(op, first).calls);
    RecordedIsQuiet(op, Reconcile(Result(op, first).post, world));
  }

  lemma {:induction false} SameSmooth(ctx: Ctx, op: Operation)
    requires Smooth(ctx)
    ensures Smooth(Ctx(op, ctx.env, ctx.hooks))
  {
  }

  const IMAGE: Overrides := Some(["image=v2"])

  /** The world of the config map, the operation that syncs it, and the one that goes back to it. */
  function PlainWorld(): World {
    _ => Ready(PlainEnv())
  }

  function PlainBack(): Operation {
    SyncOperation(PlainEnv().revision, false, false, ApplyStrategy(false), false, 0)
  }

  lemma {:induction false} PlainTwoSteps()
    ensures TwoStep(PlainCtx().op, PlainWorld()) && Commit(PlainCtx().op, PlainWorld()) == PlainEnv().revision
    ensures TwoStep(PlainBack(), PlainWorld()) && Commit(PlainBack(), PlainWorld()) == PlainEnv().revision
  {
    hide TwoStep, Commit, HookFree;
    assert HookFree(PlainWorld(), PlainCtx()) by { PlainHookFree(); }
    assert Targets(NonHookTasks(PlainEnv().tasks)) != [] && Targets(PlainEnv().tasks) != [] by { PlainTargets(); }
    HookFreeIsTwoStep(PlainWorld(), PlainCtx());
    ApplyIsTwoStep(PlainWorld(), PlainCtx(), PlainBack());
  }

  lemma {:induction false} PlainHookFree()
    ensures HookFree(PlainWorld(), PlainCtx())
  {
    hide ArgoHooks, NonHookTasks, Smooth, AllSucceedHooks, ValidTasks;
    PlainIsHookFree();
  }

  lemma {:induction false} PlainTargets()
    ensures Targets(NonHookTasks(PlainEnv().tasks)) != [] && Targets(PlainEnv().tasks) != []
  {
    assert NonHookTasks([Task(None, Some(PLAIN))]) == [Task(None, Some(PLAIN))];
    assert Targets([Task(None, Some(PLAIN))]) == [PLAIN];
  }

  /** An operation with an image of its own, where the specification has no overrides: none are stored. */
  lemma {:induction false} OwnImageIsNotStored()
    ensures var n := Run(NewApp(None), Requested(Request(PlainCtx().op, IMAGE), PlainWorld(), None));
            && |n.made| == 1 && Deployed(n.made[0]) == IMAGE.value
            && n.app.history == [Deployment(0, PlainEnv().revision, None)]
  {
    hide Run, TwoStep, Commit;
    PlainTwoSteps();
    StoredWithTheSpecification(PlainCtx().op, PlainWorld(), IMAGE, None, None);
  }

  /** An image that the specification gets only after the operation has applied: it is stored, but was not deployed. */
  lemma {:induction false} LaterImageIsStored()
    ensures var n := Run(NewApp(None), Requested(Request(PlainCtx().op, None), PlainWorld(), IMAGE));
            && |n.made| == 1 && Deployed(n.made[0]) == []
            && n.app.history == [Deployment(0, PlainEnv().revision, IMAGE)]
  {
    hide Run, TwoStep, Commit;
    PlainTwoSteps();
    StoredWithTheSpecification(PlainCtx().op, PlainWorld(), None, None, IMAGE);
  }

  /** A rollback to a deployment without overrides, after the specification has got an image: the image is deployed. */
  lemma {:induction false} RollbackDeploysLaterImage()
    ensures var first := Run(NewApp(None), Requested(Request(PlainCtx().op, None), PlainWorld(), None));
            var changed := Run(first, [SetSpec(false, IMAGE)]);
            var n := Run(changed, Requested(Request(PlainBack(), None), PlainWorld(), IMAGE));
            && first.app.history == [Deployment(0, PlainEnv().revision, None)]
            && GoesBackTo(PlainBack(), None, RollbackRequest(0, false, false), first.app.history[0])
            && |n.made| == 2 && Deployed(n.made[0]) == [] && Deployed(n.made[1]) == IMAGE.value
  {
    hide Run, TwoStep, Commit;
    PlainTwoSteps();
    RollbackTakesTheSpecification(PlainCtx().op, PlainBack(), PlainWorld(), RollbackRequest(0, false, false), IMAGE);
  }
}
