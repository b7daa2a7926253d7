/** One application over time: operations asked for by users or started by the automated sync, their steps, changes of
    the specification, and the deployment history. */
module AppLifecycle {
  import opened Kube
  import opened Git
  import opened ApplySync
  import opened HookSync
  import opened SyncRun
  import opened SyncTheorems
  import opened History

  /** An operation as it is requested. */
  datatype Request = Request(op: Operation, overrides: Overrides)

  datatype Record = Record(request: Request, st: OpState)

  datatype App = App(
    automated: bool,
    overrides: Overrides,
    operation: Option<Request>,
    state: Option<Record>,
    history: seq<Deployment>)

  /** An operation that was started: by whom, and the commit it has resolved, empty as long as it has none. */
  datatype Started = Started(auto: bool, request: Request, resolved: string)

  /** A step that was taken, and the overrides that the specification had then. */
  datatype Taken = Taken(step: Reconcile, spec: Overrides)

  /** The application, the operations started so far, the deployments made, which are the full syncs that succeeded, and
      the steps taken for the operation started last. */
  datatype State = State(app: App, log: seq<Started>, made: seq<Made>, steps: seq<Taken>)

  datatype Event =
    | Refresh(outOfSync: bool, commit: string, prune: bool, now: nat)
    | Ask(request: Request)
    | SetSpec(automated: bool, overrides: Overrides)
    | AskTermination
    | Operate(world: World)

  /** Whether the most recent operation was a sync to the commit with the overrides of the specification. */
  predicate AlreadyAttempted(a: App, commit: string) {
    && a.state.Some? && a.state.value.request.op.SyncOperation?
    && a.state.value.st.revision == commit && a.overrides == a.state.value.request.overrides
  }

  /** An operation is set only if none is pending; the state of the last one is dropped. */
  function SetOperation(s: State, auto: bool, request: Request): State {
    if s.app.operation.Some? then s
    else
      s.(app := s.app.(operation := Some(request), state := None),
         log := s.log + [Started(auto, request, "")],
         steps := [])
  }

  function AutoSync(s: State, outOfSync: bool, commit: string, prune: bool, now: nat): State {
    if !s.app.automated || s.app.operation.Some? || !outOfSync || AlreadyAttempted(s.app, commit) then s
    else
      SetOperation(s, true, Request(SyncOperation(commit, prune, false, DefaultStrategy, false, now), s.app.overrides))
  }

  function Current(a: App): Record
    requires a.operation.Some?
  {
    if a.state.Some? && !a.state.value.st.phase.Completed() then a.state.value else Record(a.operation.value, FRESH)
  }

  predicate ReallyApplies(op: Operation, r: Reconcile) {
    exists c :: c in Result(op, r).calls && c.RealApply()
  }

  /** The overrides of the specification at the last step that really applied; if there is none, those of now. */
  function AppliedSpec(op: Operation, steps: seq<Taken>, now: Overrides): Overrides {
    if |steps| == 0 then now
    else
      var n := |steps| - 1;
      if ReallyApplies(op, steps[n].step) then steps[n].spec else AppliedSpec(op, steps[..n], now)
  }

  /** One step of the pending operation. */
  function OperateOnce(s: State, world: World): State
    requires s.app.operation.Some? && s.log != []
  {
    var current, last, spec := Current(s.app), s.log[|s.log| - 1], s.app.overrides;
    var op := current.request.op;
    var result := Step(op, current.st, world);
    var recorded := result.history.Some? && result.post.phase.Succeeded?;
    var steps := s.steps + [Taken(Reconcile(current.st, world), spec)];
    State(
      s.app.(
        state := Some(Record(current.request, result.post)),
        operation := if result.post.phase.Completed() then None else s.app.operation,
        history := if recorded then Persist(s.app.history, result.history.value, Kept(spec)) else s.app.history),
      s.log[|s.log| - 1 := last.(resolved := result.post.revision)],
      if op.SyncOperation? && !op.dryRun && !op.partial && result.post.phase.Succeeded?
      then s.made + [Made(result.post.revision, current.request.overrides, AppliedSpec(op, steps, spec), spec)]
      else s.made,
      steps)
  }

  /** The repository answers with commits, and a comparison names one. */
  ghost predicate Sensible(e: Event) {
    && (e.Refresh? ==> IsCommitSHA(e.commit))
    && (e.Operate? ==> ResolvesCommits(e.world))
  }

  function Happen(s: State, e: Event): State {
    match e
    case Refresh(outOfSync, commit, prune, now) => AutoSync(s, outOfSync, commit, prune, now)
    case Ask(request) => SetOperation(s, false, request)
    case SetSpec(automated, overrides) => s.(app := s.app.(automated := automated, overrides := overrides))
    case AskTermination =>
      if s.app.state.Some? && s.app.state.value.st.phase.Running? && s.app.operation.Some?
      then s.(app := s.app.(state := Some(s.app.state.value.(st := s.app.state.value.st.(phase := Terminating)))))
      else s
    case Operate(world) => if s.app.operation.Some? && s.log != [] then OperateOnce(s, world) else s
  }

  function Run(s: State, events: seq<Event>): State {
    if events == [] then s else Happen(Run(s, events[..|events| - 1]), events[|events| - 1])
  }

  // ---------------------------------------------------------------------------------------------
  // The log follows the application
  // ---------------------------------------------------------------------------------------------

  ghost predicate Tracks(s: State) {
    && (s.app.operation.Some? || s.app.state.Some? <==> s.log != [])
    && (s.app.operation.Some? ==> s.log[|s.log| - 1].request == s.app.operation.value)
    && (match s.app.state
        case Some(record) =>
          && s.log[|s.log| - 1].request == record.request && s.log[|s.log| - 1].resolved == record.st.revision
          && (record.st.phase.Completed() <==> s.app.operation.None?)
          && (record.st.revision == "" || IsCommitSHA(record.st.revision))
        case None => s.log != [] ==> s.log[|s.log| - 1].resolved == "")
  }

  /** An automated sync asks for a commit, and if it resolves anything, then that. */
  ghost predicate AsksForCommit(a: Started) {
    a.auto ==>
      && a.request.op.SyncOperation? && IsCommitSHA(a.request.op.revision)
      && (a.resolved == "" || a.resolved == a.request.op.revision)
  }

  /** The automated sync b does not repeat what the automated sync a, right before it, has resolved. */
  ghost predicate NotAgain(a: Started, b: Started) {
    a.auto && b.auto && a.resolved != "" && b.request.op.SyncOperation? ==>
      a.resolved != b.request.op.revision || a.request.overrides != b.request.overrides
  }

  ghost predicate Inv(s: State) {
    && Tracks(s)
    && (forall i :: 0 <= i < |s.log| ==> AsksForCommit(s.log[i]))
    && (forall i :: 0 < i < |s.log| ==> NotAgain(s.log[i - 1], s.log[i]))
  }

  lemma {:induction false} SetOperationInv(s: State, auto: bool, request: Request)
    requires Inv(s) && s.app.operation.None?
    requires auto ==> request.op.SyncOperation? && IsCommitSHA(request.op.revision)
    requires auto ==> request.overrides == s.app.overrides && !AlreadyAttempted(s.app, request.op.revision)
    ensures Inv(SetOperation(s, auto, request))
  {
  }

  lemma {:induction false} OperateInv(s: State, world: World)
    requires Inv(s) && s.app.operation.Some? && ResolvesCommits(world)
    ensures Inv(OperateOnce(s, world))
  {
    hide Step, IsCommitSHA, ResolvesCommits;
    var k, n := |s.log| - 1, OperateOnce(s, world);
    var current := Current(s.app);
    assert current.request == s.log[k].request && current.st.revision == s.log[k].resolved;
    StepRevision(current.request.op, Reconcile(current.st, world));
    assert forall i :: 0 <= i < k ==> n.log[i] == s.log[i];
    assert AsksForCommit(s.log[k]);
    assert AsksForCommit(n.log[k]) by { hide ResolvesCommits; CommitIsNotEmpty(s.log[k].request.op); }
    assert k > 0 ==> NotAgain(s.log[k - 1], s.log[k]);
  }

  lemma {:induction false} CommitIsNotEmpty(op: Operation)
    ensures op.SyncOperation? && IsCommitSHA(op.revision) ==> op.revision != ""
  {
  }

  lemma {:induction false} HappenKeepsInv(s: State, e: Event)
    requires Inv(s) && Sensible(e)
    ensures Inv(Happen(s, e))
  {
    hide Step, IsCommitSHA, ResolvesCommits;
    match e
    case Refresh(outOfSync, commit, prune, now) =>
      if AutoSync(s, outOfSync, commit, prune, now) != s {
        var op := SyncOperation(commit, prune, false, DefaultStrategy, false, now);
        SetOperationInv(s, true, Request(op, s.app.overrides));
      }
    case Ask(request) => if s.app.operation.None? { SetOperationInv(s, false, request); }
    case SetSpec(automated, overrides) =>
    case AskTermination =>
    case Operate(world) => if s.app.operation.Some? { OperateInv(s, world); }
  }

  /** An application that has no operation yet. */
  predicate Start(s: State) {
    && s.app.operation.None? && s.app.state.None? && s.log == [] && s.made == [] && |s.steps| == 0
    && Consecutive(s.app.history) && |s.app.history| <= MAX_HISTORY
  }

  ghost predicate AllSensible(events: seq<Event>) {
    forall i :: 0 <= i < |events| ==> Sensible(events[i])
  }

  lemma {:induction false} RunKeepsInv(s: State, events: seq<Event>)
    requires Start(s) && AllSensible(events)
    ensures Inv(Run(s, events))
  {
    hide Happen, Sensible;
    if events != [] {
      var before := events[..|events| - 1];
      assert forall i :: 0 <= i < |before| ==> before[i] == events[i];
      RunKeepsInv(s, before);
      HappenKeepsInv(Run(s, before), events[|events| - 1]);
    }
  }

  /** No automated sync loop: of two operations that follow one another, both started by the automated sync and both
      having resolved a commit, the second has another commit or other overrides than the first. */
  lemma {:induction false} NoAutoSyncLoop(s: State, events: seq<Event>, i: nat)
    requires Start(s) && AllSensible(events) && 0 < i < |Run(s, events).log|
    requires var log := Run(s, events).log;
             log[i - 1].auto && log[i].auto && log[i - 1].resolved != "" && log[i].resolved != ""
    ensures var log := Run(s, events).log;
            log[i - 1].resolved != log[i].resolved || log[i - 1].request.overrides != log[i].request.overrides
  {
    hide Run, IsCommitSHA;
    RunKeepsInv(s, events);
    var log := Run(s, events).log;
    assert AsksForCommit(log[i]) && NotAgain(log[i - 1], log[i]);
  }

  // ---------------------------------------------------------------------------------------------
  // What starts and what stops an operation
  // ---------------------------------------------------------------------------------------------

  /** The state calls for an automated sync to the commit: the application is automated, nothing is pending, and the
      most recent operation was not a sync to that commit with the same overrides. */
  predicate CallsForSync(s: State, commit: string) {
    && s.app.automated && s.app.operation.None?
    && !(&& s.app.state.Some? && s.app.state.value.request.op.SyncOperation?
         && s.app.state.value.st.revision == commit && s.app.state.value.request.overrides == s.app.overrides)
  }

  /** The event is a refresh that starts the automated operation `a`: it found the application out of sync with the
      commit that `a` asks for, and the state called for it. */
  predicate StartsAutomatically(s: State, e: Event, a: Started) {
    && e.Refresh? && e.outOfSync && CallsForSync(s, e.commit) && a.auto && a.request.overrides == s.app.overrides
    && a.request.op == SyncOperation(e.commit, e.prune, false, DefaultStrategy, false, e.now)
  }

  /** What an event adds to the log of operations, if anything, and what it leaves of it. */
  lemma {:induction false} HappenLogs(s: State, e: Event)
    ensures var n := Happen(s, e).log;
            && |s.log| <= |n| <= |s.log| + 1
            && (forall i :: 0 <= i < |s.log| ==> n[i].auto == s.log[i].auto && n[i].request == s.log[i].request)
            && (|n| > |s.log| && n[|s.log|].auto ==> StartsAutomatically(s, e, n[|s.log|]))
            && (|n| > |s.log| && !n[|s.log|].auto ==>
                  e == Ask(n[|s.log|].request) && s.app.operation.None?)
  {
    hide Step;
  }

  /** Every automated operation of a run was started by a refresh that found the application out of sync, at a time when
      it was automated and idle and had not just been synced to that commit with those overrides. */
  lemma {:induction false} AutomatedByRefresh(s: State, events: seq<Event>, i: nat)
    requires Start(s) && i < |Run(s, events).log| && Run(s, events).log[i].auto
    ensures var started := Run(s, events).log[i].(resolved := "");
            exists j :: 0 <= j < |events| && StartsAutomatically(Run(s, events[..j]), events[j], started)
  {
    hide Happen, StartsAutomatically;
    if events != [] {
      var n := |events| - 1;
      var before, now := Run(s, events[..n]), Run(s, events);
      HappenLogs(before, events[n]);
      if i < |before.log| {
        AutomatedByRefresh(s, events[..n], i);
        var started := before.log[i].(resolved := "");
        var j :| 0 <= j < n && StartsAutomatically(Run(s, events[..n][..j]), events[..n][j], started);
        assert events[..n][..j] == events[..j];
        assert now.log[i].(resolved := "") == started;
      } else {
        StartsUnresolved(before, events[n], now.log[i]);
        assert events[..n] == events[..n][..n];
      }
    }
  }

  lemma {:induction false} StartsUnresolved(s: State, e: Event, a: Started)
    requires StartsAutomatically(s, e, a)
    ensures StartsAutomatically(s, e, a.(resolved := ""))
  {
  }

  /** The specification is what it was last set to. */
  lemma {:induction false} SpecificationIsAsSet(s: State, events: seq<Event>, j: nat)
    requires j < |events| && events[j].SetSpec? && forall k :: j < k < |events| ==> !events[k].SetSpec?
    ensures var n := Run(s, events).app; n.automated == events[j].automated && n.overrides == events[j].overrides
  {
    hide Step, AppliedSpec;
    var n := |events| - 1;
    if j < n { SpecificationIsAsSet(s, events[..n], j); }
  }

  /** An out-of-sync application that calls for it is synced, and one that is asked to operate and is idle does so; the
      next step is then the first of that operation. */
  lemma {:induction false} StartsWhenCalled(s: State, e: Event)
    requires e.Refresh? || e.Ask?
    ensures var n := Happen(s, e);
            if e.Ask? && s.app.operation.None? then n.app.operation == Some(e.request) && Current(n.app).st == FRESH
            else if e.Refresh? && e.outOfSync && CallsForSync(s, e.commit) then
              && n.log != [] && StartsAutomatically(s, e, n.log[|n.log| - 1]) && Current(n.app).st == FRESH
              && n.app.operation == Some(n.log[|n.log| - 1].request)
            else n == s
  {
  }

  /** An operation that is asked to terminate while it is running ends with its next step, Failed or in Error, and
      nothing is deployed. */
  lemma {:induction false} TerminationEnds(s: State, world: World)
    requires s.app.operation.Some? && s.log != [] && s.app.state.Some? && s.app.state.value.st.phase.Running?
    ensures var n := Happen(Happen(s, AskTermination), Operate(world));
            && n.app.operation.None? && n.made == s.made && n.app.history == s.app.history
            && n.app.state.Some? && (n.app.state.value.st.phase.Failed? || n.app.state.value.st.phase.Error?)
  {
    hide Step, AppliedSpec;
    var record := s.app.state.value;
    TerminatingResult(record.request.op, Reconcile(record.st.(phase := Terminating), world));
  }

  // ---------------------------------------------------------------------------------------------
  // The steps of an operation form a run
  // ---------------------------------------------------------------------------------------------

  function Path(steps: seq<Taken>): seq<Reconcile> {
    seq(|steps|, i requires 0 <= i < |steps| => steps[i].step)
  }

  /** Comparisons give valid tasks. */
  ghost predicate ValidWorld(world: World) {
    forall s :: world(s).Ready? ==> ValidTasks(world(s).env.tasks)
  }

  ghost predicate ValidEvents(events: seq<Event>) {
    forall i :: 0 <= i < |events| && events[i].Operate? ==> ValidWorld(events[i].world)
  }

  /** The steps taken so far are a run of the operation, and the persisted state follows from the last of them. */
  ghost predicate OnCourse(s: State) {
    match s.app.operation
    case Some(request) =>
      && s.log != [] && ValidRun(request.op, Path(s.steps))
      && (match s.app.state
          case None => s.steps == []
          case Some(record) =>
            && s.steps != [] && record.request == request
            && Follows(Result(request.op, s.steps[|s.steps| - 1].step).post, record.st))
    case None =>
      s.steps != [] ==>
        && s.app.state.Some? && s.app.state.value.st.phase.Completed()
        && ValidRun(s.app.state.value.request.op, Path(s.steps))
        && s.app.state.value.st == Result(s.app.state.value.request.op, s.steps[|s.steps| - 1].step).post
  }

  lemma {:induction false} OperateOnCourse(s: State, world: World)
    requires OnCourse(s) && s.app.operation.Some? && ValidWorld(world)
    ensures OnCourse(OperateOnce(s, world))
  {
    hide Step, ValidRun;
    var request, current := s.app.operation.value, Current(s.app);
    var r, run := Reconcile(current.st, world), Path(s.steps);
    assert current.request == request;
    assert s.steps != [] ==> run[|run| - 1] == s.steps[|s.steps| - 1].step;
    assert WorldOk(request.op, r);
    if s.steps != [] { FollowsGoesOn(request.op, run, current.st); }
    RunGoesOn(request.op, run, r);
    StepPhase(request.op, current.st, world);
    var n := OperateOnce(s, world);
    assert Path(n.steps) == run + [r];
  }

  lemma {:induction false} FollowsGoesOn(op: Operation, run: seq<Reconcile>, next: OpState)
    requires ValidRun(op, run) && run != [] && Follows(Result(op, run[|run| - 1]).post, next)
    ensures next.phase.Running? || next.phase.Terminating?
  {
    hide Step;
    var r := run[|run| - 1];
    StepPhase(op, r.pre, r.world);
  }

  lemma {:induction false} HappenOnCourse(s: State, e: Event)
    requires OnCourse(s) && (e.Operate? ==> ValidWorld(e.world))
    ensures OnCourse(Happen(s, e))
  {
    hide Step, WorldOk, ValidWorld;
    if e.Operate? && s.app.operation.Some? { OperateOnCourse(s, e.world); }
  }

  lemma {:induction false} RunOnCourse(s: State, events: seq<Event>)
    requires Start(s) && ValidEvents(events)
    ensures OnCourse(Run(s, events))
  {
    hide Happen, ValidWorld;
    if events != [] {
      var before := events[..|events| - 1];
      assert forall i :: 0 <= i < |before| ==> before[i] == events[i];
      RunOnCourse(s, before);
      HappenOnCourse(Run(s, before), events[|events| - 1]);
    } else {
      assert OnCourse(s) by { hide ValidRun; }
    }
  }

  /** Over any sequence of events, the steps taken for the operation started last form a valid run of it, from a fresh
      state and each step following the one before; so everything proved about runs holds of them. The operation is
      over exactly if the last of these steps completed it. */
  lemma {:induction false} StepsAreARun(s: State, events: seq<Event>)
    requires Start(s) && ValidEvents(events) && Run(s, events).steps != []
    ensures var n := Run(s, events);
            && n.app.state.Some?
            && var op := n.app.state.value.request.op;
            && ValidRun(op, Path(n.steps))
            && (n.app.operation.None? <==> Result(op, n.steps[|n.steps| - 1].step).post.phase.Completed())
            && (n.app.operation.Some? ==> n.app.operation.value == n.app.state.value.request)
  {
    hide Run, ValidRun, Step;
    RunOnCourse(s, events);
  }
}
