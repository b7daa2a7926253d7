/** One reconcile step of a sync operation, as a function of the persisted state and of the answers the
    outside world gives during the step. */
module HookSync {
  import opened Kube
  import opened Text
  import opened Keyed
  import opened SyncState
  import opened ApplySync

  // ---------------------------------------------------------------------------------------------
  // Live hook objects
  // ---------------------------------------------------------------------------------------------

  datatype JobCondition = JobFailed | JobComplete | OtherCondition
  datatype WorkflowPhase = NodePending | NodeRunning | NodeSucceeded | NodeFailed | NodeError | OtherNode
  datatype PodPhase = PodPending | PodRunning | PodSucceeded | PodFailed | PodUnknown | OtherPod

  /** The status part of a live hook; only the part that belongs to its kind is read. */
  datatype LiveHook = LiveHook(
    wellFormed: bool, conditions: seq<JobCondition>, workflow: WorkflowPhase, pod: PodPhase)

  predicate IsBatchJob(api: ApiVersion, kind: string) { api.group == "batch" && kind == "Job" }
  predicate IsArgoWorkflow(api: ApiVersion, kind: string) { api.group == "argoproj.io" && kind == "Workflow" }
  predicate IsPod(api: ApiVersion, kind: string) { api.group == "" && kind == "Pod" }

  /** The kinds that run to completion, and so may have to be stopped. */
  predicate IsRunnable(api: ApiVersion, kind: string) {
    IsBatchJob(api, kind) || IsArgoWorkflow(api, kind) || IsPod(api, kind)
  }

  function JobPhase(conditions: seq<JobCondition>): OperationPhase {
    if JobFailed in conditions then Failed
    else if JobComplete in conditions then Succeeded
    else Running
  }

  function LivePhase(api: ApiVersion, kind: string, live: LiveHook): OperationPhase {
    if !IsRunnable(api, kind) then Succeeded
    else if !live.wellFormed then Error
    else if IsBatchJob(api, kind) then JobPhase(live.conditions)
    else if IsArgoWorkflow(api, kind) then
      match live.workflow
      case NodePending => Running
      case NodeRunning => Running
      case NodeSucceeded => Succeeded
      case NodeFailed => Failed
      case NodeError => Error
      case OtherNode => Unset
    else
      match live.pod
      case PodPending => Running
      case PodRunning => Running
      case PodSucceeded => Succeeded
      case PodFailed => Failed
      case PodUnknown => Error
      case OtherPod => Unset
  }

  // ---------------------------------------------------------------------------------------------
  // Operations and what a step sees
  // ---------------------------------------------------------------------------------------------

  datatype Strategy = DefaultStrategy | ApplyStrategy(force: bool) | HookStrategy(force: bool) | UnknownStrategy
  {
    predicate UsesHooks() { DefaultStrategy? || HookStrategy? }
    function Force(): bool { !UnknownStrategy? && !DefaultStrategy? && force }
  }

  datatype Operation =
    | NoOperation
    | SyncOperation(revision: string, prune: bool, dryRun: bool, strategy: Strategy, partial: bool, startedAt: nat)

  datatype GetReply = Found(live: LiveHook) | Missing | GetError

  /** The replies to the calls that running one hook may make, in the order they are made. */
  datatype HookApi = HookApi(discovered: bool, first: GetReply, applied: bool, second: GetReply, deleted: bool)

  datatype Health = HealthUnknown | Healthy | NotHealthy

  /** What a step sees once the comparison succeeded and the clients are set up: the commit and manifests that
      were generated, the sorted sync tasks, and the replies to its calls. */
  datatype StepEnv = StepEnv(
    revision: string,
    manifests: seq<Object>,
    tasks: seq<Task>,
    hookApi: (nat, HookType) -> HookApi,
    hookKinds: nat -> Discovery,
    cluster: ApplyEnv,
    health: Health,
    deleted: HookKey -> bool,
    recorded: bool)

  datatype Env = CompareFailed | ErrorConditions | Unready(revision: string) | Ready(env: StepEnv)

  /** A comparison is made at a requested revision, so the world answers for every one of them. */
  type World = string -> Env

  /** The persisted part of an operation. */
  datatype OpState = OpState(
    phase: OperationPhase, revision: string, hooks: HookStatuses, resources: Resources)

  const FRESH := OpState(Running, "", [], [])

  // ---------------------------------------------------------------------------------------------
  // Running hooks
  // ---------------------------------------------------------------------------------------------

  /** The state a step works on, with the calls it has made so far. */
  datatype Machine = Machine(
    phase: OperationPhase, hooks: HookStatuses, resources: Resources, calls: seq<Call>)

  /** What stays fixed during a step. */
  datatype Ctx = Ctx(op: Operation, env: StepEnv, hooks: seq<Object>)

  function ArgoHooks(manifests: seq<Object>): (hooks: seq<Object>)
    ensures forall i :: 0 <= i < |hooks| ==> IsArgoHook(hooks[i])
  {
    if manifests == [] then []
    else
      var before := ArgoHooks(manifests[..|manifests| - 1]);
      var o := manifests[|manifests| - 1];
      if IsArgoHook(o) then before + [o] else before
  }

  function StartedAt(op: Operation): nat {
    if op.NoOperation? then 0 else op.startedAt
  }

  /** The identity of a hook in a phase. A name that is generated is made of the commit, the phase and the start
      time; with a commit of fewer than seven characters the source panics. */
  function KeyFor(op: Operation, revision: string, h: Object, t: HookType): Option<HookKey> {
    if h.name != "" then Some(HookKey(h.name, h.kind, t))
    else if |revision| < 7 then None
    else
      var postfix := Lower(revision[..7] + "-" + TypeName(t) + "-" + Decimal(StartedAt(op)));
      Some(HookKey(h.generateName + postfix, h.kind, t))
  }

  datatype HookResult = Unchanged | Updated | HookError

  datatype HookRun = HookRun(m: Machine, result: HookResult)

  /** Records the phase of a live hook, deleting the object first if its policy says so. */
  function RecordHook(m: Machine, h: Object, key: HookKey, live: LiveHook, deleted: bool): Machine {
    var phase := LivePhase(h.api, h.kind, live);
    if phase.Completed() && DeletesHook(h, phase) then
      m.(calls := m.calls + [HookDeleted(key, deleted)],
         hooks := Put(m.hooks, key, HookInfo(h.api, if deleted then phase else Failed)))
    else
      m.(hooks := Put(m.hooks, key, HookInfo(h.api, phase)))
  }

  /** Runs one hook. A completed hook is left alone. Any other is looked up, created if it is missing, and its
      status recorded, which always counts as a change. */
  function RunHook(ctx: Ctx, m: Machine, i: nat, t: HookType): HookRun
    requires i < |ctx.hooks|
  {
    var h := ctx.hooks[i];
    match KeyFor(ctx.op, ctx.env.revision, h, t)
    case None => HookRun(m, HookError)
    case Some(key) =>
      if IsCompleted(m.hooks, key) then HookRun(m, Unchanged)
      else
        var api := ctx.env.hookApi(i, t);
        if !api.discovered then HookRun(m, HookError)
        else
          match api.first
          case GetError => HookRun(m, HookError)
          case Found(live) => HookRun(RecordHook(m, h, key, live, api.deleted), Updated)
          case Missing =>
            var made := m.(calls := m.calls + [HookApplied(key, api.applied)]);
            if !api.applied || !api.second.Found? then HookRun(made, HookError)
            else HookRun(RecordHook(made.(phase := Running), h, key, api.second.live, api.deleted), Updated)
  }

  predicate Skips(h: Object, t: HookType) {
    t == Sync && IsHookType(h, Skip)
  }

  /** Whether a hook is run in a phase: hooks that are also marked Skip do not run in the Sync phase. */
  predicate Runs(h: Object, t: HookType) {
    IsHookType(h, t) && !Skips(h, t)
  }

  datatype Pass = Pass(m: Machine, failed: bool, updated: bool)

  /** The hooks from index i on, in order, stopping at the first error. */
  function HookPass(ctx: Ctx, m: Machine, t: HookType, i: nat, updated: bool): Pass
    requires i <= |ctx.hooks|
    decreases |ctx.hooks| - i
  {
    if i == |ctx.hooks| then Pass(m, false, updated)
    else if Skips(ctx.hooks[i], t) then
      HookPass(ctx, m.(resources := Put(m.resources, KeyOf(ctx.hooks[i]), NoStatus)), t, i + 1, updated)
    else if !Runs(ctx.hooks[i], t) then HookPass(ctx, m, t, i + 1, updated)
    else
      var r := RunHook(ctx, m, i, t);
      if r.result.HookError? then Pass(r.m.(phase := Error), true, updated)
      else HookPass(ctx, r.m, t, i + 1, updated || r.result.Updated?)
  }

  datatype PhaseRun = PhaseRun(m: Machine, go: bool)

  /** All hooks of a phase. The next phase may start only if nothing changed and everything succeeded. */
  function RunHooks(ctx: Ctx, m: Machine, t: HookType): PhaseRun {
    var p := HookPass(ctx, m, t, 0, false);
    if p.failed || p.updated || !AllCompleted(p.m.hooks, t) then PhaseRun(p.m, false)
    else if !AllSuccessful(p.m.hooks, t) then PhaseRun(p.m.(phase := Failed), false)
    else PhaseRun(p.m, true)
  }

  // ---------------------------------------------------------------------------------------------
  // A hook sync
  // ---------------------------------------------------------------------------------------------

  predicate StartedPreSync(m: Machine) {
    m.resources != [] || m.hooks != []
  }

  predicate StartedSync(m: Machine) {
    m.resources != [] || HasType(m.hooks, Sync) || HasType(m.hooks, PostSync)
  }

  predicate StartedPostSync(m: Machine) {
    HasType(m.hooks, PostSync)
  }

  /** The phase that ends the operation at the first hook from index i on that the project does not allow. */
  function VerifyHooks(ctx: Ctx, i: nat): Option<OperationPhase>
    requires i <= |ctx.hooks|
    decreases |ctx.hooks| - i
  {
    if i == |ctx.hooks| then None
    else
      var h := ctx.hooks[i];
      match ctx.env.hookKinds(i)
      case Served(namespaced) =>
        if ctx.env.cluster.permitted(h.api.group, h.kind, namespaced) then VerifyHooks(ctx, i + 1) else Some(Failed)
      case NotFound => Some(Error)
      case Unavailable => Some(Error)
  }

  predicate IsNonHookTask(t: Task) {
    t.target.None? || !Annotated(t.target.value)
  }

  /** The tasks that a hook sync applies itself: everything without a hook annotation. */
  function NonHookTasks(tasks: seq<Task>): (r: seq<Task>)
    ensures forall i :: 0 <= i < |r| ==> IsNonHookTask(r[i])
  {
    if tasks == [] then []
    else
      var before := NonHookTasks(tasks[..|tasks| - 1]);
      var t := tasks[|tasks| - 1];
      if IsNonHookTask(t) then before + [t] else before
  }

  function RealMode(op: Operation): Mode
    requires op.SyncOperation?
  {
    Mode(false, op.strategy.Force(), true, op.prune)
  }

  function RunApply(ctx: Ctx, m: Machine, mode: Mode, tasks: seq<Task>): PhaseRun {
    var a := DoApply(ctx.env.cluster, mode, tasks, m.resources);
    PhaseRun(m.(resources := a.resources, calls := m.calls + a.calls), a.ok)
  }

  predicate HasPostSync(hooks: seq<Object>) {
    exists i :: 0 <= i < |hooks| && IsHookType(hooks[i], PostSync)
  }

  function PostSyncPart(ctx: Ctx, m: Machine): Machine {
    if HasPostSync(ctx.hooks) && !StartedPostSync(m) && !ctx.env.health.Healthy? then
      m.(phase := if ctx.env.health.HealthUnknown? then Error else Running)
    else
      var p := RunHooks(ctx, m, PostSync);
      if p.go then p.m.(phase := Succeeded) else p.m
  }

  function SyncPart(ctx: Ctx, m: Machine): Machine
    requires ctx.op.SyncOperation?
  {
    if StartedSync(m) then
      var s := RunHooks(ctx, m, Sync);
      if s.go then PostSyncPart(ctx, s.m) else s.m
    else
      var a := RunApply(ctx, m, RealMode(ctx.op), NonHookTasks(ctx.env.tasks));
      if a.go then RunHooks(ctx, a.m, Sync).m else a.m.(phase := Failed)
  }

  function DoHookSync(ctx: Ctx, m: Machine): Machine
    requires ctx.op.SyncOperation?
  {
    var verdict := if StartedPreSync(m) then None else VerifyHooks(ctx, 0);
    if verdict.Some? then m.(phase := verdict.value)
    else
      var p := RunHooks(ctx, m, PreSync);
      if p.go then SyncPart(ctx, p.m) else p.m
  }

  // ---------------------------------------------------------------------------------------------
  // A step
  // ---------------------------------------------------------------------------------------------

  function ByStrategy(ctx: Ctx, m: Machine): Machine
    requires ctx.op.SyncOperation?
  {
    match ctx.op.strategy
    case ApplyStrategy(force) =>
      if StartedSync(m) then m.(phase := Succeeded)
      else
        var a := RunApply(ctx, m, RealMode(ctx.op), ctx.env.tasks);
        if a.go then a.m else a.m.(phase := Failed)
    case UnknownStrategy => m.(phase := Failed)
    case _ => DoHookSync(ctx, m)
  }

  function DryMode(op: Operation): Mode
    requires op.SyncOperation?
  {
    Mode(true, false, op.dryRun, op.prune)
  }

  function SyncOnce(ctx: Ctx, m: Machine): Machine
    requires ctx.op.SyncOperation?
  {
    if ctx.env.tasks == [] then m.(phase := Succeeded)
    else if StartedPreSync(m) then ByStrategy(ctx, m)
    else
      var dry := RunApply(ctx, m, DryMode(ctx.op), ctx.env.tasks);
      if !dry.go then dry.m.(phase := Failed)
      else if ctx.op.dryRun then dry.m.(phase := Succeeded)
      else ByStrategy(ctx, dry.m)
  }

  /** Whether termination deletes the hook. */
  predicate ToStop(e: Entry<HookKey, HookInfo>) {
    !e.value.status.Completed() && IsRunnable(e.value.api, e.key.kind)
  }

  datatype Stop = Stop(m: Machine, ok: bool)

  /** Termination from index i on: an unfinished hook that can run is failed, both in place and through the
      keyed update, and deleted. */
  function StopHooks(m: Machine, deleted: HookKey -> bool, i: nat, ok: bool): Stop
    requires i <= |m.hooks|
    decreases |m.hooks| - i
  {
    if i == |m.hooks| then Stop(m, ok)
    else
      var e := m.hooks[i];
      if !ToStop(e) then StopHooks(m, deleted, i + 1, ok)
      else
        var failed := HookInfo(e.value.api, Failed);
        var inPlace := m.hooks[i := Entry(e.key, failed)];
        assert inPlace[i].key == e.key;
        PutKeepsLength(inPlace, e.key, failed, i);
        StopHooks(
          m.(hooks := Put(inPlace, e.key, failed), calls := m.calls + [HookDeleted(e.key, deleted(e.key))]),
          deleted, i + 1, ok && deleted(e.key))
  }

  lemma {:induction false} PutKeepsLength<K, V>(s: seq<Entry<K, V>>, k: K, v: V, i: nat)
    requires i < |s| && s[i].key == k
    ensures |Put(s, k, v)| == |s|
  {
    PutEntries(s, k, v);
  }

  function Terminate(m: Machine, deleted: HookKey -> bool): Machine {
    var s := StopHooks(m, deleted, 0, true);
    s.m.(phase := if s.ok then Failed else Error)
  }

  function EffectiveRevision(op: Operation, st: OpState): string
    requires op.SyncOperation?
  {
    if st.revision == "" then op.revision else st.revision
  }

  /** The result of a step. `history` is the commit it recorded, or tried to record, as deployed. */
  datatype StepResult = StepResult(post: OpState, calls: seq<Call>, history: Option<string>)

  /** The state that a step starts from, with no call made yet. */
  function MachineOf(st: OpState): Machine {
    Machine(st.phase, st.hooks, st.resources, [])
  }

  function Execute(op: Operation, st: OpState, env: StepEnv): Machine
    requires op.SyncOperation?
  {
    var m := MachineOf(st);
    if st.phase.Terminating? then Terminate(m, env.deleted)
    else SyncOnce(Ctx(op, env, ArgoHooks(env.manifests)), m)
  }

  function Step(op: Operation, st: OpState, world: World): StepResult {
    if op.NoOperation? then StepResult(st.(phase := Failed), [], None)
    else
      match world(EffectiveRevision(op, st))
      case CompareFailed => StepResult(st.(phase := Error), [], None)
      case ErrorConditions => StepResult(st.(phase := Error), [], None)
      case Unready(revision) => StepResult(st.(phase := Error, revision := revision), [], None)
      case Ready(env) =>
        var m := Execute(op, st, env);
        if !op.dryRun && !op.partial && m.phase.Succeeded? then
          StepResult(
            OpState(if env.recorded then Succeeded else Error, env.revision, m.hooks, m.resources),
            m.calls, Some(env.revision))
        else
          StepResult(OpState(m.phase, env.revision, m.hooks, m.resources), m.calls, None)
  }
}
