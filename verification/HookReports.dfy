/** What live hooks report, and that every recorded hook status is what the live object of that hook reported. */
module HookReports {
  import opened Kube
  import opened Text
  import opened Keyed
  import opened SyncState
  import opened ApplySync
  import opened HookSync
  import opened HookFacts

  // ---------------------------------------------------------------------------------------------
  // Reports
  // ---------------------------------------------------------------------------------------------

  /** The live object of the hook says that it has succeeded. Kinds that do not run succeed by being there. */
  predicate SaysSucceeded(h: Object, live: LiveHook) {
    if h.api.group == "batch" && h.kind == "Job" then
      live.wellFormed && JobComplete in live.conditions && JobFailed !in live.conditions
    else if h.api.group == "argoproj.io" && h.kind == "Workflow" then live.wellFormed && live.workflow == NodeSucceeded
    else if h.api.group == "" && h.kind == "Pod" then live.wellFormed && live.pod == PodSucceeded
    else true
  }

  predicate SaysFailed(h: Object, live: LiveHook) {
    || (h.api.group == "batch" && h.kind == "Job" && live.wellFormed && JobFailed in live.conditions)
    || (h.api.group == "argoproj.io" && h.kind == "Workflow" && live.wellFormed && live.workflow == NodeFailed)
    || (h.api.group == "" && h.kind == "Pod" && live.wellFormed && live.pod == PodFailed)
  }

  /** It says that something went wrong, or cannot be read. */
  predicate SaysError(h: Object, live: LiveHook) {
    || (h.api.group == "batch" && h.kind == "Job" && !live.wellFormed)
    || (h.api.group == "argoproj.io" && h.kind == "Workflow" && (!live.wellFormed || live.workflow == NodeError))
    || (h.api.group == "" && h.kind == "Pod" && (!live.wellFormed || live.pod == PodUnknown))
  }

  /** Whether the deletion policy asks for the hook to be deleted when it ends so. */
  predicate ToDelete(h: Object, live: LiveHook) {
    var policies := Annotation(h, DELETE_POLICY_ANNOTATION);
    || (SaysSucceeded(h, live) && ListHas(policies, "HookSucceeded"))
    || (SaysFailed(h, live) && ListHas(policies, "HookFailed"))
  }

  /** The live object that running the hook gets to see: the one that is there, or the one it has created. */
  function Seen(api: HookApi): Option<LiveHook> {
    if !api.discovered then None
    else
      match api.first
      case Found(live) => Some(live)
      case Missing => if api.applied && api.second.Found? then Some(api.second.live) else None
      case GetError => None
  }

  /** The status is what the live object says: Succeeded exactly if it says so and could be deleted where it had to be,
      Failed exactly if it says so or could not be deleted, Error exactly if it says so, and unfinished otherwise. */
  predicate Judged(h: Object, live: LiveHook, deleted: bool, status: OperationPhase) {
    && (status.Succeeded? <==> SaysSucceeded(h, live) && (ToDelete(h, live) ==> deleted))
    && (status.Failed? <==> SaysFailed(h, live) || (SaysSucceeded(h, live) && ToDelete(h, live) && !deleted))
    && (status.Error? <==> SaysError(h, live))
  }

  lemma {:induction false} LivePhaseSays(h: Object, live: LiveHook)
    ensures var phase := LivePhase(h.api, h.kind, live);
            && (phase.Succeeded? <==> SaysSucceeded(h, live))
            && (phase.Failed? <==> SaysFailed(h, live))
            && (phase.Error? <==> SaysError(h, live))
  {
  }

  // ---------------------------------------------------------------------------------------------
  // One hook
  // ---------------------------------------------------------------------------------------------

  /** The calls that running an unfinished hook makes: it is created if it is missing, and deleted if it is seen to have
      ended as its policy says. */
  function CallsFor(h: Object, key: HookKey, api: HookApi): seq<Call> {
    (if api.discovered && api.first.Missing? then [HookApplied(key, api.applied)] else [])
    + if Seen(api).Some? && ToDelete(h, Seen(api).value) then [HookDeleted(key, api.deleted)] else []
  }

  lemma {:induction false} RecordReports(m: Machine, h: Object, key: HookKey, live: LiveHook, deleted: bool)
    returns (status: OperationPhase)
    ensures var n := RecordHook(m, h, key, live, deleted);
            && n.hooks == Put(m.hooks, key, HookInfo(h.api, status)) && Judged(h, live, deleted, status)
            && n.calls == m.calls + if ToDelete(h, live) then [HookDeleted(key, deleted)] else []
  {
    hide LivePhase, SaysSucceeded, SaysFailed, SaysError, ListHas, Put;
    LivePhaseSays(h, live);
    var phase := LivePhase(h.api, h.kind, live);
    status := if ToDelete(h, live) && !deleted then Failed else phase;
  }

  /** An unfinished hook that is seen gets the status that it reports. */
  lemma {:induction false} SeenIsRecorded(ctx: Ctx, m: Machine, i: nat, t: HookType, key: HookKey)
    returns (status: OperationPhase)
    requires i < |ctx.hooks| && KeyFor(ctx.op, ctx.env.revision, ctx.hooks[i], t) == Some(key)
    requires !IsCompleted(m.hooks, key) && Seen(ctx.env.hookApi(i, t)).Some?
    ensures var r, h, api := RunHook(ctx, m, i, t), ctx.hooks[i], ctx.env.hookApi(i, t);
            && r.result.Updated? && r.m.hooks == Put(m.hooks, key, HookInfo(h.api, status))
            && Judged(h, Seen(api).value, api.deleted, status) && r.m.calls == m.calls + CallsFor(h, key, api)
            && r.m.resources == m.resources && (r.m.phase == m.phase || r.m.phase.Running?)
  {
    hide IsCompleted, KeyFor, LivePhase, Put, Judged, ToDelete;
    var h, api := ctx.hooks[i], ctx.env.hookApi(i, t);
    if api.first.Found? {
      status := RecordReports(m, h, key, api.first.live, api.deleted);
    } else {
      var made := m.(calls := m.calls + [HookApplied(key, api.applied)], phase := Running);
      status := RecordReports(made, h, key, api.second.live, api.deleted);
    }
  }

  /** Running a hook: one that is completed is left alone; of any other the status becomes what its live object reports,
      no other status changes, and it is an error exactly if no live object could be seen. */
  lemma {:induction false} RunHookReports(ctx: Ctx, m: Machine, i: nat, t: HookType)
    requires i < |ctx.hooks|
    ensures var r, h, api := RunHook(ctx, m, i, t), ctx.hooks[i], ctx.env.hookApi(i, t);
            match KeyFor(ctx.op, ctx.env.revision, h, t)
            case None => r.result.HookError? && r.m == m
            case Some(key) =>
              && (r.result.Unchanged? <==> IsCompleted(m.hooks, key)) && (r.result.Unchanged? ==> r.m == m)
              && (r.result.HookError? <==> !IsCompleted(m.hooks, key) && Seen(api).None?)
              && (!r.result.Unchanged? ==> r.m.calls == m.calls + CallsFor(h, key, api))
              && (r.result.HookError? ==> r.m.hooks == m.hooks)
              && (r.result.Updated? ==>
                    && (forall q :: q != key ==> Lookup(r.m.hooks, q) == Lookup(m.hooks, q))
                    && Lookup(r.m.hooks, key).Some?
                    && Judged(h, Seen(api).value, api.deleted, Lookup(r.m.hooks, key).value.status))
  {
    hide IsCompleted, KeyFor, RecordHook, Put, Judged, ToDelete, Lookup;
    var h, api, o := ctx.hooks[i], ctx.env.hookApi(i, t), KeyFor(ctx.op, ctx.env.revision, ctx.hooks[i], t);
    if o.Some? && !IsCompleted(m.hooks, o.value) && Seen(api).Some? {
      var status := SeenIsRecorded(ctx, m, i, t, o.value);
      var v := HookInfo(h.api, status);
      forall q ensures Lookup(Put(m.hooks, o.value, v), q) == if q == o.value then Some(v) else Lookup(m.hooks, q) {
        LookupPut(m.hooks, o.value, v, q);
      }
    }
  }

  // ---------------------------------------------------------------------------------------------
  // A step
  // ---------------------------------------------------------------------------------------------

  predicate HasRun(ctx: Ctx, key: HookKey) {
    exists j :: 0 <= j < |ctx.hooks| && IsRunOf(ctx, j, key)
  }

  predicate IsRunOf(ctx: Ctx, j: nat, key: HookKey)
    requires j < |ctx.hooks|
  {
    Runs(ctx.hooks[j], key.typ) && KeyFor(ctx.op, ctx.env.revision, ctx.hooks[j], key.typ) == Some(key)
  }

  /** The j-th hook, which runs under the key, was seen and gives the status. */
  predicate ReportsAs(ctx: Ctx, j: nat, key: HookKey, status: OperationPhase)
    requires j < |ctx.hooks|
  {
    var api := ctx.env.hookApi(j, key.typ);
    IsRunOf(ctx, j, key) && Seen(api).Some? && Judged(ctx.hooks[j], Seen(api).value, api.deleted, status)
  }

  /** The j-th hook, which runs under the key, was seen to say that it has succeeded. */
  predicate SeenSucceeding(ctx: Ctx, j: nat, key: HookKey)
    requires j < |ctx.hooks|
  {
    var api := ctx.env.hookApi(j, key.typ);
    IsRunOf(ctx, j, key) && Seen(api).Some? && SaysSucceeded(ctx.hooks[j], Seen(api).value)
  }

  ghost predicate Reported(ctx: Ctx, key: HookKey, status: OperationPhase) {
    exists j :: 0 <= j < |ctx.hooks| && ReportsAs(ctx, j, key, status)
  }

  /** Whatever status is not as before is what a live object of the hook reported. */
  ghost predicate Reports(ctx: Ctx, before: HookStatuses, after: HookStatuses) {
    forall key :: Lookup(after, key) != Lookup(before, key) ==>
      Lookup(after, key).Some? && Reported(ctx, key, Lookup(after, key).value.status)
  }

  lemma {:induction false} ReportsTransitive(ctx: Ctx, a: HookStatuses, b: HookStatuses, c: HookStatuses)
    requires Reports(ctx, a, b) && Reports(ctx, b, c)
    ensures Reports(ctx, a, c)
  {
  }

  lemma {:induction false} OneReports(ctx: Ctx, m: Machine, i: nat, t: HookType)
    requires i < |ctx.hooks| && Runs(ctx.hooks[i], t)
    ensures var r, o := RunHook(ctx, m, i, t), KeyFor(ctx.op, ctx.env.revision, ctx.hooks[i], t);
            && Reports(ctx, m.hooks, r.m.hooks)
            && (!r.result.HookError? ==>
                  && o.Some? && Lookup(r.m.hooks, o.value).Some?
                  && (IsCompleted(m.hooks, o.value) || Reported(ctx, o.value, Lookup(r.m.hooks, o.value).value.status)))
  {
    hide RunHook, KeyFor, Judged, Runs, Lookup, CallsFor, Seen;
    RunHookReports(ctx, m, i, t);
    KeyForType(ctx.op, ctx.env.revision, ctx.hooks[i], t);
    var r, o := RunHook(ctx, m, i, t), KeyFor(ctx.op, ctx.env.revision, ctx.hooks[i], t);
    if r.result.Updated? { assert ReportsAs(ctx, i, o.value, Lookup(r.m.hooks, o.value).value.status); }
  }

  /** Every hook of the phase from index i on was completed before, or its status is what it reported now. */
  ghost predicate AllReported(ctx: Ctx, before: HookStatuses, after: HookStatuses, t: HookType, i: nat) {
    forall j :: i <= j < |ctx.hooks| && Runs(ctx.hooks[j], t) ==>
      var o := KeyFor(ctx.op, ctx.env.revision, ctx.hooks[j], t);
      && o.Some? && Lookup(after, o.value).Some?
      && (IsCompleted(before, o.value) || Reported(ctx, o.value, Lookup(after, o.value).value.status))
  }

  lemma {:induction false} ReportedAll(ctx: Ctx, a: HookStatuses, b: HookStatuses, c: HookStatuses, t: HookType, i: nat)
    requires i < |ctx.hooks| && Reports(ctx, a, b) && Reports(ctx, b, c) && AllReported(ctx, b, c, t, i + 1)
    requires Runs(ctx.hooks[i], t) ==>
               var o := KeyFor(ctx.op, ctx.env.revision, ctx.hooks[i], t);
               && o.Some? && Lookup(b, o.value).Some?
               && (IsCompleted(a, o.value) || Reported(ctx, o.value, Lookup(b, o.value).value.status))
    ensures AllReported(ctx, a, c, t, i)
  {
    hide Runs, KeyFor, Reported, Lookup;
    forall j | i <= j < |ctx.hooks| && Runs(ctx.hooks[j], t)
      ensures var o := KeyFor(ctx.op, ctx.env.revision, ctx.hooks[j], t);
              && o.Some? && Lookup(c, o.value).Some?
              && (IsCompleted(a, o.value) || Reported(ctx, o.value, Lookup(c, o.value).value.status))
    {
      assert KeyFor(ctx.op, ctx.env.revision, ctx.hooks[j], t).Some?;
    }
  }

  /** A pass over the hooks of a phase that does not fail polls every one of them that is unfinished. */
  lemma {:induction false} PassReports(ctx: Ctx, m: Machine, t: HookType, i: nat, updated: bool)
    requires i <= |ctx.hooks|
    ensures var p := HookPass(ctx, m, t, i, updated);
            Reports(ctx, m.hooks, p.m.hooks) && (!p.failed ==> AllReported(ctx, m.hooks, p.m.hooks, t, i))
    decreases |ctx.hooks| - i
  {
    hide RunHook, Runs, Reports, AllReported, KeyFor, Reported, Lookup, IsHookType;
    assert Reports(ctx, m.hooks, m.hooks) by { SameReports(ctx, m.hooks); }
    if i == |ctx.hooks| {
      assert AllReported(ctx, m.hooks, m.hooks, t, i) by { NoneReported(ctx, m.hooks, t); }
    } else if Skips(ctx.hooks[i], t) {
      SkippedRunsNot(ctx.hooks[i], t);
      var skipped := m.(resources := Put(m.resources, KeyOf(ctx.hooks[i]), NoStatus));
      PassReports(ctx, skipped, t, i + 1, updated);
      var p := HookPass(ctx, skipped, t, i + 1, updated);
      if !p.failed { ReportedAll(ctx, m.hooks, m.hooks, p.m.hooks, t, i); }
    } else if !Runs(ctx.hooks[i], t) {
      PassReports(ctx, m, t, i + 1, updated);
      var p := HookPass(ctx, m, t, i + 1, updated);
      if !p.failed { ReportedAll(ctx, m.hooks, m.hooks, p.m.hooks, t, i); }
    } else {
      var r := RunHook(ctx, m, i, t);
      OneReports(ctx, m, i, t);
      if !r.result.HookError? {
        PassReports(ctx, r.m, t, i + 1, updated || r.result.Updated?);
        var p := HookPass(ctx, r.m, t, i + 1, updated || r.result.Updated?);
        ReportsTransitive(ctx, m.hooks, r.m.hooks, p.m.hooks);
        if !p.failed { ReportedAll(ctx, m.hooks, r.m.hooks, p.m.hooks, t, i); }
      }
    }
  }

  lemma {:induction false} SameReports(ctx: Ctx, hooks: HookStatuses)
    ensures Reports(ctx, hooks, hooks)
  {
  }

  lemma {:induction false} NoneReported(ctx: Ctx, hooks: HookStatuses, t: HookType)
    ensures AllReported(ctx, hooks, hooks, t, |ctx.hooks|)
  {
  }

  lemma {:induction false} SkippedRunsNot(h: Object, t: HookType)
    requires Skips(h, t)
    ensures !Runs(h, t)
  {
  }

  lemma {:induction false} PhaseReports(ctx: Ctx, m: Machine, t: HookType)
    ensures Reports(ctx, m.hooks, RunHooks(ctx, m, t).m.hooks)
  {
    hide HookPass, Reports;
    PassReports(ctx, m, t, 0, false);
  }

  lemma {:induction false} SyncPartReports(ctx: Ctx, m: Machine)
    requires ctx.op.SyncOperation?
    ensures Reports(ctx, m.hooks, SyncPart(ctx, m).hooks)
  {
    hide RunHooks, Reports, DoApply;
    SameReports(ctx, m.hooks);
    PhaseReports(ctx, m, Sync);
    var s := RunHooks(ctx, m, Sync).m;
    PhaseReports(ctx, s, PostSync);
    ReportsTransitive(ctx, m.hooks, s.hooks, RunHooks(ctx, s, PostSync).m.hooks);
    PhaseReports(ctx, RunApply(ctx, m, RealMode(ctx.op), NonHookTasks(ctx.env.tasks)).m, Sync);
  }

  /** Whatever hook status a step leaves behind that is not as before is what a live object of that hook reported in
      that step. */
  lemma {:induction false} StepReports(ctx: Ctx, m: Machine)
    requires ctx.op.SyncOperation? && ctx.op.strategy.UsesHooks()
    ensures Reports(ctx, m.hooks, SyncOnce(ctx, m).hooks)
  {
    hide RunHooks, Reports, DoApply, SyncPart, VerifyHooks;
    SameReports(ctx, m.hooks);
    PreSyncReports(ctx, m);
    PreSyncReports(ctx, RunApply(ctx, m, DryMode(ctx.op), ctx.env.tasks).m);
  }

  lemma {:induction false} PreSyncReports(ctx: Ctx, m: Machine)
    requires ctx.op.SyncOperation?
    ensures Reports(ctx, m.hooks, DoHookSync(ctx, m).hooks)
  {
    hide RunHooks, Reports, SyncPart, VerifyHooks;
    SameReports(ctx, m.hooks);
    PhaseReports(ctx, m, PreSync);
    var p := RunHooks(ctx, m, PreSync).m;
    SyncPartReports(ctx, p);
    ReportsTransitive(ctx, m.hooks, p.hooks, SyncPart(ctx, p).hooks);
  }
}
