/** What running the hooks of one phase can and cannot change. */
module HookFacts {
  import opened Kube
  import opened Keyed
  import opened SyncState
  import opened ApplySync
  import opened HookSync

  /** The hooks of a sync are exactly the manifests marked PreSync, Sync or PostSync, in order. */
  lemma {:induction false} ArgoHooksAre(a: seq<Object>, b: seq<Object>, x: Object)
    ensures ArgoHooks(a + b) == ArgoHooks(a) + ArgoHooks(b)
    ensures ArgoHooks([x]) == if IsArgoHook(x) then [x] else []
  {
    hide IsHookType;
    assert [x][..0] == [];
    if b == [] {
      assert a + b == a;
    } else {
      ArgoHooksAre(a, b[..|b| - 1], x);
      assert (a + b)[..|a + b| - 1] == a + b[..|b| - 1];
    }
  }

  /** Exactly the tasks with an annotated target are left out, and the others stay in order. */
  lemma {:induction false} NonHookTasksAre(a: seq<Task>, b: seq<Task>, x: Task)
    ensures NonHookTasks(a + b) == NonHookTasks(a) + NonHookTasks(b)
    ensures NonHookTasks([x]) == if x.target.Some? && Annotated(x.target.value) then [] else [x]
  {
    hide Annotated;
    assert [x][..0] == [];
    if b == [] {
      assert a + b == a;
    } else {
      NonHookTasksAre(a, b[..|b| - 1], x);
      assert (a + b)[..|a + b| - 1] == a + b[..|b| - 1];
    }
  }

  /** Every unfinished hook is of a kind that runs to completion. */
  predicate UnfinishedRun(hooks: HookStatuses) {
    forall i :: 0 <= i < |hooks| ==>
      hooks[i].value.status.Completed() || IsRunnable(hooks[i].value.api, hooks[i].key.kind)
  }

  /** The hook lists of reachable states: one status per hook and phase, unfinished only if still running. */
  ghost predicate GoodHooks(hooks: HookStatuses) {
    Distinct(hooks) && UnfinishedRun(hooks)
  }

  /** A call made on behalf of a hook of type t that had not completed. */
  predicate HookCall(hooks: HookStatuses, t: HookType, c: Call) {
    && (c.HookApplied? || c.HookDeleted?)
    && c.hook.typ == t
    && !IsCompleted(hooks, c.hook)
  }

  ghost predicate HookCalls(hooks: HookStatuses, t: HookType, before: seq<Call>, after: seq<Call>) {
    && |before| <= |after|
    && after[..|before|] == before
    && forall k :: |before| <= k < |after| ==> HookCall(hooks, t, after[k])
  }

  /** Completed statuses and statuses of other phases stay as they are. */
  ghost predicate Frozen(t: HookType, before: HookStatuses, after: HookStatuses) {
    && (forall k: HookKey :: IsCompleted(before, k) ==> Lookup(after, k) == Lookup(before, k))
    && (forall k: HookKey :: k.typ != t ==> Lookup(after, k) == Lookup(before, k))
    && (forall u :: HasType(before, u) ==> HasType(after, u))
    && (forall u :: HasType(after, u) ==> HasType(before, u) || u == t)
  }

  ghost predicate Evolves(t: HookType, m: Machine, n: Machine) {
    && Frozen(t, m.hooks, n.hooks)
    && (GoodHooks(m.hooks) ==> GoodHooks(n.hooks))
    && HookCalls(m.hooks, t, m.calls, n.calls)
    && |m.resources| <= |n.resources|
    && (t != Sync ==> n.resources == m.resources)
  }

  lemma {:induction false} EvolvesTransitive(t: HookType, a: Machine, b: Machine, c: Machine)
    requires Evolves(t, a, b) && Evolves(t, b, c)
    ensures Evolves(t, a, c)
  {
  }

  lemma {:induction false} PutFrozen(t: HookType, hooks: HookStatuses, key: HookKey, v: HookInfo)
    requires key.typ == t && !IsCompleted(hooks, key)
    ensures Frozen(t, hooks, Put(hooks, key, v))
    ensures GoodHooks(hooks) && (v.status.Completed() || IsRunnable(v.api, key.kind)) ==> GoodHooks(Put(hooks, key, v))
  {
    forall k ensures Lookup(Put(hooks, key, v), k) == if k == key then Some(v) else Lookup(hooks, k) {
      LookupPut(hooks, key, v, k);
    }
    forall u ensures HasType(Put(hooks, key, v), u) <==> HasType(hooks, u) || u == t { PutHasType(hooks, key, v, u); }
    if GoodHooks(hooks) {
      PutDistinct(hooks, key, v);
      PutEntries(hooks, key, v);
    }
  }

  lemma {:induction false} RecordHookEvolves(m: Machine, h: Object, key: HookKey, live: LiveHook, deleted: bool)
    requires !IsCompleted(m.hooks, key) && key.kind == h.kind
    ensures Evolves(key.typ, m, RecordHook(m, h, key, live, deleted))
  {
    hide DeletesHook;
    var phase := LivePhase(h.api, h.kind, live);
    PutFrozen(key.typ, m.hooks, key, HookInfo(h.api, if deleted then phase else Failed));
    PutFrozen(key.typ, m.hooks, key, HookInfo(h.api, phase));
  }

  lemma {:induction false} EvolvesSame(t: HookType, m: Machine)
    ensures Evolves(t, m, m)
  {
  }

  /** Creating a hook that has not completed. */
  lemma {:induction false} EvolvesCall(m: Machine, key: HookKey, ok: bool)
    requires !IsCompleted(m.hooks, key)
    ensures var made := m.(calls := m.calls + [HookApplied(key, ok)]);
            Evolves(key.typ, m, made) && Evolves(key.typ, m, made.(phase := Running))
  {
  }

  lemma {:induction false} RunHookEvolves(ctx: Ctx, m: Machine, i: nat, t: HookType)
    requires i < |ctx.hooks|
    ensures Evolves(t, m, RunHook(ctx, m, i, t).m)
    ensures RunHook(ctx, m, i, t).result.Unchanged? ==> RunHook(ctx, m, i, t).m == m
  {
    hide RecordHook, Evolves, IsCompleted, KeyFor;
    var h := ctx.hooks[i];
    var o := KeyFor(ctx.op, ctx.env.revision, h, t);
    EvolvesSame(t, m);
    if o.Some? && !IsCompleted(m.hooks, o.value) {
      KeyForType(ctx.op, ctx.env.revision, h, t);
      var api := ctx.env.hookApi(i, t);
      var made := m.(calls := m.calls + [HookApplied(o.value, api.applied)]);
      EvolvesCall(m, o.value, api.applied);
      if api.first.Found? { RecordHookEvolves(m, h, o.value, api.first.live, api.deleted); }
      if api.second.Found? {
        RecordHookEvolves(made.(phase := Running), h, o.value, api.second.live, api.deleted);
        EvolvesTransitive(t, m, made.(phase := Running),
                          RecordHook(made.(phase := Running), h, o.value, api.second.live, api.deleted));
      }
    }
  }

  /** A pass over the hooks of a phase keeps everything that is settled, whatever the cluster answers. */
  lemma {:induction false} PassEvolves(ctx: Ctx, m: Machine, t: HookType, i: nat, updated: bool)
    requires i <= |ctx.hooks|
    ensures Evolves(t, m, HookPass(ctx, m, t, i, updated).m)
    ensures HookPass(ctx, m, t, i, updated).failed ==> HookPass(ctx, m, t, i, updated).m.phase.Error?
    decreases |ctx.hooks| - i
  {
    hide RunHook, IsHookType;
    if i < |ctx.hooks| {
      if Skips(ctx.hooks[i], t) {
        var skipped := m.(resources := Put(m.resources, KeyOf(ctx.hooks[i]), NoStatus));
        assert Evolves(t, m, skipped);
        PassEvolves(ctx, skipped, t, i + 1, updated);
        EvolvesTransitive(t, m, skipped, HookPass(ctx, skipped, t, i + 1, updated).m);
      } else if !Runs(ctx.hooks[i], t) {
        PassEvolves(ctx, m, t, i + 1, updated);
      } else {
        var r := RunHook(ctx, m, i, t);
        RunHookEvolves(ctx, m, i, t);
        if !r.result.HookError? {
          PassEvolves(ctx, r.m, t, i + 1, updated || r.result.Updated?);
          EvolvesTransitive(t, m, r.m, HookPass(ctx, r.m, t, i + 1, updated || r.result.Updated?).m);
        }
      }
    }
  }

  /** Every hook that runs in the phase has a completed status. */
  predicate PhaseCompleted(ctx: Ctx, hooks: HookStatuses, t: HookType, i: nat) {
    forall j :: i <= j < |ctx.hooks| && Runs(ctx.hooks[j], t) ==>
      var key := KeyFor(ctx.op, ctx.env.revision, ctx.hooks[j], t);
      key.Some? && IsCompleted(hooks, key.value)
  }

  /** Every hook that runs in the phase succeeded, and so did every other recorded hook of that type. */
  predicate PhaseDone(ctx: Ctx, hooks: HookStatuses, t: HookType) {
    && AllSuccessful(hooks, t)
    && forall j :: 0 <= j < |ctx.hooks| && Runs(ctx.hooks[j], t) ==>
      var key := KeyFor(ctx.op, ctx.env.revision, ctx.hooks[j], t);
      key.Some? && IsSucceeded(hooks, key.value)
  }

  /** A pass that reports no change made no call, touched no status and found every hook completed. */
  lemma {:induction false} PassQuiet(ctx: Ctx, m: Machine, t: HookType, i: nat, updated: bool)
    requires i <= |ctx.hooks|
    requires var p := HookPass(ctx, m, t, i, updated); !p.failed && !p.updated
    ensures var p := HookPass(ctx, m, t, i, updated);
            !updated && p.m.hooks == m.hooks && p.m.calls == m.calls && p.m.phase == m.phase
    ensures PhaseCompleted(ctx, m.hooks, t, i)
    decreases |ctx.hooks| - i
  {
    hide IsHookType, KeyFor, IsCompleted;
    if i < |ctx.hooks| {
      if Skips(ctx.hooks[i], t) {
        PassQuiet(ctx, m.(resources := Put(m.resources, KeyOf(ctx.hooks[i]), NoStatus)), t, i + 1, updated);
      } else if !Runs(ctx.hooks[i], t) {
        PassQuiet(ctx, m, t, i + 1, updated);
      } else {
        var r := RunHook(ctx, m, i, t);
        PassQuiet(ctx, r.m, t, i + 1, updated || r.result.Updated?);
      }
    }
  }

  /** The next phase starts only after a pass in which nothing happened and which found every hook successful. */
  lemma {:induction false} RunHooksGo(ctx: Ctx, m: Machine, t: HookType)
    requires RunHooks(ctx, m, t).go
    ensures PhaseDone(ctx, m.hooks, t)
    ensures var n := RunHooks(ctx, m, t).m;
            && n.hooks == m.hooks && n.calls == m.calls && n.phase == m.phase
            && |m.resources| <= |n.resources| && (t != Sync ==> n.resources == m.resources)
  {
    hide Runs, KeyFor;
    PassQuiet(ctx, m, t, 0, false);
    PassEvolves(ctx, m, t, 0, false);
    forall j | 0 <= j < |ctx.hooks| && Runs(ctx.hooks[j], t)
      ensures var key := KeyFor(ctx.op, ctx.env.revision, ctx.hooks[j], t); key.Some? && IsSucceeded(m.hooks, key.value)
    {
      KeyForType(ctx.op, ctx.env.revision, ctx.hooks[j], t);
      var key := KeyFor(ctx.op, ctx.env.revision, ctx.hooks[j], t);
      AllSuccessfulLookup(m.hooks, key.value);
    }
  }

  lemma {:induction false} KeyForType(op: Operation, revision: string, h: Object, t: HookType)
    ensures KeyFor(op, revision, h, t).Some? ==> KeyFor(op, revision, h, t).value.typ == t
    ensures KeyFor(op, revision, h, t).Some? ==> KeyFor(op, revision, h, t).value.kind == h.kind
  {
  }

  lemma {:induction false} PassPhase(ctx: Ctx, m: Machine, t: HookType, i: nat, updated: bool)
    requires i <= |ctx.hooks| && m.phase.Running?
    ensures var p := HookPass(ctx, m, t, i, updated); if p.failed then p.m.phase.Error? else p.m.phase.Running?
    decreases |ctx.hooks| - i
  {
    hide IsHookType, KeyFor, IsCompleted;
    if i < |ctx.hooks| {
      if Skips(ctx.hooks[i], t) {
        PassPhase(ctx, m.(resources := Put(m.resources, KeyOf(ctx.hooks[i]), NoStatus)), t, i + 1, updated);
      } else if !Runs(ctx.hooks[i], t) {
        PassPhase(ctx, m, t, i + 1, updated);
      } else {
        var r := RunHook(ctx, m, i, t);
        if !r.result.HookError? { PassPhase(ctx, r.m, t, i + 1, updated || r.result.Updated?); }
      }
    }
  }

  /** Whatever a phase does, it keeps what is settled, and it never ends the operation as succeeded. */
  lemma {:induction false} RunHooksEvolves(ctx: Ctx, m: Machine, t: HookType)
    ensures Evolves(t, m, RunHooks(ctx, m, t).m)
    ensures m.phase.Running? ==>
      var r := RunHooks(ctx, m, t);
      (r.m.phase.Running? || r.m.phase.Failed? || r.m.phase.Error?) && (r.go ==> r.m.phase.Running?)
  {
    hide HookPass, Evolves, AllCompleted, AllSuccessful;
    PassEvolves(ctx, m, t, 0, false);
    if m.phase.Running? { PassPhase(ctx, m, t, 0, false); }
    EvolvesPhase(t, m, HookPass(ctx, m, t, 0, false).m);
  }

  lemma {:induction false} EvolvesPhase(t: HookType, m: Machine, n: Machine)
    requires Evolves(t, m, n)
    ensures forall phase :: Evolves(t, m, n.(phase := phase))
  {
  }
}
