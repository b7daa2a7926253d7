/** The persisted result of a sync operation and the API calls made while it runs. */
module SyncState {
  import opened Kube
  import opened Keyed

  /** A hook invocation is identified by the name and kind of its object and the phase it runs in. */
  datatype HookKey = HookKey(name: string, kind: string, typ: HookType)

  datatype HookInfo = HookInfo(api: ApiVersion, status: OperationPhase)

  type HookStatuses = seq<Entry<HookKey, HookInfo>>

  datatype ResourceKey = ResourceKey(kind: string, name: string)

  /** NoStatus is the empty status recorded for a resource that its Skip annotation excludes. */
  datatype ResourceStatus = Synced | SyncFailed | SyncedAndPruned | PruningRequired | NoStatus
  {
    predicate Successful() { !SyncFailed? }
  }

  type Resources = seq<Entry<ResourceKey, ResourceStatus>>

  /** A live object, its target, or both. Without a target the live object is to be pruned. */
  datatype Task = Task(live: Option<Object>, target: Option<Object>)
  {
    predicate Valid() { live.Some? || target.Some? }
  }

  /** The calls that change (or, for a dry run, validate against) the cluster or the application. */
  datatype Call =
    | Applied(obj: Object, dryRun: bool, force: bool, ok: bool)
    | Pruned(obj: Object, ok: bool)
    | HookApplied(hook: HookKey, ok: bool)
    | HookDeleted(hook: HookKey, ok: bool)
  {
    /** A call that really applies or prunes an application resource. */
    predicate RealApply() { (Applied? && !dryRun) || Pruned? }
  }

  predicate HasType(hooks: HookStatuses, t: HookType) {
    exists i :: 0 <= i < |hooks| && hooks[i].key.typ == t
  }

  /** Whether every recorded status of the type is completed, and whether every one is successful. */
  predicate AllCompleted(hooks: HookStatuses, t: HookType) {
    forall i :: 0 <= i < |hooks| && hooks[i].key.typ == t ==> hooks[i].value.status.Completed()
  }

  predicate AllSuccessful(hooks: HookStatuses, t: HookType) {
    forall i :: 0 <= i < |hooks| && hooks[i].key.typ == t ==> hooks[i].value.status.Succeeded?
  }

  predicate IsCompleted(hooks: HookStatuses, k: HookKey) {
    var o := Lookup(hooks, k);
    o.Some? && o.value.status.Completed()
  }

  predicate IsSucceeded(hooks: HookStatuses, k: HookKey) {
    Lookup(hooks, k).Some? && Lookup(hooks, k).value.status.Succeeded?
  }

  /** The scan that decides whether a hook phase is over: it stops at the first unfinished status. */
  method AreHooksCompletedSuccessful(t: HookType, hooks: HookStatuses) returns (completed: bool, successful: bool)
    ensures completed <==> AllCompleted(hooks, t)
    ensures successful <==> completed && AllSuccessful(hooks, t)
  {
    successful := true;
    for i := 0 to |hooks|
      invariant AllCompleted(hooks[..i], t)
      invariant successful <==> AllSuccessful(hooks[..i], t)
    {
      assert hooks[..i + 1] == hooks[..i] + [hooks[i]];
      assert hooks[..i + 1][i] == hooks[i];
      if hooks[i].key.typ == t {
        if !hooks[i].value.status.Completed() {
          return false, false;
        }
        if !hooks[i].value.status.Succeeded? {
          successful := false;
        }
      }
    }
    completed := true;
    assert hooks[..|hooks|] == hooks;
  }

  /** When a whole phase succeeded, any recorded hook of the phase did. */
  lemma {:induction false} AllSuccessfulLookup(hooks: HookStatuses, k: HookKey)
    requires AllSuccessful(hooks, k.typ) && Lookup(hooks, k).Some?
    ensures IsSucceeded(hooks, k)
  {
    LookupIsEntry(hooks, k);
  }

  lemma {:induction false} PutHasType(hooks: HookStatuses, k: HookKey, v: HookInfo, t: HookType)
    ensures HasType(Put(hooks, k, v), t) <==> HasType(hooks, t) || k.typ == t
  {
    PutEntries(hooks, k, v);
    var r := Put(hooks, k, v);
    if HasType(hooks, t) {
      var i :| 0 <= i < |hooks| && hooks[i].key.typ == t;
      assert r[i].key.typ == t;
    }
  }
}
