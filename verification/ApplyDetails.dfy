/** The details that an apply records for its resources. */
module ApplyDetails {
  import opened Kube
  import opened Keyed
  import opened SyncState
  import opened ApplySync
  import opened Admission

  // ---------------------------------------------------------------------------------------------
  // The last job for a key
  // ---------------------------------------------------------------------------------------------

  /** The i-th job records its status, and no later one for the same key records another. */
  ghost predicate Decides(mode: Mode, jobs: seq<Job>, i: nat)
    requires i < |jobs|
  {
    && Records(mode, jobs[i])
    && forall j :: i < j < |jobs| && jobs[j].key == jobs[i].key && Records(mode, jobs[j]) ==>
         jobs[j].status == jobs[i].status
  }

  lemma {:induction false} DecidedDetail(mode: Mode, s: Outcome, jobs: seq<Job>, i: nat)
    requires i < |jobs| && Decides(mode, jobs, i)
    ensures Lookup(PerformAll(mode, s, jobs).resources, jobs[i].key) == Some(jobs[i].status)
  {
    var n := |jobs| - 1;
    var before := PerformAll(mode, s, jobs[..n]);
    LookupPut(before.resources, jobs[n].key, jobs[n].status, jobs[i].key);
    if i < n {
      assert forall j :: 0 <= j < n ==> jobs[..n][j] == jobs[j];
      DecidedDetail(mode, s, jobs[..n], i);
    }
  }

  lemma {:induction false} UntouchedDetail(mode: Mode, s: Outcome, jobs: seq<Job>, k: ResourceKey)
    requires forall i :: 0 <= i < |jobs| ==> jobs[i].key != k
    ensures Lookup(PerformAll(mode, s, jobs).resources, k) == Lookup(s.resources, k)
  {
    if jobs != [] {
      var n := |jobs| - 1;
      var before := PerformAll(mode, s, jobs[..n]);
      UntouchedDetail(mode, s, jobs[..n], k);
      LookupPut(before.resources, jobs[n].key, jobs[n].status, k);
    }
  }

  /** Details are told apart by kind and name. */
  lemma {:induction false} KeysTell(a: Object, b: Object)
    ensures KeyOf(a) == KeyOf(b) <==> a.kind == b.kind && a.name == b.name
  {
  }

  // ---------------------------------------------------------------------------------------------
  // The jobs of an apply
  // ---------------------------------------------------------------------------------------------

  /** A create ends Synced exactly if its apply succeeded, and it is SyncFailed otherwise. */
  predicate CreateStatus(job: Job) {
    && job.status == (if job.call.Some? && job.call.value.ok then Synced else SyncFailed)
    && (job.call.Some? ==> job.call.value.Applied? && KeyOf(job.call.value.obj) == job.key)
  }

  predicate PruneStatus(mode: Mode, job: Job) {
    && (job.call.Some? <==> mode.prune && !mode.dryRun)
    && (job.call.Some? ==> job.call.value.Pruned? && KeyOf(job.call.value.obj) == job.key)
    && job.status == if !mode.prune then PruningRequired
                     else if job.call.Some? && !job.call.value.ok then SyncFailed
                     else SyncedAndPruned
  }

  predicate HasKey(os: seq<Object>, k: ResourceKey) {
    exists i :: 0 <= i < |os| && KeyOf(os[i]) == k
  }

  lemma {:induction false} HasKeyAppend(a: seq<Object>, b: seq<Object>, k: ResourceKey)
    ensures HasKey(a + b, k) <==> HasKey(a, k) || HasKey(b, k)
  {
    if HasKey(a, k) {
      var i :| 0 <= i < |a| && KeyOf(a[i]) == k;
      assert (a + b)[i] == a[i];
    }
    if HasKey(b, k) {
      var i :| 0 <= i < |b| && KeyOf(b[i]) == k;
      assert (a + b)[|a| + i] == b[i];
    }
  }

  ghost predicate OfObjects(jobs: seq<Job>, os: seq<Object>) {
    forall i :: 0 <= i < |jobs| ==> HasKey(os, jobs[i].key)
  }

  ghost predicate Creates(jobs: seq<Job>) {
    forall i :: 0 <= i < |jobs| ==> CreateStatus(jobs[i])
  }

  lemma {:induction false} GroupStatuses(env: ApplyEnv, mode: Mode, gate: Gate, group: seq<Object>, g: nat)
    ensures Creates(GroupJobs(env, mode, gate, group, g)) && OfObjects(GroupJobs(env, mode, gate, group, g), group)
  {
    hide IsHook, HasKey;
    if group != [] {
      var n := |group| - 1;
      GroupStatuses(env, mode, gate, group[..n], g);
      var before, jobs := GroupJobs(env, mode, gate, group[..n], g), GroupJobs(env, mode, gate, group, g);
      assert group == group[..n] + [group[n]];
      forall i | 0 <= i < |jobs| ensures HasKey(group, jobs[i].key) {
        HasKeyAppend(group[..n], [group[n]], jobs[i].key);
        if i == |before| { assert HasKey([group[n]], jobs[i].key) by { OwnKey(group[n]); } }
      }
    }
  }

  lemma {:induction false} OwnKey(o: Object)
    ensures HasKey([o], KeyOf(o))
  {
    assert [o][0] == o;
  }

  /** The jobs of a group that is turned away. */
  lemma {:induction false} RejectedJobs(env: ApplyEnv, mode: Mode, group: seq<Object>, g: nat)
    ensures var jobs := GroupJobs(env, mode, Reject, group, g);
            && |jobs| == |group|
            && forall i :: 0 <= i < |jobs| ==> jobs[i].key == KeyOf(group[i]) && jobs[i].status == SyncFailed
  {
    hide IsHook;
    if group != [] { RejectedJobs(env, mode, group[..|group| - 1], g); }
  }

  lemma {:induction false} CreateStatuses(env: ApplyEnv, mode: Mode, targets: seq<Object>, groups: seq<seq<Object>>)
    requires forall g :: 0 <= g < |groups| ==> groups[g] != []
    ensures var jobs := CreateJobs(env, mode, targets, groups);
            Creates(jobs) && OfObjects(jobs, Flatten(groups))
  {
    assert OfObjects([], []);
    hide GroupGate, GroupJobs, CreateStatus, OfObjects;
    if groups != [] {
      var n := |groups| - 1;
      CreateStatuses(env, mode, targets, groups[..n]);
      GroupStatuses(env, mode, GroupGate(env, mode, targets, groups[n][0], |groups|), groups[n], |groups|);
      var before := CreateJobs(env, mode, targets, groups[..n]);
      var jobs := GroupJobs(env, mode, GroupGate(env, mode, targets, groups[n][0], |groups|), groups[n], |groups|);
      OfObjectsAppend(before, jobs, Flatten(groups[..n]), groups[n]);
    }
  }

  lemma {:induction false} OfObjectsAppend(a: seq<Job>, b: seq<Job>, x: seq<Object>, y: seq<Object>)
    requires OfObjects(a, x) && OfObjects(b, y)
    ensures OfObjects(a + b, x + y)
  {
    hide HasKey;
    forall i | 0 <= i < |a + b| ensures HasKey(x + y, (a + b)[i].key) { HasKeyAppend(x, y, (a + b)[i].key); }
  }

  /** Every object of a group that is turned away has a failed job. */
  lemma {:induction false} TurnedAwayFails(env: ApplyEnv, mode: Mode, targets: seq<Object>, groups: seq<seq<Object>>,
                                           g: nat, o: Object) returns (i: nat)
    requires (forall h :: 0 <= h < |groups| ==> groups[h] != []) && g < |groups| && o in groups[g]
    requires !Admitted(env, mode, groups[g], g + 1) && !Excused(env, mode, targets, groups[g], g + 1)
    ensures var jobs := CreateJobs(env, mode, targets, groups);
            i < |jobs| && jobs[i].key == KeyOf(o) && jobs[i].status == SyncFailed
  {
    hide GroupGate, GroupJobs, Admitted, Excused;
    var n := |groups| - 1;
    if g < n {
      i := TurnedAwayFails(env, mode, targets, groups[..n], g, o);
    } else {
      GateIs(env, mode, targets, groups[n], |groups|);
      RejectedJobs(env, mode, groups[n], |groups|);
      i :| 0 <= i < |groups[n]| && groups[n][i] == o;
      i := |CreateJobs(env, mode, targets, groups[..n])| + i;
    }
  }

  lemma {:induction false} PruneStatuses(env: ApplyEnv, mode: Mode, lives: seq<Object>)
    ensures var jobs := PruneJobs(env, mode, lives);
            && |jobs| == |lives|
            && forall i :: 0 <= i < |jobs| ==> PruneStatus(mode, jobs[i]) && jobs[i].key == KeyOf(lives[i])
  {
    PruneJobsFit(env, mode, lives);
  }

  lemma {:induction false} CallHasJob(jobs: seq<Job>, c: Call)
    requires c in CallsOf(jobs)
    ensures exists i :: 0 <= i < |jobs| && jobs[i].call == Some(c)
  {
    var n := |jobs| - 1;
    if c in CallsOf(jobs[..n]) {
      CallHasJob(jobs[..n], c);
      var i :| 0 <= i < n && jobs[..n][i].call == Some(c);
      assert jobs[i].call == Some(c);
    } else {
      assert jobs[n].call == Some(c);
    }
  }

  lemma {:induction false} JobHasCall(jobs: seq<Job>, i: nat)
    requires i < |jobs| && jobs[i].call.Some?
    ensures jobs[i].call.value in CallsOf(jobs)
  {
    var n := |jobs| - 1;
    if i < n { JobHasCall(jobs[..n], i); }
  }

  // ---------------------------------------------------------------------------------------------
  // What is recorded
  // ---------------------------------------------------------------------------------------------

  /** The plan of an apply, its prunes first, with what its jobs are. */
  ghost predicate Planned(mode: Mode, prunes: seq<Job>, creates: seq<Job>) {
    && (forall i :: 0 <= i < |prunes| ==> PruneStatus(mode, prunes[i]))
    && Creates(creates)
  }

  /** Some call for the key has succeeded. */
  ghost predicate SomeSucceeds(calls: seq<Call>, k: ResourceKey) {
    exists c :: c in calls && (c.Applied? || c.Pruned?) && KeyOf(c.obj) == k && c.ok
  }

  /** A job that failed decides the detail, if no call for its key has succeeded. */
  lemma {:induction false} FailureDecides(mode: Mode, prunes: seq<Job>, creates: seq<Job>, i: nat)
    requires Planned(mode, prunes, creates) && i < |prunes + creates| && (prunes + creates)[i].status == SyncFailed
    requires !SomeSucceeds(CallsOf(prunes + creates), (prunes + creates)[i].key)
    ensures Decides(mode, prunes + creates, i)
  {
    hide CallsOf;
    var jobs := prunes + creates;
    forall j | i < j < |jobs| && jobs[j].key == jobs[i].key && Records(mode, jobs[j])
      ensures jobs[j].status == jobs[i].status
    {
      if jobs[j].call.Some? { JobHasCall(jobs, j); }
      if j < |prunes| {
        assert PruneStatus(mode, prunes[i]) && PruneStatus(mode, prunes[j]);
      } else {
        assert CreateStatus(creates[j - |prunes|]);
      }
    }
  }

  /** When all succeed, a create decides the detail. */
  lemma {:induction false} CreateDecides(mode: Mode, prunes: seq<Job>, creates: seq<Job>, i: nat)
    requires Planned(mode, prunes, creates) && AllSucceed(prunes + creates) && mode.update && i < |creates|
    ensures Decides(mode, prunes + creates, |prunes| + i) && creates[i].status == Synced
  {
    var jobs := prunes + creates;
    assert jobs[|prunes| + i] == creates[i];
    forall j | |prunes| + i < j < |jobs| ensures jobs[j].status == Synced {
      assert jobs[j] == creates[j - |prunes|];
    }
  }

  /** When all succeed, a prune decides the detail unless there is a create for the key. */
  lemma {:induction false} PruneDecides(mode: Mode, prunes: seq<Job>, creates: seq<Job>, i: nat)
    requires Planned(mode, prunes, creates) && AllSucceed(prunes + creates) && mode.update && i < |prunes|
    requires forall j :: 0 <= j < |creates| ==> creates[j].key != prunes[i].key
    ensures Decides(mode, prunes + creates, i)
    ensures prunes[i].status == if mode.prune then SyncedAndPruned else PruningRequired
  {
    var jobs := prunes + creates;
    assert jobs[i] == prunes[i] && jobs[i].status.Successful();
    forall j | i < j < |prunes| ensures jobs[j].status == jobs[i].status {
      assert jobs[j] == prunes[j] && jobs[j].status.Successful();
    }
    assert forall j :: |prunes| <= j < |jobs| ==> jobs[j] == creates[j - |prunes|];
  }

  lemma {:induction false} PlanStatuses(env: ApplyEnv, mode: Mode, tasks: seq<Task>)
    ensures var targets := Targets(tasks);
            var prunes, creates := PruneJobs(env, mode, Lives(tasks)), CreateJobs(env, mode, targets, Groups(targets));
            && Planned(mode, prunes, creates) && OfObjects(creates, targets)
            && |prunes| == |Lives(tasks)| && (forall i :: 0 <= i < |prunes| ==> prunes[i].key == KeyOf(Lives(tasks)[i]))
  {
    hide PruneJobs, CreateJobs, Targets, Lives, Groups, Flatten;
    var targets := Targets(tasks);
    GroupsPartition(targets);
    PruneStatuses(env, mode, Lives(tasks));
    CreateStatuses(env, mode, targets, Groups(targets));
  }

  /** The i-th job of the apply has failed, and no call for its key has succeeded. */
  lemma {:induction false} FailedJobIsRecorded(env: ApplyEnv, mode: Mode, tasks: seq<Task>, resources: Resources,
                                               i: nat)
    requires var jobs := Plan(env, mode, tasks);
             i < |jobs| && jobs[i].status == SyncFailed && !SomeSucceeds(CallsOf(jobs), jobs[i].key)
    ensures Lookup(DoApply(env, mode, tasks, resources).resources, Plan(env, mode, tasks)[i].key) == Some(SyncFailed)
  {
    hide PruneJobs, CreateJobs, Targets, Lives, Groups, CallsOf, PerformAll, SomeSucceeds, Decides;
    var targets := Targets(tasks);
    var prunes, creates := PruneJobs(env, mode, Lives(tasks)), CreateJobs(env, mode, targets, Groups(targets));
    PlanStatuses(env, mode, tasks);
    FailureDecides(mode, prunes, creates, i);
    DecidedDetail(mode, Outcome(true, resources, []), prunes + creates, i);
  }

  lemma {:induction false} CallsOfApply(env: ApplyEnv, mode: Mode, tasks: seq<Task>, resources: Resources)
    ensures DoApply(env, mode, tasks, resources).calls == CallsOf(Plan(env, mode, tasks))
  {
    hide Plan, CallsOf;
    PerformAllSum(mode, Outcome(true, resources, []), Plan(env, mode, tasks));
  }

  /** What a failed apply records, even in a dry run: SyncFailed for the kind and name of every call that failed, unless
      another call for that kind and name has succeeded. */
  lemma {:induction false} FailuresAreRecorded(env: ApplyEnv, mode: Mode, tasks: seq<Task>, resources: Resources,
                                               c: Call)
    requires c in DoApply(env, mode, tasks, resources).calls && (c.Applied? || c.Pruned?) && !c.ok
    requires !SomeSucceeds(DoApply(env, mode, tasks, resources).calls, KeyOf(c.obj))
    ensures Lookup(DoApply(env, mode, tasks, resources).resources, KeyOf(c.obj)) == Some(SyncFailed)
  {
    hide PruneJobs, CreateJobs, Targets, Lives, Groups, CallsOf, DoApply, SomeSucceeds;
    var targets := Targets(tasks);
    var prunes, creates := PruneJobs(env, mode, Lives(tasks)), CreateJobs(env, mode, targets, Groups(targets));
    CallsOfApply(env, mode, tasks, resources);
    PlanStatuses(env, mode, tasks);
    var jobs: seq<Job> := prunes + creates;
    CallHasJob(jobs, c);
    var i :| 0 <= i < |jobs| && jobs[i].call == Some(c);
    FailedCall(mode, prunes, creates, i);
    FailedJobIsRecorded(env, mode, tasks, resources, i);
  }

  /** The same for every target of a group that was turned away. */
  lemma {:induction false} TurnedAwayIsRecorded(env: ApplyEnv, mode: Mode, tasks: seq<Task>, resources: Resources,
                                                g: nat, o: Object)
    requires g < |Groups(Targets(tasks))| && o in Groups(Targets(tasks))[g]
    requires !Admitted(env, mode, Groups(Targets(tasks))[g], g + 1)
    requires !Excused(env, mode, Targets(tasks), Groups(Targets(tasks))[g], g + 1)
    requires !SomeSucceeds(DoApply(env, mode, tasks, resources).calls, KeyOf(o))
    ensures Lookup(DoApply(env, mode, tasks, resources).resources, KeyOf(o)) == Some(SyncFailed)
  {
    hide PruneJobs, CreateJobs, Targets, Lives, Groups, CallsOf, DoApply, SomeSucceeds, Admitted, Excused;
    var targets := Targets(tasks);
    var prunes, creates := PruneJobs(env, mode, Lives(tasks)), CreateJobs(env, mode, targets, Groups(targets));
    CallsOfApply(env, mode, tasks, resources);
    GroupsPartition(targets);
    var j := TurnedAwayFails(env, mode, targets, Groups(targets), g, o);
    assert (prunes + creates)[|prunes| + j] == creates[j];
    FailedJobIsRecorded(env, mode, tasks, resources, |prunes| + j);
  }

  lemma {:induction false} FailedCall(mode: Mode, prunes: seq<Job>, creates: seq<Job>, i: nat)
    requires Planned(mode, prunes, creates) && i < |prunes + creates|
    requires var job := (prunes + creates)[i]; job.call.Some? && !job.call.value.ok
    ensures var job := (prunes + creates)[i]; job.status == SyncFailed && job.key == KeyOf(job.call.value.obj)
  {
    if i < |prunes| {
      assert PruneStatus(mode, prunes[i]);
    } else {
      assert CreateStatus(creates[i - |prunes|]);
    }
  }

  /** When all succeed, the creates are those of the admitted targets. */
  lemma {:induction false} CreatesAreAdmitted(env: ApplyEnv, mode: Mode, tasks: seq<Task>, resources: Resources,
                                              k: ResourceKey)
    requires ValidTasks(tasks) && DoApply(env, mode, tasks, resources).ok
    ensures var creates := CreateJobs(env, mode, Targets(tasks), Groups(Targets(tasks)));
            HasKey(Admits(env, mode, Groups(Targets(tasks))), k) <==>
            exists i :: 0 <= i < |creates| && creates[i].key == k
  {
    hide PruneJobs, CreateJobs, Targets, Lives, Groups, CallsOf, PerformAll, ValidTasks, Applies, Admits, AllAdmitted;
    var targets := Targets(tasks);
    var prunes, creates := PruneJobs(env, mode, Lives(tasks)), CreateJobs(env, mode, targets, Groups(targets));
    var jobs, admits := prunes + creates, Admits(env, mode, Groups(targets));
    PlanStatuses(env, mode, tasks);
    PerformAllSum(mode, Outcome(true, resources, []), jobs);
    DoApplyAdmits(env, mode, tasks, resources);
    assert DoApply(env, mode, tasks, resources).calls == CallsOf(jobs);
    if HasKey(admits, k) {
      var o :| 0 <= o < |admits| && KeyOf(admits[o]) == k;
      var c := AppliesMember(CallsOf(jobs), admits[o]);
      CallHasJob(jobs, c);
      var j :| 0 <= j < |jobs| && jobs[j].call == Some(c);
      assert forall p :: 0 <= p < |prunes| ==> PruneStatus(mode, prunes[p]) && prunes[p] == jobs[p];
      assert CreateStatus(creates[j - |prunes|]);
    }
    if i :| 0 <= i < |creates| && creates[i].key == k {
      assert jobs[|prunes| + i] == creates[i] && jobs[|prunes| + i].status.Successful() && CreateStatus(creates[i]);
      JobHasCall(jobs, |prunes| + i);
      AppliesHas(CallsOf(jobs), creates[i].call.value);
    }
  }

  lemma {:induction false} AppliesMember(calls: seq<Call>, o: Object) returns (c: Call)
    requires o in Applies(calls)
    ensures c in calls && c.Applied? && c.obj == o
  {
    var n := |calls| - 1;
    if o in Applies(calls[..n]) {
      c := AppliesMember(calls[..n], o);
    } else {
      c := calls[n];
    }
  }

  /** What an apply that succeeds and is to record its results records: Synced for every target that it lets through;
      for every other live object that it was pruned or would have to be; and nothing for anything else. */
  lemma {:induction false} SuccessIsRecorded(env: ApplyEnv, mode: Mode, tasks: seq<Task>, resources: Resources,
                                             k: ResourceKey)
    requires ValidTasks(tasks) && mode.update && DoApply(env, mode, tasks, resources).ok
    ensures var now := Lookup(DoApply(env, mode, tasks, resources).resources, k);
            if HasKey(Admits(env, mode, Groups(Targets(tasks))), k) then now == Some(Synced)
            else if HasKey(Lives(tasks), k) then now == Some(if mode.prune then SyncedAndPruned else PruningRequired)
            else now == Lookup(resources, k)
  {
    hide PruneJobs, CreateJobs, Targets, Lives, Groups, CallsOf, PerformAll, Decides, ValidTasks, Admits;
    var targets := Targets(tasks);
    var prunes, creates := PruneJobs(env, mode, Lives(tasks)), CreateJobs(env, mode, targets, Groups(targets));
    var jobs, start := prunes + creates, Outcome(true, resources, []);
    PlanStatuses(env, mode, tasks);
    PerformAllSum(mode, start, jobs);
    CreatesAreAdmitted(env, mode, tasks, resources, k);
    if i :| 0 <= i < |creates| && creates[i].key == k {
      CreateDecides(mode, prunes, creates, i);
      DecidedDetail(mode, start, jobs, |prunes| + i);
    } else if HasKey(Lives(tasks), k) {
      var i :| 0 <= i < |Lives(tasks)| && KeyOf(Lives(tasks)[i]) == k;
      PruneDecides(mode, prunes, creates, i);
      DecidedDetail(mode, start, jobs, i);
    } else {
      UntouchedDetail(mode, start, jobs, k);
    }
  }

  /** A real apply that succeeds lets every target through. */
  lemma {:induction false} AllLetThrough(env: ApplyEnv, mode: Mode, tasks: seq<Task>, resources: Resources)
    requires ValidTasks(tasks) && !mode.dryRun && DoApply(env, mode, tasks, resources).ok
    ensures Admits(env, mode, Groups(Targets(tasks))) == Targets(tasks)
  {
    hide DoApply, ValidTasks, Targets, Groups, Applies, RealApplies, Admits, AllAdmitted;
    DoApplyMeaning(env, mode, tasks, resources);
    DoApplyAdmits(env, mode, tasks, resources);
    RealIsAll(DoApply(env, mode, tasks, resources).calls);
  }

  lemma {:induction false} RealIsAll(calls: seq<Call>)
    requires forall k :: 0 <= k < |calls| && calls[k].Applied? ==> !calls[k].dryRun
    ensures RealApplies(calls) == Applies(calls)
  {
    if calls != [] { RealIsAll(calls[..|calls| - 1]); }
  }
}
