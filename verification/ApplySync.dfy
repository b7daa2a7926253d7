/** The apply-based sync of a list of tasks: prunes first, then the tasks with a target, one group of
    equal kind after the other. Within a stage the source starts one goroutine per task. */
module ApplySync {
  import opened Kube
  import opened Keyed
  import opened SyncState

  datatype Discovery = Served(namespaced: bool) | NotFound | Unavailable

  /** The answers of the cluster and the project to the applies of a step, dry or not: to each target by its group and
      its place there, to each prune by its place, and to the discovery of each group. */
  datatype ApplyEnv = ApplyEnv(
    apply: (nat, nat, bool) -> bool,
    prune: nat -> bool,
    discover: (nat, bool) -> Discovery,
    permitted: (string, string, bool) -> bool)

  datatype Mode = Mode(dryRun: bool, force: bool, update: bool, prune: bool)

  /** What one task contributes: the call it makes and the status it ends with. */
  datatype Job = Job(key: ResourceKey, status: ResourceStatus, call: Option<Call>, stage: nat)

  datatype Outcome = Outcome(ok: bool, resources: Resources, calls: seq<Call>)

  predicate Records(mode: Mode, job: Job) {
    mode.update || !job.status.Successful()
  }

  function KeyOf(o: Object): ResourceKey {
    ResourceKey(o.kind, o.name)
  }

  function PruneJob(env: ApplyEnv, mode: Mode, live: Object, i: nat): Job {
    if !mode.prune then Job(KeyOf(live), PruningRequired, None, 0)
    else if mode.dryRun then Job(KeyOf(live), SyncedAndPruned, None, 0)
    else if env.prune(i) then Job(KeyOf(live), SyncedAndPruned, Some(Pruned(live, true)), 0)
    else Job(KeyOf(live), SyncFailed, Some(Pruned(live, false)), 0)
  }

  function ApplyJob(env: ApplyEnv, mode: Mode, o: Object, stage: nat, i: nat): Job {
    var ok := env.apply(stage, i, mode.dryRun);
    Job(KeyOf(o), if ok then Synced else SyncFailed, Some(Applied(o, mode.dryRun, mode.force, ok)), stage)
  }

  /** Whether one of the targets is the definition of the group and kind. */
  predicate DefinesKind(targets: seq<Object>, group: string, kind: string) {
    exists i :: 0 <= i < |targets| && targets[i].defines == Some((group, kind))
  }

  datatype Gate = Go | Excuse | Reject

  /** The verdict on a whole group, from the API resource and the project of its first object. */
  function GroupGate(env: ApplyEnv, mode: Mode, targets: seq<Object>, first: Object, stage: nat): Gate {
    match env.discover(stage, mode.dryRun)
    case Served(namespaced) => if env.permitted(first.api.group, first.kind, namespaced) then Go else Reject
    case NotFound =>
      if mode.dryRun && DefinesKind(targets, first.api.group, first.kind) then Excuse else Reject
    case Unavailable => Reject
  }

  function GroupJobs(env: ApplyEnv, mode: Mode, gate: Gate, group: seq<Object>, stage: nat): seq<Job> {
    if group == [] then []
    else
      var before := GroupJobs(env, mode, gate, group[..|group| - 1], stage);
      var o := group[|group| - 1];
      if gate.Excuse? || (gate.Go? && IsHook(o)) then before
      else if gate.Reject? then before + [Job(KeyOf(o), SyncFailed, None, stage)]
      else before + [ApplyJob(env, mode, o, stage, |group| - 1)]
  }

  /** A target joins the last group if it has its kind, and starts a new group otherwise. */
  function Join(groups: seq<seq<Object>>, o: Object): seq<seq<Object>> {
    if groups != [] && groups[|groups| - 1] != [] && groups[|groups| - 1][0].kind == o.kind
    then groups[..|groups| - 1] + [groups[|groups| - 1] + [o]]
    else groups + [[o]]
  }

  function Groups(targets: seq<Object>): seq<seq<Object>> {
    if targets == [] then [] else Join(Groups(targets[..|targets| - 1]), targets[|targets| - 1])
  }

  function Flatten(groups: seq<seq<Object>>): seq<Object> {
    if groups == [] then [] else Flatten(groups[..|groups| - 1]) + groups[|groups| - 1]
  }

  function CreateJobs(env: ApplyEnv, mode: Mode, targets: seq<Object>, groups: seq<seq<Object>>): seq<Job> {
    if groups == [] then []
    else
      var last := groups[|groups| - 1];
      var before := CreateJobs(env, mode, targets, groups[..|groups| - 1]);
      if last == [] then before
      else before + GroupJobs(env, mode, GroupGate(env, mode, targets, last[0], |groups|), last, |groups|)
  }

  function PruneJobs(env: ApplyEnv, mode: Mode, lives: seq<Object>): seq<Job> {
    if lives == [] then []
    else PruneJobs(env, mode, lives[..|lives| - 1]) + [PruneJob(env, mode, lives[|lives| - 1], |lives| - 1)]
  }

  /** The live objects of the tasks without a target, and the targets of the others, in task order. */
  function Lives(tasks: seq<Task>): seq<Object> {
    if tasks == [] then []
    else
      var t := tasks[|tasks| - 1];
      var before := Lives(tasks[..|tasks| - 1]);
      if t.target.None? && t.live.Some? then before + [t.live.value] else before
  }

  function Targets(tasks: seq<Task>): seq<Object> {
    if tasks == [] then []
    else
      var t := tasks[|tasks| - 1];
      var before := Targets(tasks[..|tasks| - 1]);
      if t.target.Some? then before + [t.target.value] else before
  }

  function Plan(env: ApplyEnv, mode: Mode, tasks: seq<Task>): seq<Job> {
    var targets := Targets(tasks);
    PruneJobs(env, mode, Lives(tasks)) + CreateJobs(env, mode, targets, Groups(targets))
  }

  function Made(job: Job): seq<Call> {
    if job.call.Some? then [job.call.value] else []
  }

  function Perform(mode: Mode, s: Outcome, job: Job): Outcome {
    Outcome(
      s.ok && job.status.Successful(),
      if Records(mode, job) then Put(s.resources, job.key, job.status) else s.resources,
      s.calls + Made(job))
  }

  function PerformAll(mode: Mode, s: Outcome, jobs: seq<Job>): Outcome {
    if jobs == [] then s
    else Perform(mode, PerformAll(mode, s, jobs[..|jobs| - 1]), jobs[|jobs| - 1])
  }

  /** The outcome of an apply when the goroutines of each stage run one after the other. */
  function DoApply(env: ApplyEnv, mode: Mode, tasks: seq<Task>, resources: Resources): Outcome {
    PerformAll(mode, Outcome(true, resources, []), Plan(env, mode, tasks))
  }

  lemma {:induction false} PerformAllAppend(mode: Mode, s: Outcome, a: seq<Job>, b: seq<Job>)
    ensures PerformAll(mode, s, a + b) == PerformAll(mode, PerformAll(mode, s, a), b)
  {
    if b == [] {
      assert a + b == a;
    } else {
      PerformAllAppend(mode, s, a, b[..|b| - 1]);
      assert (a + b)[..|a + b| - 1] == a + b[..|b| - 1];
    }
  }

  // ---------------------------------------------------------------------------------------------
  // Grouping
  // ---------------------------------------------------------------------------------------------

  /** Non-empty groups of one kind each, and neighbours of different kinds. */
  ghost predicate KindGroups(groups: seq<seq<Object>>) {
    && (forall g :: 0 <= g < |groups| ==> |groups[g]| > 0)
    && (forall g, i :: 0 <= g < |groups| && 0 <= i < |groups[g]| ==> groups[g][i].kind == groups[g][0].kind)
    && (forall g :: 0 < g < |groups| ==> groups[g - 1][0].kind != groups[g][0].kind)
  }

  lemma {:induction false} JoinKeepsGroups(groups: seq<seq<Object>>, o: Object)
    requires KindGroups(groups)
    ensures KindGroups(Join(groups, o))
    ensures Flatten(Join(groups, o)) == Flatten(groups) + [o]
  {
    var joined := Join(groups, o);
    var n := |joined| - 1;
    if |joined| == |groups| {
      assert joined[..n] == groups[..n];
      assert joined[n] == groups[n] + [o];
      assert joined[n][0] == groups[n][0];
      forall g, i | 0 <= g < |joined| && 0 <= i < |joined[g]| ensures joined[g][i].kind == joined[g][0].kind {
        if g < n { assert joined[g] == groups[g]; }
      }
    } else {
      assert joined[..n] == groups;
      forall g, i | 0 <= g < |joined| && 0 <= i < |joined[g]| ensures joined[g][i].kind == joined[g][0].kind {
        if g < n { assert joined[g] == groups[g]; }
      }
    }
  }

  /** Every target falls in exactly one group, in order, and a group ends exactly where the kind changes. */
  lemma {:induction false} GroupsPartition(targets: seq<Object>)
    ensures KindGroups(Groups(targets)) && Flatten(Groups(targets)) == targets
  {
    if targets != [] {
      var n := |targets| - 1;
      GroupsPartition(targets[..n]);
      JoinKeepsGroups(Groups(targets[..n]), targets[n]);
      assert targets == targets[..n] + [targets[n]];
    }
  }

  // ---------------------------------------------------------------------------------------------
  // What a performed list of jobs adds up to
  // ---------------------------------------------------------------------------------------------

  ghost predicate AllSucceed(jobs: seq<Job>) {
    forall i :: 0 <= i < |jobs| ==> jobs[i].status.Successful()
  }

  function CallsOf(jobs: seq<Job>): seq<Call> {
    if jobs == [] then [] else CallsOf(jobs[..|jobs| - 1]) + Made(jobs[|jobs| - 1])
  }

  lemma {:induction false} PerformAllSum(mode: Mode, s: Outcome, jobs: seq<Job>)
    ensures PerformAll(mode, s, jobs).ok <==> s.ok && AllSucceed(jobs)
    ensures PerformAll(mode, s, jobs).calls == s.calls + CallsOf(jobs)
    ensures |PerformAll(mode, s, jobs).resources| >= |s.resources|
    ensures mode.update && jobs != [] ==> PerformAll(mode, s, jobs).resources != []
    ensures !mode.update && PerformAll(mode, s, jobs).ok ==> PerformAll(mode, s, jobs).resources == s.resources
  {
    if jobs != [] {
      var before := jobs[..|jobs| - 1];
      PerformAllSum(mode, s, before);
      assert forall i :: 0 <= i < |before| ==> before[i] == jobs[i];
    }
  }

  lemma {:induction false} CallsSnoc(jobs: seq<Job>, job: Job)
    ensures CallsOf(jobs + [job]) == CallsOf(jobs) + Made(job)
  {
    assert (jobs + [job])[..|jobs|] == jobs;
  }

  lemma {:induction false} CallsOfAppend(a: seq<Job>, b: seq<Job>)
    ensures CallsOf(a + b) == CallsOf(a) + CallsOf(b)
  {
    if b == [] {
      assert a + b == a;
    } else {
      hide CallsOf, Made;
      var front, job := b[..|b| - 1], b[|b| - 1];
      assert b == front + [job] && a + b == (a + front) + [job];
      CallsOfAppend(a, front);
      CallsSnoc(a + front, job);
      CallsSnoc(front, job);
    }
  }

  // ---------------------------------------------------------------------------------------------
  // Which objects a plan really applies
  // ---------------------------------------------------------------------------------------------

  /** The objects of the real (not dry-run) applies, in call order. */
  function RealApplies(calls: seq<Call>): seq<Object> {
    if calls == [] then []
    else
      var c := calls[|calls| - 1];
      var before := RealApplies(calls[..|calls| - 1]);
      if c.Applied? && !c.dryRun then before + [c.obj] else before
  }

  lemma {:induction false} RealAppliesAppend(a: seq<Call>, b: seq<Call>)
    ensures RealApplies(a + b) == RealApplies(a) + RealApplies(b)
  {
    if b == [] {
      assert a + b == a;
    } else {
      RealAppliesAppend(a, b[..|b| - 1]);
      assert (a + b)[..|a + b| - 1] == a + b[..|b| - 1];
    }
  }

  /** The objects of the prunes, in call order. */
  function Prunes(calls: seq<Call>): seq<Object> {
    if calls == [] then []
    else
      var c := calls[|calls| - 1];
      var before := Prunes(calls[..|calls| - 1]);
      if c.Pruned? then before + [c.obj] else before
  }

  lemma {:induction false} PrunesAppend(a: seq<Call>, b: seq<Call>)
    ensures Prunes(a + b) == Prunes(a) + Prunes(b)
  {
    if b == [] {
      assert a + b == a;
    } else {
      PrunesAppend(a, b[..|b| - 1]);
      assert (a + b)[..|a + b| - 1] == a + b[..|b| - 1];
    }
  }

  predicate NoHooks(os: seq<Object>) {
    forall i :: 0 <= i < |os| ==> !IsHook(os[i])
  }

  /** An apply carries the mode's flags, a prune is never dry, and a job with a call succeeds exactly if the call does.
      */
  predicate Fits(mode: Mode, job: Job) {
    job.call.Some? ==>
      var c := job.call.value;
      && ((c.Applied? && c.dryRun == mode.dryRun && c.force == mode.force) || (c.Pruned? && !mode.dryRun))
      && (job.status.Successful() <==> c.ok)
  }

  ghost predicate AllFit(mode: Mode, jobs: seq<Job>) {
    forall i :: 0 <= i < |jobs| ==> Fits(mode, jobs[i])
  }

  lemma {:induction false} CallsOfFit(mode: Mode, jobs: seq<Job>)
    requires AllFit(mode, jobs)
    ensures forall k :: 0 <= k < |CallsOf(jobs)| ==>
      var c := CallsOf(jobs)[k];
      ((c.Applied? && c.dryRun == mode.dryRun) || (c.Pruned? && !mode.dryRun)) && (AllSucceed(jobs) ==> c.ok)
  {
    if jobs != [] {
      var n := |jobs| - 1;
      assert forall i :: 0 <= i < n ==> jobs[..n][i] == jobs[i];
      CallsOfFit(mode, jobs[..n]);
      assert AllSucceed(jobs) ==> AllSucceed(jobs[..n]);
    }
  }

  lemma {:induction false} PruneJobsFit(env: ApplyEnv, mode: Mode, lives: seq<Object>)
    ensures |PruneJobs(env, mode, lives)| == |lives|
    ensures AllFit(mode, PruneJobs(env, mode, lives))
    ensures forall i :: 0 <= i < |lives| ==> PruneJobs(env, mode, lives)[i] == PruneJob(env, mode, lives[i], i)
  {
    if lives != [] {
      PruneJobsFit(env, mode, lives[..|lives| - 1]);
    }
  }

  lemma {:induction false} NoRealApplies(jobs: seq<Job>)
    requires forall i :: 0 <= i < |jobs| && jobs[i].call.Some? ==>
                           jobs[i].call.value.Pruned? || (jobs[i].call.value.Applied? && jobs[i].call.value.dryRun)
    ensures RealApplies(CallsOf(jobs)) == []
  {
    if jobs != [] {
      NoRealApplies(jobs[..|jobs| - 1]);
      RealAppliesAppend(CallsOf(jobs[..|jobs| - 1]), Made(jobs[|jobs| - 1]));
    }
  }

  lemma {:induction false} GroupJobsFit(env: ApplyEnv, mode: Mode, gate: Gate, group: seq<Object>, stage: nat)
    ensures AllFit(mode, GroupJobs(env, mode, gate, group, stage))
    ensures NoHooks(group) && group != [] && !gate.Excuse? ==> GroupJobs(env, mode, gate, group, stage) != []
    ensures gate.Reject? && group != [] ==> !AllSucceed(GroupJobs(env, mode, gate, group, stage))
    ensures !gate.Go? ==>
      forall i :: 0 <= i < |GroupJobs(env, mode, gate, group, stage)| ==>
        GroupJobs(env, mode, gate, group, stage)[i].call.None?
  {
    hide IsHook;
    if group != [] {
      var n := |group| - 1;
      GroupJobsFit(env, mode, gate, group[..n], stage);
      var jobs := GroupJobs(env, mode, gate, group, stage);
      if gate.Reject? { assert !jobs[|jobs| - 1].status.Successful(); }
    }
  }

  lemma {:induction false} OneCall(job: Job)
    ensures CallsOf([job]) == Made(job)
    ensures job.call.Some? && job.call.value.Applied? ==>
      && RealApplies(Made(job)) == (if job.call.value.dryRun then [] else [job.call.value.obj])
      && Prunes(Made(job)) == []
    ensures job.call.Some? && job.call.value.Pruned? ==>
      RealApplies(Made(job)) == [] && Prunes(Made(job)) == [job.call.value.obj]
  {
  }

  lemma {:induction false} GroupApplied(env: ApplyEnv, mode: Mode, group: seq<Object>, stage: nat)
    requires NoHooks(group) && !mode.dryRun
    ensures RealApplies(CallsOf(GroupJobs(env, mode, Go, group, stage))) == group
  {
    hide IsHook, CallsOf, RealApplies, Prunes;
    if group == [] {
      assert CallsOf([]) == [] && RealApplies([]) == [] by { NoCalls(); }
    } else {
      var n := |group| - 1;
      GroupApplied(env, mode, group[..n], stage);
      var before, job := GroupJobs(env, mode, Go, group[..n], stage), ApplyJob(env, mode, group[n], stage, n);
      CallsOfAppend(before, [job]);
      OneCall(job);
      RealAppliesAppend(CallsOf(before), Made(job));
      assert group == group[..n] + [group[n]];
    }
  }

  lemma {:induction false} NoCalls()
    ensures CallsOf([]) == [] && RealApplies([]) == [] && Prunes([]) == []
  {
  }

  /** Of one group, either every object is really applied, in order, or the group is turned away. */
  lemma {:induction false} GroupAppliedOrNot(env: ApplyEnv, mode: Mode, gate: Gate, group: seq<Object>, stage: nat)
    requires NoHooks(group)
    ensures var applied := RealApplies(CallsOf(GroupJobs(env, mode, gate, group, stage)));
            if gate.Go? && !mode.dryRun then applied == group else applied == []
  {
    hide IsHook;
    if gate.Go? && !mode.dryRun {
      GroupApplied(env, mode, group, stage);
    } else {
      GroupJobsFit(env, mode, gate, group, stage);
      NoRealApplies(GroupJobs(env, mode, gate, group, stage));
    }
  }

  lemma {:induction false} CreateJobsFit(env: ApplyEnv, mode: Mode, targets: seq<Object>, groups: seq<seq<Object>>)
    requires forall g :: 0 <= g < |groups| ==> groups[g] != [] && NoHooks(groups[g])
    ensures AllFit(mode, CreateJobs(env, mode, targets, groups))
    ensures !mode.dryRun && groups != [] ==> CreateJobs(env, mode, targets, groups) != []
  {
    hide NoHooks, GroupJobs, Fits;
    if groups != [] {
      var n := |groups| - 1;
      CreateJobsFit(env, mode, targets, groups[..n]);
      GroupJobsFit(env, mode, GroupGate(env, mode, targets, groups[n][0], |groups|), groups[n], |groups|);
    }
  }

  lemma {:induction false} CreateApplied(env: ApplyEnv, mode: Mode, targets: seq<Object>, groups: seq<seq<Object>>)
    requires forall g :: 0 <= g < |groups| ==> groups[g] != [] && NoHooks(groups[g])
    ensures var jobs := CreateJobs(env, mode, targets, groups);
            && (!mode.dryRun && AllSucceed(jobs) ==> RealApplies(CallsOf(jobs)) == Flatten(groups))
            && multiset(RealApplies(CallsOf(jobs))) <= multiset(Flatten(groups))
  {
    hide IsHook;
    if groups != [] {
      var n := |groups| - 1;
      var gate := GroupGate(env, mode, targets, groups[n][0], |groups|);
      var before := CreateJobs(env, mode, targets, groups[..n]);
      var jobs := GroupJobs(env, mode, gate, groups[n], |groups|);
      CreateApplied(env, mode, targets, groups[..n]);
      GroupAppliedOrNot(env, mode, gate, groups[n], |groups|);
      CallsOfAppend(before, jobs);
      RealAppliesAppend(CallsOf(before), CallsOf(jobs));
      if AllSucceed(before + jobs) && !mode.dryRun {
        SucceedParts(before, jobs);
        GroupJobsFit(env, mode, gate, groups[n], |groups|);
      }
    }
  }

  lemma {:induction false} SucceedParts(a: seq<Job>, b: seq<Job>)
    requires AllSucceed(a + b)
    ensures AllSucceed(a) && AllSucceed(b)
  {
    forall i | 0 <= i < |a| ensures a[i].status.Successful() { assert a[i] == (a + b)[i]; }
    forall i | 0 <= i < |b| ensures b[i].status.Successful() { assert b[i] == (a + b)[|a| + i]; }
  }

  ghost predicate ValidTasks(tasks: seq<Task>) {
    && (forall i :: 0 <= i < |tasks| ==> tasks[i].Valid())
    && (forall i :: 0 <= i < |tasks| && tasks[i].target.Some? ==> !IsHook(tasks[i].target.value))
  }

  /** Every live object is really pruned, once and in order, if pruning is on and the apply is not dry. */
  lemma {:induction false} PrunesMade(env: ApplyEnv, mode: Mode, lives: seq<Object>)
    ensures Prunes(CallsOf(PruneJobs(env, mode, lives))) == if mode.prune && !mode.dryRun then lives else []
  {
    hide CallsOf, RealApplies, Prunes;
    NoCalls();
    if lives != [] {
      var n := |lives| - 1;
      PrunesMade(env, mode, lives[..n]);
      var before, job := PruneJobs(env, mode, lives[..n]), PruneJob(env, mode, lives[n], n);
      CallsOfAppend(before, [job]);
      OneCall(job);
      PrunesAppend(CallsOf(before), Made(job));
      assert lives == lives[..n] + [lives[n]];
    }
  }

  lemma {:induction false} NoPrunes(jobs: seq<Job>)
    requires forall i :: 0 <= i < |jobs| && jobs[i].call.Some? ==> jobs[i].call.value.Applied?
    ensures Prunes(CallsOf(jobs)) == []
  {
    hide CallsOf, RealApplies, Prunes;
    NoCalls();
    if jobs != [] {
      var n := |jobs| - 1;
      NoPrunes(jobs[..n]);
      CallsOfAppend(jobs[..n], [jobs[n]]);
      assert jobs == jobs[..n] + [jobs[n]];
      OneCall(jobs[n]);
      PrunesAppend(CallsOf(jobs[..n]), Made(jobs[n]));
    }
  }

  lemma {:induction false} GroupNoPrunes(env: ApplyEnv, mode: Mode, gate: Gate, group: seq<Object>, stage: nat)
    ensures forall i :: 0 <= i < |GroupJobs(env, mode, gate, group, stage)| ==>
      var job := GroupJobs(env, mode, gate, group, stage)[i]; job.call.Some? ==> job.call.value.Applied?
  {
    hide IsHook;
    if group != [] { GroupNoPrunes(env, mode, gate, group[..|group| - 1], stage); }
  }

  lemma {:induction false} CreatesNoPrunes(env: ApplyEnv, mode: Mode, targets: seq<Object>, groups: seq<seq<Object>>)
    ensures forall i :: 0 <= i < |CreateJobs(env, mode, targets, groups)| ==>
      var job := CreateJobs(env, mode, targets, groups)[i]; job.call.Some? ==> job.call.value.Applied?
  {
    hide GroupGate, GroupJobs;
    if groups != [] {
      var n := |groups| - 1;
      CreatesNoPrunes(env, mode, targets, groups[..n]);
      if groups[n] != [] {
        GroupNoPrunes(env, mode, GroupGate(env, mode, targets, groups[n][0], |groups|), groups[n], |groups|);
      }
    }
  }

  lemma {:induction false} PlanPrunes(env: ApplyEnv, mode: Mode, tasks: seq<Task>)
    ensures Prunes(CallsOf(Plan(env, mode, tasks))) == if mode.prune && !mode.dryRun then Lives(tasks) else []
  {
    hide CallsOf, Prunes, PruneJobs, CreateJobs, Groups, Targets, Lives;
    var targets := Targets(tasks);
    var prunes, creates := PruneJobs(env, mode, Lives(tasks)), CreateJobs(env, mode, targets, Groups(targets));
    PrunesMade(env, mode, Lives(tasks));
    CreatesNoPrunes(env, mode, targets, Groups(targets));
    NoPrunes(creates);
    CallsOfAppend(prunes, creates);
    PrunesAppend(CallsOf(prunes), CallsOf(creates));
  }

  /** The live objects of the tasks without a target, task by task. */
  lemma {:induction false} LivesAre(a: seq<Task>, b: seq<Task>, x: Task)
    ensures Lives(a + b) == Lives(a) + Lives(b)
    ensures Lives([x]) == if x.target.None? && x.live.Some? then [x.live.value] else []
  {
    assert [x][..0] == [];
    if b == [] {
      assert a + b == a;
    } else {
      LivesAre(a, b[..|b| - 1], x);
      assert (a + b)[..|a + b| - 1] == a + b[..|b| - 1];
    }
  }

  /** The targets of the tasks, task by task. */
  lemma {:induction false} TargetsAre(a: seq<Task>, b: seq<Task>, x: Task)
    ensures Targets(a + b) == Targets(a) + Targets(b)
    ensures Targets([x]) == if x.target.Some? then [x.target.value] else []
  {
    assert [x][..0] == [];
    if b == [] {
      assert a + b == a;
    } else {
      TargetsAre(a, b[..|b| - 1], x);
      assert (a + b)[..|a + b| - 1] == a + b[..|b| - 1];
    }
  }

  lemma {:induction false} TasksSplit(tasks: seq<Task>)
    requires ValidTasks(tasks)
    ensures |Lives(tasks)| + |Targets(tasks)| == |tasks|
    ensures NoHooks(Targets(tasks))
  {
    hide IsHook;
    if tasks != [] {
      TasksSplit(tasks[..|tasks| - 1]);
    }
  }

  lemma {:induction false} NoHooksParts(a: seq<Object>, b: seq<Object>)
    requires NoHooks(a + b)
    ensures NoHooks(a) && NoHooks(b)
  {
    hide IsHook;
    forall i | 0 <= i < |a| ensures !IsHook(a[i]) { assert a[i] == (a + b)[i]; }
    forall i | 0 <= i < |b| ensures !IsHook(b[i]) { assert b[i] == (a + b)[|a| + i]; }
  }

  lemma {:induction false} FlattenMember(groups: seq<seq<Object>>, g: nat)
    requires g < |groups| && NoHooks(Flatten(groups))
    ensures NoHooks(groups[g])
  {
    hide NoHooks;
    var n := |groups| - 1;
    NoHooksParts(Flatten(groups[..n]), groups[n]);
    if g < n { FlattenMember(groups[..n], g); }
  }

  lemma {:induction false} PlanFits(env: ApplyEnv, mode: Mode, tasks: seq<Task>)
    requires ValidTasks(tasks)
    ensures AllFit(mode, Plan(env, mode, tasks))
    ensures !mode.dryRun && tasks != [] ==> Plan(env, mode, tasks) != []
    ensures var applied := RealApplies(CallsOf(Plan(env, mode, tasks)));
            && (!mode.dryRun && AllSucceed(Plan(env, mode, tasks)) ==> applied == Targets(tasks))
            && multiset(applied) <= multiset(Targets(tasks))
  {
    hide IsHook, CreateJobs, PruneJobs, CallsOf, RealApplies, Groups, Lives, Targets, NoHooks;
    var targets := Targets(tasks);
    var groups := Groups(targets);
    TasksSplit(tasks);
    GroupsPartition(targets);
    forall g | 0 <= g < |groups| ensures NoHooks(groups[g]) { FlattenMember(groups, g); }
    var prunes, creates := PruneJobs(env, mode, Lives(tasks)), CreateJobs(env, mode, targets, groups);
    PruneJobsFit(env, mode, Lives(tasks));
    CreateJobsFit(env, mode, targets, groups);
    NoRealApplies(prunes);
    CreateApplied(env, mode, targets, groups);
    CallsOfAppend(prunes, creates);
    RealAppliesAppend(CallsOf(prunes), CallsOf(creates));
    if AllSucceed(prunes + creates) { SucceedParts(prunes, creates); }
  }

  /** An apply adds only its own calls. A real apply that reports success has really and successfully applied
      every target exactly once, in order; a failed one has applied none of them twice. With pruning on, every real
      apply prunes each live object without a target exactly once, in order, and otherwise none is pruned. An apply
      that was to record its results leaves the resource list non-empty whenever it had a task. */
  lemma {:induction false} DoApplyMeaning(env: ApplyEnv, mode: Mode, tasks: seq<Task>, resources: Resources)
    requires ValidTasks(tasks)
    ensures var r := DoApply(env, mode, tasks, resources);
            && |r.resources| >= |resources|
            && (forall k :: 0 <= k < |r.calls| ==>
                  var c := r.calls[k];
                  ((c.Applied? && c.dryRun == mode.dryRun) || (c.Pruned? && !mode.dryRun)) && (r.ok ==> c.ok))
            && (!mode.dryRun && r.ok ==> RealApplies(r.calls) == Targets(tasks))
            && multiset(RealApplies(r.calls)) <= multiset(Targets(tasks))
            && Prunes(r.calls) == (if mode.prune && !mode.dryRun then Lives(tasks) else [])
            && (!mode.dryRun && mode.update && tasks != [] ==> r.resources != [])
            && (!mode.update && r.ok ==> r.resources == resources)
  {
    hide IsHook, Plan, Lives, Targets, RealApplies, Prunes, CallsOf;
    var plan := Plan(env, mode, tasks);
    PlanFits(env, mode, tasks);
    PlanPrunes(env, mode, tasks);
    PerformAllSum(mode, Outcome(true, resources, []), plan);
    CallsOfFit(mode, plan);
    assert DoApply(env, mode, tasks, resources).calls == CallsOf(plan);
  }
}
