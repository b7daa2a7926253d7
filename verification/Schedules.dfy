/** The goroutines of an apply-based sync, under every schedule. The main goroutine starts one goroutine for each job of
    a stage, adding one to the stage's WaitGroup before each, and waits for the WaitGroup before it goes on to the next
    stage; the jobs of a rejected group it does itself. Each goroutine makes its call, then lowers the shared success
    flag if it failed, then updates the shared result list under the lock, and at last is done with the WaitGroup. */
module Schedules {
  import opened Kube
  import opened Keyed
  import opened SyncState
  import opened ApplySync

  datatype Pc = Unborn | Started | Called | Flagged | Recorded | Done
  {
    predicate Live() { !Unborn? && !Done? }
    predicate HasCalled() { !Unborn? && !Started? }
    predicate HasFlagged() { HasCalled() && !Called? }
    predicate HasRecorded() { Recorded? || Done? }
  }

  /** The main goroutine: the stage it is at, the next job to start, and whether it has counted that job already. */
  datatype Main = Main(stage: nat, next: nat, added: bool, returned: bool)

  /** `counter` is the WaitGroup of the stage that the main goroutine is at. */
  datatype Threads = Threads(pc: seq<Pc>, main: Main, counter: int, shared: Outcome)

  datatype Turn = MainTurn | Goroutine(i: nat)

  /** The jobs of a rejected group fail without a call, and the main goroutine records them itself. */
  predicate Inline(job: Job) {
    job.stage > 0 && job.call.None?
  }

  /** What the shared state becomes when a job gets from one place to a later one. */
  function Effects(mode: Mode, job: Job, from: Pc, to: Pc, o: Outcome): Outcome {
    Outcome(
      if to.HasFlagged() && !from.HasFlagged() then o.ok && job.status.Successful() else o.ok,
      if to.HasRecorded() && !from.HasRecorded() && Records(mode, job) then Put(o.resources, job.key, job.status)
      else o.resources,
      if to.HasCalled() && !from.HasCalled() then o.calls + Made(job) else o.calls)
  }

  function Moved(mode: Mode, jobs: seq<Job>, s: Threads, i: nat, to: Pc): (n: Threads)
    requires |s.pc| == |jobs| && i < |jobs|
    ensures |n.pc| == |jobs|
  {
    s.(pc := s.pc[i := to], shared := Effects(mode, jobs[i], s.pc[i], to, s.shared))
  }

  /** The next action of the main goroutine, unless it has to wait. */
  function MainActs(mode: Mode, jobs: seq<Job>, s: Threads): (r: Option<Threads>)
    requires |s.pc| == |jobs|
    ensures r.Some? ==> |r.value.pc| == |jobs|
  {
    var main := s.main;
    if main.returned || main.next > |jobs| then None
    else if main.next == |jobs| then
      if s.counter == 0 then Some(s.(main := main.(returned := true))) else None
    else if main.stage < jobs[main.next].stage then
      if s.counter == 0 then Some(s.(main := main.(stage := main.stage + 1))) else None
    else if Inline(jobs[main.next]) then
      Some(Moved(mode, jobs, s, main.next, Done).(main := main.(next := main.next + 1)))
    else if !main.added then Some(s.(main := main.(added := true), counter := s.counter + 1))
    else Some(Moved(mode, jobs, s, main.next, Started).(main := main.(next := main.next + 1, added := false)))
  }

  function After(pc: Pc): Pc
    requires pc.Live()
  {
    match pc
    case Started => Called
    case Called => Flagged
    case Flagged => Recorded
    case Recorded => Done
  }

  /** The next action of goroutine i. */
  function Advance(mode: Mode, jobs: seq<Job>, s: Threads, i: nat): (n: Threads)
    requires |s.pc| == |jobs| && i < |jobs| && s.pc[i].Live()
    ensures |n.pc| == |jobs|
  {
    var n := Moved(mode, jobs, s, i, After(s.pc[i]));
    if s.pc[i].Recorded? then n.(counter := s.counter - 1) else n
  }

  function Act(mode: Mode, jobs: seq<Job>, s: Threads, turn: Turn): (r: Option<Threads>)
    requires |s.pc| == |jobs|
    ensures r.Some? ==> |r.value.pc| == |jobs|
  {
    if turn.MainTurn? then MainActs(mode, jobs, s)
    else if turn.i < |jobs| && s.pc[turn.i].Live() then Some(Advance(mode, jobs, s, turn.i))
    else None
  }

  /** The state after the turns of the schedule, if each of them is possible. */
  function Run(mode: Mode, jobs: seq<Job>, s: Threads, schedule: seq<Turn>): (r: Option<Threads>)
    requires |s.pc| == |jobs|
    ensures r.Some? ==> |r.value.pc| == |jobs|
    decreases |schedule|
  {
    if schedule == [] then Some(s)
    else
      var n := Act(mode, jobs, s, schedule[0]);
      if n.Some? then Run(mode, jobs, n.value, schedule[1..]) else None
  }

  function Begin(jobs: seq<Job>, resources: Resources): Threads {
    Threads(seq(|jobs|, _ => Unborn), Main(0, 0, false, false), 0, Outcome(true, resources, []))
  }

  /** The main goroutine starts a goroutine for every job of its stage that makes a call, and for every prune, without
      waiting for the others and without doing any of its work; and a goroutine that has started can act at any time. */
  lemma {:induction false} GoroutinesRunFreely(mode: Mode, jobs: seq<Job>, s: Threads, i: nat)
    requires |s.pc| == |jobs| && i < |jobs|
    ensures var main := s.main;
            && !main.returned && main.next == i && jobs[i].stage <= main.stage
            && (jobs[i].call.Some? || jobs[i].stage == 0) ==>
              var n := Act(mode, jobs, s, MainTurn);
              && n.Some? && n.value.shared == s.shared
              && if main.added then n.value.pc == s.pc[i := Started] && n.value.counter == s.counter
                 else n.value.pc == s.pc && n.value.counter == s.counter + 1
    ensures Act(mode, jobs, s, Goroutine(i)).Some? <==> s.pc[i].Live()
    ensures s.pc[i].Live() ==>
      var n := Act(mode, jobs, s, Goroutine(i)).value;
      n.main == s.main && forall j :: 0 <= j < |jobs| && j != i ==> n.pc[j] == s.pc[j]
  {
    hide Records;
  }

  // ---------------------------------------------------------------------------------------------
  // The WaitGroup counts
  // ---------------------------------------------------------------------------------------------

  function Count(pc: seq<Pc>): nat {
    if pc == [] then 0 else Count(pc[..|pc| - 1]) + if pc[|pc| - 1].Live() then 1 else 0
  }

  lemma {:induction false} CountUpdate(pc: seq<Pc>, i: nat, p: Pc)
    requires i < |pc|
    ensures Count(pc[i := p]) + (if pc[i].Live() then 1 else 0) == Count(pc) + if p.Live() then 1 else 0
  {
    var n := |pc| - 1;
    if i < n {
      CountUpdate(pc[..n], i, p);
      assert pc[i := p][..n] == pc[..n][i := p];
    } else {
      assert pc[i := p][..n] == pc[..n];
    }
  }

  lemma {:induction false} SomeoneCounted(pc: seq<Pc>) returns (i: nat)
    requires Count(pc) > 0
    ensures i < |pc| && pc[i].Live()
  {
    i := |pc| - 1;
    if !pc[i].Live() { i := SomeoneCounted(pc[..i]); }
  }

  /** Jobs are listed in the order of their stages. */
  ghost predicate InStages(jobs: seq<Job>) {
    forall i, j :: 0 <= i < j < |jobs| ==> jobs[i].stage <= jobs[j].stage
  }

  function LastStage(jobs: seq<Job>): nat {
    if jobs == [] then 0 else jobs[|jobs| - 1].stage
  }

  /** The counter is the number of goroutines started and not done, plus the one just counted; all of these belong to
      the stage that the main goroutine is at, which is past none of the jobs it still has to start. */
  ghost predicate Counted(jobs: seq<Job>, s: Threads) {
    && |s.pc| == |jobs| && s.main.next <= |jobs| && s.main.stage <= LastStage(jobs)
    && s.counter == Count(s.pc) + (if s.main.added then 1 else 0)
    && (s.main.added ==>
          s.main.next < |jobs| && jobs[s.main.next].stage == s.main.stage && !Inline(jobs[s.main.next]))
    && (s.main.next < |jobs| ==> s.main.stage <= jobs[s.main.next].stage)
    && (forall i :: 0 <= i < |jobs| ==> (s.pc[i].Unborn? <==> s.main.next <= i))
    && (forall i :: 0 <= i < s.main.next ==> jobs[i].stage <= s.main.stage)
    && (forall i :: 0 <= i < |jobs| && s.pc[i].Live() ==> jobs[i].stage == s.main.stage)
    && (s.main.returned ==> s.main.next == |jobs| && s.counter == 0)
  }

  /** With nothing counted, nothing is live. */
  lemma {:induction false} NoneCounted(pc: seq<Pc>, i: nat)
    requires Count(pc) == 0 && i < |pc|
    ensures !pc[i].Live()
  {
    if i < |pc| - 1 { NoneCounted(pc[..|pc| - 1], i); }
  }

  lemma {:induction false} MainCounts(mode: Mode, jobs: seq<Job>, s: Threads)
    requires InStages(jobs) && Counted(jobs, s) && MainActs(mode, jobs, s).Some?
    ensures Counted(jobs, MainActs(mode, jobs, s).value)
  {
    hide Effects, Count;
    var main, n := s.main, MainActs(mode, jobs, s).value;
    if main.next < |jobs| && main.stage < jobs[main.next].stage {
      forall i | 0 <= i < |jobs| ensures !s.pc[i].Live() { NoneCounted(s.pc, i); }
    } else if main.next < |jobs| {
      CountUpdate(s.pc, main.next, n.pc[main.next]);
      assert s.pc[main.next := s.pc[main.next]] == s.pc;
    }
  }

  lemma {:induction false} GoroutineCounts(mode: Mode, jobs: seq<Job>, s: Threads, i: nat)
    requires Counted(jobs, s) && i < |jobs| && s.pc[i].Live()
    ensures Counted(jobs, Advance(mode, jobs, s, i))
  {
    hide Effects, Count;
    var n := Advance(mode, jobs, s, i);
    CountUpdate(s.pc, i, n.pc[i]);
    if s.main.returned { NoneCounted(s.pc, i); }
  }

  lemma {:induction false} RunCounts(mode: Mode, jobs: seq<Job>, s: Threads, schedule: seq<Turn>)
    requires InStages(jobs) && Counted(jobs, s) && Run(mode, jobs, s, schedule).Some?
    ensures Counted(jobs, Run(mode, jobs, s, schedule).value)
    decreases |schedule|
  {
    hide Counted, MainActs, Advance;
    assert |s.pc| == |jobs| by { CountedLengths(jobs, s); }
    if schedule != [] {
      if schedule[0].MainTurn? {
        MainCounts(mode, jobs, s);
      } else {
        GoroutineCounts(mode, jobs, s, schedule[0].i);
      }
      RunCounts(mode, jobs, Act(mode, jobs, s, schedule[0]).value, schedule[1..]);
    }
  }

  lemma {:induction false} CountedLengths(jobs: seq<Job>, s: Threads)
    requires Counted(jobs, s)
    ensures |s.pc| == |jobs|
  {
  }

  lemma {:induction false} BeginCounted(jobs: seq<Job>, resources: Resources)
    ensures Counted(jobs, Begin(jobs, resources))
  {
    NoneLive(|jobs|);
  }

  lemma {:induction false} NoneLive(n: nat)
    ensures Count(seq(n, _ => Unborn)) == 0
  {
    if n > 0 {
      NoneLive(n - 1);
      assert seq(n, _ => Unborn)[..n - 1] == seq(n - 1, _ => Unborn);
    }
  }

  /** Whoever has started finds every goroutine of an earlier stage done. */
  lemma {:induction false} Barrier(jobs: seq<Job>, s: Threads, i: nat, j: nat)
    requires InStages(jobs) && Counted(jobs, s) && i < |jobs| && j < |jobs|
    requires !s.pc[i].Unborn? && jobs[j].stage < jobs[i].stage
    ensures s.pc[j].Done?
  {
  }

  /** As long as the main goroutine has not returned, it or a goroutine can act; and the counter never gets negative. */
  lemma {:induction false} SomeoneCanMove(env: ApplyEnv, mode: Mode, tasks: seq<Task>, resources: Resources,
                                          schedule: seq<Turn>)
    requires Run(mode, Plan(env, mode, tasks), Begin(Plan(env, mode, tasks), resources), schedule).Some?
    ensures var jobs := Plan(env, mode, tasks);
            var now := Run(mode, jobs, Begin(jobs, resources), schedule).value;
            && now.counter >= 0
            && (!now.main.returned ==> exists turn :: Act(mode, jobs, now, turn).Some?)
  {
    hide Plan, Effects, Count;
    var jobs := Plan(env, mode, tasks);
    PlanInStages(env, mode, tasks);
    BeginCounted(jobs, resources);
    RunCounts(mode, jobs, Begin(jobs, resources), schedule);
    var now := Run(mode, jobs, Begin(jobs, resources), schedule).value;
    if !now.main.returned && Act(mode, jobs, now, MainTurn).None? {
      var i := SomeoneCounted(now.pc);
      assert Act(mode, jobs, now, Goroutine(i)).Some?;
    }
  }

  // ---------------------------------------------------------------------------------------------
  // Every schedule comes to its end
  // ---------------------------------------------------------------------------------------------

  function Left(pc: Pc): nat {
    match pc
    case Unborn => 6
    case Started => 4
    case Called => 3
    case Flagged => 2
    case Recorded => 1
    case Done => 0
  }

  function AllLeft(pc: seq<Pc>): nat {
    if pc == [] then 0 else AllLeft(pc[..|pc| - 1]) + Left(pc[|pc| - 1])
  }

  lemma {:induction false} LeftUpdate(pc: seq<Pc>, i: nat, p: Pc)
    requires i < |pc|
    ensures AllLeft(pc[i := p]) + Left(pc[i]) == AllLeft(pc) + Left(p)
  {
    var n := |pc| - 1;
    if i < n {
      LeftUpdate(pc[..n], i, p);
      assert pc[i := p][..n] == pc[..n][i := p];
    } else {
      assert pc[i := p][..n] == pc[..n];
    }
  }

  /** How many turns there can still be: those of the goroutines, those that start them, one for each stage to go, and
      the return. */
  function TurnsLeft(jobs: seq<Job>, s: Threads): int {
    AllLeft(s.pc) + (if s.main.added then 0 else 1) + (LastStage(jobs) - s.main.stage)
    + (if s.main.returned then 0 else 1)
  }

  lemma {:induction false} TurnUsed(mode: Mode, jobs: seq<Job>, s: Threads, turn: Turn)
    requires InStages(jobs) && Counted(jobs, s) && Act(mode, jobs, s, turn).Some?
    ensures TurnsLeft(jobs, Act(mode, jobs, s, turn).value) < TurnsLeft(jobs, s)
  {
    hide Effects, Count, AllLeft;
    var i, n := if turn.MainTurn? then s.main.next else turn.i, Act(mode, jobs, s, turn).value;
    if i < |jobs| {
      LeftUpdate(s.pc, i, n.pc[i]);
      assert s.pc[i := s.pc[i]] == s.pc;
    }
  }

  lemma {:induction false} TurnsBound(mode: Mode, jobs: seq<Job>, s: Threads, schedule: seq<Turn>)
    requires InStages(jobs) && Counted(jobs, s) && Run(mode, jobs, s, schedule).Some?
    ensures |schedule| <= TurnsLeft(jobs, s)
    decreases |schedule|
  {
    if schedule != [] {
      TurnUsed(mode, jobs, s, schedule[0]);
      RunCounts(mode, jobs, s, [schedule[0]]);
      hide Act, Counted, TurnsLeft, InStages;
      OneTurn(mode, jobs, s, schedule[0]);
      TurnsBound(mode, jobs, Act(mode, jobs, s, schedule[0]).value, schedule[1..]);
    }
  }

  lemma {:induction false} OneTurn(mode: Mode, jobs: seq<Job>, s: Threads, turn: Turn)
    requires |s.pc| == |jobs|
    ensures Run(mode, jobs, s, [turn]) == Act(mode, jobs, s, turn)
  {
  }

  lemma {:induction false} AllUnborn(n: nat)
    ensures AllLeft(seq(n, _ => Unborn)) == 6 * n
  {
    if n > 0 {
      AllUnborn(n - 1);
      assert seq(n, _ => Unborn)[..n - 1] == seq(n - 1, _ => Unborn);
    }
  }

  /** No schedule is longer than six turns for each job, one for each stage, and two more; with someone always able to
      act until then, every apply returns. */
  lemma {:induction false} EveryScheduleEnds(env: ApplyEnv, mode: Mode, tasks: seq<Task>, resources: Resources,
                                             schedule: seq<Turn>)
    requires Run(mode, Plan(env, mode, tasks), Begin(Plan(env, mode, tasks), resources), schedule).Some?
    ensures |schedule| <= 6 * |Plan(env, mode, tasks)| + LastStage(Plan(env, mode, tasks)) + 2
  {
    hide Plan, AllLeft, Counted, InStages, Run;
    var jobs := Plan(env, mode, tasks);
    PlanInStages(env, mode, tasks);
    BeginCounted(jobs, resources);
    TurnsBound(mode, jobs, Begin(jobs, resources), schedule);
    AllUnborn(|jobs|);
  }

  // ---------------------------------------------------------------------------------------------
  // What the barriers separate
  // ---------------------------------------------------------------------------------------------

  lemma {:induction false} GroupStages(env: ApplyEnv, mode: Mode, gate: Gate, group: seq<Object>, stage: nat)
    ensures forall i :: 0 <= i < |GroupJobs(env, mode, gate, group, stage)| ==>
      var job := GroupJobs(env, mode, gate, group, stage)[i];
      job.stage == stage && exists k :: 0 <= k < |group| && job.key == KeyOf(group[k])
  {
    hide IsHook;
    if group != [] {
      var n := |group| - 1;
      GroupStages(env, mode, gate, group[..n], stage);
      var jobs := GroupJobs(env, mode, gate, group, stage);
      forall i | 0 <= i < |jobs|
        ensures jobs[i].stage == stage && exists k :: 0 <= k < |group| && jobs[i].key == KeyOf(group[k])
      {
        if i < |GroupJobs(env, mode, gate, group[..n], stage)| {
          var k :| 0 <= k < n && jobs[i].key == KeyOf(group[..n][k]);
          assert jobs[i].key == KeyOf(group[k]);
        } else {
          assert jobs[i].key == KeyOf(group[n]);
        }
      }
    }
  }

  /** The jobs of the g-th group of a kind form stage g. */
  lemma {:induction false} CreateStages(env: ApplyEnv, mode: Mode, targets: seq<Object>, groups: seq<seq<Object>>)
    requires KindGroups(groups)
    ensures forall i :: 0 <= i < |CreateJobs(env, mode, targets, groups)| ==>
      var job := CreateJobs(env, mode, targets, groups)[i];
      0 < job.stage <= |groups| && job.key.kind == groups[job.stage - 1][0].kind
  {
    hide GroupGate, GroupJobs;
    if groups != [] {
      var n := |groups| - 1;
      var before, jobs := CreateJobs(env, mode, targets, groups[..n]), CreateJobs(env, mode, targets, groups);
      CreateStages(env, mode, targets, groups[..n]);
      var gate := GroupGate(env, mode, targets, groups[n][0], |groups|);
      GroupStages(env, mode, gate, groups[n], |groups|);
      forall i | 0 <= i < |jobs|
        ensures 0 < jobs[i].stage <= |groups| && jobs[i].key.kind == groups[jobs[i].stage - 1][0].kind
      {
        if i < |before| {
          assert jobs[i] == before[i];
        } else {
          assert jobs[i] == GroupJobs(env, mode, gate, groups[n], |groups|)[i - |before|];
        }
      }
    }
  }

  lemma {:induction false} GroupInStages(env: ApplyEnv, mode: Mode, targets: seq<Object>, groups: seq<seq<Object>>)
    requires KindGroups(groups)
    ensures InStages(CreateJobs(env, mode, targets, groups))
  {
    hide GroupGate, GroupJobs;
    if groups != [] {
      var n := |groups| - 1;
      GroupInStages(env, mode, targets, groups[..n]);
      CreateStages(env, mode, targets, groups[..n]);
      GroupStages(env, mode, GroupGate(env, mode, targets, groups[n][0], |groups|), groups[n], |groups|);
    }
  }

  /** The plan lists the prunes, at stage zero, and then the groups, one stage after the other. */
  lemma {:induction false} PlanInStages(env: ApplyEnv, mode: Mode, tasks: seq<Task>)
    ensures InStages(Plan(env, mode, tasks))
  {
    hide CreateJobs, PruneJobs, KindGroups;
    var targets := Targets(tasks);
    GroupsPartition(targets);
    GroupInStages(env, mode, targets, Groups(targets));
    CreateStages(env, mode, targets, Groups(targets));
    PruneJobsFit(env, mode, Lives(tasks));
  }

  /** In every state an apply can be in: a create that has started finds all prunes done, and a create of one
      group finds all creates of the groups before it done. */
  lemma {:induction false} StagesInOrder(env: ApplyEnv, mode: Mode, tasks: seq<Task>, resources: Resources,
                                         schedule: seq<Turn>, i: nat, j: nat)
    requires Run(mode, Plan(env, mode, tasks), Begin(Plan(env, mode, tasks), resources), schedule).Some?
    requires i < |Plan(env, mode, tasks)| && j < |Plan(env, mode, tasks)|
    requires |Lives(tasks)| <= i
    ensures var groups, jobs := Groups(Targets(tasks)), Plan(env, mode, tasks);
            var now := Run(mode, jobs, Begin(jobs, resources), schedule).value;
            && KindGroups(groups)
            && 0 < jobs[i].stage <= |groups| && jobs[i].key.kind == groups[jobs[i].stage - 1][0].kind
            && (j < |Lives(tasks)| ==> jobs[j].stage == 0)
            && (!now.pc[i].Unborn? && jobs[j].stage < jobs[i].stage ==> now.pc[j].Done?)
  {
    hide KindGroups, GroupGate, Groups, CreateJobs, PruneJobs, Lives, Targets, Run, Advance, Counted, InStages;
    var targets, jobs := Targets(tasks), Plan(env, mode, tasks);
    GroupsPartition(targets);
    CreateStages(env, mode, targets, Groups(targets));
    PruneJobsFit(env, mode, Lives(tasks));
    assert jobs[i] == CreateJobs(env, mode, targets, Groups(targets))[i - |Lives(tasks)|];
    PlanInStages(env, mode, tasks);
    BeginCounted(jobs, resources);
    RunCounts(mode, jobs, Begin(jobs, resources), schedule);
    var now := Run(mode, jobs, Begin(jobs, resources), schedule).value;
    if !now.pc[i].Unborn? && jobs[j].stage < jobs[i].stage { Barrier(jobs, now, i, j); }
  }

  // ---------------------------------------------------------------------------------------------
  // Outcomes
  // ---------------------------------------------------------------------------------------------

  ghost predicate DistinctKeys(jobs: seq<Job>) {
    forall i, j :: 0 <= i < j < |jobs| ==> jobs[i].key != jobs[j].key
  }

  /** The flag is down exactly if it was at the start or a goroutine that failed has lowered it. */
  ghost predicate FlagIs(jobs: seq<Job>, start: bool, pc: seq<Pc>, now: bool)
    requires |pc| == |jobs|
  {
    now <==> start && forall i :: 0 <= i < |jobs| && pc[i].HasFlagged() ==> jobs[i].status.Successful()
  }

  /** Job i has written the entry of the key. */
  predicate Writes(mode: Mode, jobs: seq<Job>, pc: seq<Pc>, i: nat, k: ResourceKey)
    requires |pc| == |jobs|
  {
    i < |jobs| && jobs[i].key == k && pc[i].HasRecorded() && Records(mode, jobs[i])
  }

  ghost predicate Written(mode: Mode, jobs: seq<Job>, pc: seq<Pc>, k: ResourceKey)
    requires |pc| == |jobs|
  {
    exists i: nat :: Writes(mode, jobs, pc, i, k)
  }

  /** The entry of the key is the one that job i has written. */
  predicate Stems(mode: Mode, jobs: seq<Job>, pc: seq<Pc>, now: Resources, i: nat, k: ResourceKey)
    requires |pc| == |jobs|
  {
    Writes(mode, jobs, pc, i, k) && Lookup(now, k) == Some(jobs[i].status)
  }

  /** The entry of the key is what one of the goroutines that got there wrote, and the initial one if there is none. */
  ghost predicate EntryIs(mode: Mode, jobs: seq<Job>, start: Resources, pc: seq<Pc>, now: Resources, k: ResourceKey)
    requires |pc| == |jobs|
  {
    if Written(mode, jobs, pc, k)
    then exists i: nat :: Stems(mode, jobs, pc, now, i, k)
    else Lookup(now, k) == Lookup(start, k)
  }

  ghost predicate ListIs(mode: Mode, jobs: seq<Job>, start: Resources, pc: seq<Pc>, now: Resources)
    requires |pc| == |jobs|
  {
    forall k :: EntryIs(mode, jobs, start, pc, now, k)
  }

  /** The calls of the goroutines that have made theirs. */
  function MadeBy(jobs: seq<Job>, pc: seq<Pc>): multiset<Call>
    requires |pc| == |jobs|
  {
    if jobs == [] then multiset{}
    else
      var n := |jobs| - 1;
      MadeBy(jobs[..n], pc[..n]) + multiset(if pc[n].HasCalled() then Made(jobs[n]) else [])
  }

  ghost predicate Consistent(mode: Mode, jobs: seq<Job>, start: Outcome, s: Threads)
    requires |s.pc| == |jobs|
  {
    && FlagIs(jobs, start.ok, s.pc, s.shared.ok)
    && ListIs(mode, jobs, start.resources, s.pc, s.shared.resources)
    && multiset(s.shared.calls) == multiset(start.calls) + MadeBy(jobs, s.pc)
  }

  /** A job only ever gets further. */
  predicate Further(from: Pc, to: Pc) {
    && (from.HasCalled() ==> to.HasCalled())
    && (from.HasFlagged() ==> to.HasFlagged())
    && (from.HasRecorded() ==> to.HasRecorded())
  }

  lemma {:induction false} MadeByUpdate(jobs: seq<Job>, pc: seq<Pc>, i: nat, p: Pc)
    requires |pc| == |jobs| && i < |jobs| && Further(pc[i], p)
    ensures MadeBy(jobs, pc[i := p]) ==
            MadeBy(jobs, pc) + multiset(if p.HasCalled() && !pc[i].HasCalled() then Made(jobs[i]) else [])
  {
    var n := |jobs| - 1;
    if i < n {
      MadeByUpdate(jobs[..n], pc[..n], i, p);
      assert pc[i := p][..n] == pc[..n][i := p];
    } else {
      assert pc[i := p][..n] == pc[..n];
    }
  }

  lemma {:induction false} MovedCalls(mode: Mode, jobs: seq<Job>, start: multiset<Call>, s: Threads, i: nat, to: Pc)
    requires |s.pc| == |jobs| && i < |jobs| && Further(s.pc[i], to)
    requires multiset(s.shared.calls) == start + MadeBy(jobs, s.pc)
    ensures multiset(Moved(mode, jobs, s, i, to).shared.calls) == start + MadeBy(jobs, Moved(mode, jobs, s, i, to).pc)
  {
    hide Records, Made, Put, MadeBy;
    MadeByUpdate(jobs, s.pc, i, to);
  }

  lemma {:induction false} MovedFlag(mode: Mode, jobs: seq<Job>, start: bool, s: Threads, i: nat, to: Pc)
    requires |s.pc| == |jobs| && i < |jobs| && Further(s.pc[i], to) && FlagIs(jobs, start, s.pc, s.shared.ok)
    ensures FlagIs(jobs, start, Moved(mode, jobs, s, i, to).pc, Moved(mode, jobs, s, i, to).shared.ok)
  {
    hide Records, Made, Put;
    var n := Moved(mode, jobs, s, i, to);
    assert forall j :: 0 <= j < |jobs| && j != i ==> n.pc[j] == s.pc[j];
    assert n.pc[i] == to;
  }

  lemma {:induction false} ListWrite(mode: Mode, jobs: seq<Job>, start: Resources, pc: seq<Pc>, now: Resources, i: nat,
                                     to: Pc)
    requires |pc| == |jobs| && i < |jobs| && !pc[i].HasRecorded() && to.HasRecorded()
    requires ListIs(mode, jobs, start, pc, now)
    ensures ListIs(mode, jobs, start, pc[i := to],
                   if Records(mode, jobs[i]) then Put(now, jobs[i].key, jobs[i].status) else now)
  {
    hide Put, Records, Lookup;
    var job, after := jobs[i], pc[i := to];
    var list := if Records(mode, job) then Put(now, job.key, job.status) else now;
    forall k ensures EntryIs(mode, jobs, start, after, list, k) {
      LookupPut(now, job.key, job.status, k);
      assert EntryIs(mode, jobs, start, pc, now, k);
      if Records(mode, job) && k == job.key {
        assert Writes(mode, jobs, after, i, k) && Stems(mode, jobs, after, list, i, k);
      } else {
        assert forall j: nat :: Writes(mode, jobs, after, j, k) == Writes(mode, jobs, pc, j, k);
        assert forall j: nat :: Stems(mode, jobs, after, list, j, k) == Stems(mode, jobs, pc, now, j, k);
      }
    }
  }

  lemma {:induction false} MovedList(mode: Mode, jobs: seq<Job>, start: Resources, s: Threads, i: nat, to: Pc)
    requires |s.pc| == |jobs| && i < |jobs| && Further(s.pc[i], to)
    requires ListIs(mode, jobs, start, s.pc, s.shared.resources)
    ensures ListIs(mode, jobs, start, Moved(mode, jobs, s, i, to).pc, Moved(mode, jobs, s, i, to).shared.resources)
  {
    hide Records, Made, Put;
    var n := Moved(mode, jobs, s, i, to);
    if to.HasRecorded() && !s.pc[i].HasRecorded() {
      ListWrite(mode, jobs, start, s.pc, s.shared.resources, i, to);
    } else {
      assert forall j :: 0 <= j < |jobs| ==> n.pc[j].HasRecorded() == s.pc[j].HasRecorded();
      SameWriters(mode, jobs, start, s.pc, n.pc, s.shared.resources);
    }
  }

  lemma {:induction false} SameWriters(mode: Mode, jobs: seq<Job>, start: Resources, a: seq<Pc>, b: seq<Pc>,
                                       now: Resources)
    requires |a| == |b| == |jobs| && ListIs(mode, jobs, start, a, now)
    requires forall j :: 0 <= j < |jobs| ==> a[j].HasRecorded() == b[j].HasRecorded()
    ensures ListIs(mode, jobs, start, b, now)
  {
    hide Records, Lookup;
    forall k ensures EntryIs(mode, jobs, start, b, now, k) {
      assert EntryIs(mode, jobs, start, a, now, k);
      assert forall j: nat :: Writes(mode, jobs, b, j, k) == Writes(mode, jobs, a, j, k);
      assert forall j: nat :: Stems(mode, jobs, b, now, j, k) == Stems(mode, jobs, a, now, j, k);
    }
  }

  lemma {:induction false} MovedConsistent(mode: Mode, jobs: seq<Job>, start: Outcome, s: Threads, i: nat, to: Pc)
    requires |s.pc| == |jobs| && i < |jobs| && Further(s.pc[i], to)
    requires Consistent(mode, jobs, start, s)
    ensures Consistent(mode, jobs, start, Moved(mode, jobs, s, i, to))
  {
    hide Moved, FlagIs, ListIs, MadeBy, Further;
    MovedCalls(mode, jobs, multiset(start.calls), s, i, to);
    MovedFlag(mode, jobs, start.ok, s, i, to);
    MovedList(mode, jobs, start.resources, s, i, to);
  }

  /** Every turn moves at most one job, and further. */
  lemma {:induction false} ActConsistent(mode: Mode, jobs: seq<Job>, start: Outcome, s: Threads, turn: Turn)
    requires Counted(jobs, s) && Consistent(mode, jobs, start, s)
    requires Act(mode, jobs, s, turn).Some?
    ensures Consistent(mode, jobs, start, Act(mode, jobs, s, turn).value)
  {
    hide Moved, FlagIs, ListIs, MadeBy;
    var i := if turn.MainTurn? then s.main.next else turn.i;
    var n := Act(mode, jobs, s, turn).value;
    if i < |jobs| && (n.shared != s.shared || n.pc != s.pc) {
      var to := if !turn.MainTurn? then After(s.pc[i]) else if Inline(jobs[i]) then Done else Started;
      MovedConsistent(mode, jobs, start, s, i, to);
    }
  }

  lemma {:induction false} RunConsistent(mode: Mode, jobs: seq<Job>, start: Outcome, s: Threads, schedule: seq<Turn>)
    requires InStages(jobs) && Counted(jobs, s) && Consistent(mode, jobs, start, s)
    requires Run(mode, jobs, s, schedule).Some?
    ensures Consistent(mode, jobs, start, Run(mode, jobs, s, schedule).value)
    decreases |schedule|
  {
    if schedule != [] {
      ActConsistent(mode, jobs, start, s, schedule[0]);
      RunCounts(mode, jobs, s, schedule[..1]);
      hide Act, InStages, Counted, Consistent;
      OneTurn(mode, jobs, s, schedule[0]);
      assert schedule[..1] == [schedule[0]];
      RunConsistent(mode, jobs, start, Act(mode, jobs, s, schedule[0]).value, schedule[1..]);
    }
  }

  lemma {:induction false} NothingMade(jobs: seq<Job>)
    ensures MadeBy(jobs, seq(|jobs|, _ => Unborn)) == multiset{}
  {
    if jobs != [] {
      var n := |jobs| - 1;
      NothingMade(jobs[..n]);
      assert seq(|jobs|, _ => Unborn)[..n] == seq(n, _ => Unborn);
    }
  }

  lemma {:induction false} AllMade(jobs: seq<Job>, pc: seq<Pc>)
    requires |pc| == |jobs| && forall i :: 0 <= i < |pc| ==> pc[i].Done?
    ensures MadeBy(jobs, pc) == multiset(CallsOf(jobs))
  {
    if jobs != [] {
      AllMade(jobs[..|jobs| - 1], pc[..|pc| - 1]);
    }
  }

  /** One job after the other, as the sequential apply does, writes such a list. */
  lemma {:induction false} PerformAllList(mode: Mode, start: Outcome, jobs: seq<Job>)
    ensures ListIs(mode, jobs, start.resources, seq(|jobs|, _ => Done), PerformAll(mode, start, jobs).resources)
  {
    hide Records, Put, Lookup;
    var done := seq(|jobs|, _ => Done);
    if jobs == [] {
      assert forall k :: EntryIs(mode, jobs, start.resources, done, start.resources, k);
    } else {
      var n := |jobs| - 1;
      PerformAllList(mode, start, jobs[..n]);
      var list := PerformAll(mode, start, jobs[..n]).resources;
      var pc := seq(|jobs|, i => if i < n then Done else Flagged);
      OneMore(mode, jobs, start.resources, list);
      ListWrite(mode, jobs, start.resources, pc, list, n, Done);
      assert pc[n := Done] == done;
    }
  }

  lemma {:induction false} OneMore(mode: Mode, jobs: seq<Job>, start: Resources, list: Resources)
    requires jobs != [] && ListIs(mode, jobs[..|jobs| - 1], start, seq(|jobs| - 1, _ => Done), list)
    ensures ListIs(mode, jobs, start, seq(|jobs|, i => if i < |jobs| - 1 then Done else Flagged), list)
  {
    hide Records, Lookup;
    var n := |jobs| - 1;
    var before, done := jobs[..n], seq(n, _ => Done);
    var pc := seq(|jobs|, i => if i < n then Done else Flagged);
    forall k ensures EntryIs(mode, jobs, start, pc, list, k) {
      assert EntryIs(mode, before, start, done, list, k);
      assert forall j: nat :: Writes(mode, jobs, pc, j, k) == Writes(mode, before, done, j, k);
      assert forall j: nat :: Stems(mode, jobs, pc, list, j, k) == Stems(mode, before, done, list, j, k);
    }
  }

  /** Two lists that the finished goroutines may have left have the same keys; and they agree on a key if at most one
      of the jobs has it. */
  lemma {:induction false} ListsAgree(mode: Mode, jobs: seq<Job>, start: Resources, pc: seq<Pc>, a: Resources,
                                      b: Resources, k: ResourceKey)
    requires |pc| == |jobs| && ListIs(mode, jobs, start, pc, a) && ListIs(mode, jobs, start, pc, b)
    ensures Lookup(a, k).Some? == Lookup(b, k).Some?
    ensures DistinctKeys(jobs) ==> Lookup(a, k) == Lookup(b, k)
  {
    hide Records, Lookup;
    assert EntryIs(mode, jobs, start, pc, a, k) && EntryIs(mode, jobs, start, pc, b, k);
    if Written(mode, jobs, pc, k) {
      var i: nat :| Stems(mode, jobs, pc, a, i, k);
      var j: nat :| Stems(mode, jobs, pc, b, j, k);
      assert DistinctKeys(jobs) ==> i == j;
    }
  }

  lemma {:induction false} SameEmptiness(a: Resources, b: Resources)
    requires forall k :: Lookup(a, k).Some? == Lookup(b, k).Some?
    ensures a == [] <==> b == []
  {
    if a != [] { assert Lookup(a, a[0].key).Some?; }
    if b != [] { assert Lookup(b, b[0].key).Some?; }
  }

  /** The schedule runs the apply to its return. */
  predicate Returns(env: ApplyEnv, mode: Mode, tasks: seq<Task>, resources: Resources, schedule: seq<Turn>) {
    var end := Run(mode, Plan(env, mode, tasks), Begin(Plan(env, mode, tasks), resources), schedule);
    end.Some? && end.value.main.returned
  }

  function End(env: ApplyEnv, mode: Mode, tasks: seq<Task>, resources: Resources, schedule: seq<Turn>): Threads
    requires Returns(env, mode, tasks, resources, schedule)
  {
    Run(mode, Plan(env, mode, tasks), Begin(Plan(env, mode, tasks), resources), schedule).value
  }

  lemma {:induction false} EndFacts(env: ApplyEnv, mode: Mode, tasks: seq<Task>, resources: Resources,
                                    schedule: seq<Turn>)
    requires Returns(env, mode, tasks, resources, schedule)
    ensures var jobs, end := Plan(env, mode, tasks), End(env, mode, tasks, resources, schedule);
            && end.pc == seq(|jobs|, _ => Done)
            && Consistent(mode, jobs, Outcome(true, resources, []), end)
  {
    hide Plan, Records, Lookup, InStages, Count, ListIs;
    var jobs, start := Plan(env, mode, tasks), Outcome(true, resources, []);
    NothingMade(jobs);
    NothingWritten(mode, jobs, resources);
    PlanInStages(env, mode, tasks);
    BeginCounted(jobs, resources);
    RunCounts(mode, jobs, Begin(jobs, resources), schedule);
    RunConsistent(mode, jobs, start, Begin(jobs, resources), schedule);
    var end := End(env, mode, tasks, resources, schedule);
    forall i | 0 <= i < |end.pc| ensures end.pc[i].Done? { NoneCounted(end.pc, i); }
  }

  lemma {:induction false} NothingWritten(mode: Mode, jobs: seq<Job>, resources: Resources)
    ensures ListIs(mode, jobs, resources, seq(|jobs|, _ => Unborn), resources)
  {
    hide Records, Lookup;
    var pc := seq(|jobs|, _ => Unborn);
    assert forall k :: !Written(mode, jobs, pc, k);
  }

  /** However the goroutines are scheduled: when the apply returns, all of them are done, and the flag, the multiset of
      calls, the keys with a recorded detail, and whether there is any, are those of doing the jobs one by one. With
      distinct keys so is every recorded detail. */
  lemma {:induction false} ScheduleIrrelevant(env: ApplyEnv, mode: Mode, tasks: seq<Task>, resources: Resources,
                                              schedule: seq<Turn>)
    requires Returns(env, mode, tasks, resources, schedule)
    ensures var end, sequential :=
              End(env, mode, tasks, resources, schedule), DoApply(env, mode, tasks, resources);
            && (forall i :: 0 <= i < |end.pc| ==> end.pc[i].Done?)
            && end.shared.ok == sequential.ok
            && multiset(end.shared.calls) == multiset(sequential.calls)
            && (end.shared.resources == [] <==> sequential.resources == [])
            && (forall k :: Lookup(end.shared.resources, k).Some? == Lookup(sequential.resources, k).Some?)
            && (DistinctKeys(Plan(env, mode, tasks)) ==>
                  forall k :: Lookup(end.shared.resources, k) == Lookup(sequential.resources, k))
  {
    hide Plan, Records, Lookup, PerformAll, DistinctKeys, ListIs, End, Returns;
    var jobs, start := Plan(env, mode, tasks), Outcome(true, resources, []);
    EndFacts(env, mode, tasks, resources, schedule);
    var end := End(env, mode, tasks, resources, schedule);
    PerformAllSum(mode, start, jobs);
    AllMade(jobs, end.pc);
    PerformAllList(mode, start, jobs);
    var list := DoApply(env, mode, tasks, resources).resources;
    forall k
      ensures Lookup(end.shared.resources, k).Some? == Lookup(list, k).Some?
      ensures DistinctKeys(jobs) ==> Lookup(end.shared.resources, k) == Lookup(list, k)
    {
      ListsAgree(mode, jobs, resources, end.pc, end.shared.resources, list, k);
    }
    SameEmptiness(end.shared.resources, list);
  }

  lemma {:induction false} TakeOut(calls: seq<Call>, i: nat)
    requires i < |calls|
    ensures var rest := calls[..i] + calls[i + 1..];
            && multiset(calls) == multiset(rest) + multiset{calls[i]}
            && multiset(RealApplies(calls)) == multiset(RealApplies(rest)) + multiset(RealApplies([calls[i]]))
            && multiset(Prunes(calls)) == multiset(Prunes(rest)) + multiset(Prunes([calls[i]]))
  {
    hide RealApplies, Prunes;
    var a, c, b := calls[..i], [calls[i]], calls[i + 1..];
    assert calls == a + (c + b);
    RealAppliesAppend(a, c + b);
    RealAppliesAppend(c, b);
    RealAppliesAppend(a, b);
    PrunesAppend(a, c + b);
    PrunesAppend(c, b);
    PrunesAppend(a, b);
  }

  /** Calls in another order apply and prune the same objects. */
  lemma {:induction false} OrderIrrelevant(a: seq<Call>, b: seq<Call>)
    requires multiset(a) == multiset(b)
    ensures multiset(RealApplies(a)) == multiset(RealApplies(b)) && multiset(Prunes(a)) == multiset(Prunes(b))
    decreases |a|
  {
    hide RealApplies, Prunes;
    assert |multiset(a)| == |a| && |multiset(b)| == |b|;
    if a != [] {
      assert a[0] in multiset(b);
      var i :| 0 <= i < |b| && b[i] == a[0];
      TakeOut(a, 0);
      TakeOut(b, i);
      var x, y := a[..0] + a[0 + 1..], b[..i] + b[i + 1..];
      assert multiset(x) == multiset(a) - multiset{a[0]} && multiset(y) == multiset(b) - multiset{a[0]};
      OrderIrrelevant(x, y);
    } else {
      assert b == [];
    }
  }

  /** What the results about runs rely on holds for every schedule: an apply that reports success has really applied
      every target exactly once, with every call of it successful; a failed one has applied none of them twice; every
      real apply with pruning on prunes each live object without a target exactly once; and details are recorded
      whenever they are to be and there is a task. */
  lemma {:induction false} ScheduledApplyMeaning(env: ApplyEnv, mode: Mode, tasks: seq<Task>, resources: Resources,
                                                 schedule: seq<Turn>)
    requires ValidTasks(tasks) && Returns(env, mode, tasks, resources, schedule)
    ensures var r := End(env, mode, tasks, resources, schedule).shared;
            && (forall c :: c in r.calls ==>
                  ((c.Applied? && c.dryRun == mode.dryRun) || (c.Pruned? && !mode.dryRun)) && (r.ok ==> c.ok))
            && (!mode.dryRun && r.ok ==> multiset(RealApplies(r.calls)) == multiset(Targets(tasks)))
            && multiset(RealApplies(r.calls)) <= multiset(Targets(tasks))
            && multiset(Prunes(r.calls)) == multiset(if mode.prune && !mode.dryRun then Lives(tasks) else [])
            && (!mode.dryRun && mode.update && tasks != [] ==> r.resources != [])
  {
    hide Plan, DoApply, DistinctKeys, End, Returns, RealApplies, Prunes, Lives, Targets;
    var r, sequential := End(env, mode, tasks, resources, schedule).shared, DoApply(env, mode, tasks, resources);
    ScheduleIrrelevant(env, mode, tasks, resources, schedule);
    DoApplyMeaning(env, mode, tasks, resources);
    OrderIrrelevant(r.calls, sequential.calls);
    forall c | c in r.calls ensures c in sequential.calls { assert c in multiset(r.calls); }
  }
}
