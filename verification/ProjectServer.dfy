/** The requests to one API server that change projects and applications, as steps under the lock that all of them
    share, with a key per project name. Any number of requests take turns, one action at a time. An application request
    locks the project name as it was sent, which may be empty; the stored application then belongs to the default
    project. */
module ProjectServer {
  import opened Kube
  import opened LockTable
  import opened Projects

  datatype Verb = Create(upsert: bool) | Update | UpdateSpec

  datatype AppRequest = AppRequest(verb: Verb, name: string, spec: App)

  datatype Pc =
    | Idle
    | AppWaiting(req: AppRequest)
    | AppLocked(req: AppRequest)
    | AppValidated(req: AppRequest, spec: App)
    | UpdateWaiting(name: string, next: Project)
    | UpdateLocked(name: string, next: Project)
    | UpdateRead(name: string, next: Project, was: Project)
    | UpdateChecked(name: string, next: Project, was: Project)
    | DeleteWaiting(name: string)
    | DeleteLocked(name: string)
    | DeleteRead(name: string)
    | DeleteChecked(name: string)
    | Releasing(lock: string)
  {
    predicate Waiting() { AppWaiting? || UpdateWaiting? || DeleteWaiting? }

    predicate Inside() { !Idle? && !Waiting() }

    function Key(): string
      requires !Idle?
    {
      if AppWaiting? || AppLocked? || AppValidated? then req.spec.project
      else if Releasing? then lock
      else name
    }
  }

  /** `unnamed` are the applications whose last write left the project field empty. */
  datatype State = State(
    pc: seq<Pc>,
    held: Table,
    projects: map<string, Project>,
    apps: map<string, App>,
    unnamed: set<string>)

  /** `ok` is the verdict of everything else: permissions, the rest of the validation, conflicts, API failures. */
  datatype Event =
    | AskApp(t: nat, req: AppRequest)
    | AskUpdate(t: nat, name: string, next: Project)
    | AskDelete(t: nat, name: string)
    | Acquire(t: nat)
    | Act(t: nat, ok: bool)
    | Release(t: nat)
    | CreateProject(name: string, next: Project)
    | DeleteApp(name: string)

  function Go(s: State, t: nat, pc: Pc): State
    requires t < |s.pc|
  {
    s.(pc := s.pc[t := pc])
  }

  /** The effect of an event, if it is possible. Creating a project and deleting an application need no lock for what
      is proved here. */
  ghost function Step(s: State, e: Event): Option<State> {
    match e
    case CreateProject(name, next) =>
      if name in s.projects then None else Some(s.(projects := s.projects[name := next]))
    case DeleteApp(name) => Some(s.(apps := s.apps - {name}, unnamed := s.unnamed - {name}))
    case AskApp(t, req) => if t < |s.pc| && s.pc[t].Idle? then Some(Go(s, t, AppWaiting(req))) else None
    case AskUpdate(t, name, next) =>
      if t < |s.pc| && s.pc[t].Idle? then Some(Go(s, t, UpdateWaiting(name, next))) else None
    case AskDelete(t, name) =>
      if t < |s.pc| && s.pc[t].Idle? && name != DEFAULT then Some(Go(s, t, DeleteWaiting(name))) else None
    case Acquire(t) =>
      if t < |s.pc| && s.pc[t].Waiting() && Take(s.held, t, s.pc[t].Key()).Some?
      then Some(Go(s, t, Entered(s.pc[t])).(held := Take(s.held, t, s.pc[t].Key()).value))
      else None
    case Act(t, ok) => if t < |s.pc| && s.pc[t].Inside() && !s.pc[t].Releasing? then Some(Work(s, t, ok)) else None
    case Release(t) =>
      if t < |s.pc| && s.pc[t].Releasing? && Give(s.held, t, s.pc[t].lock).Some?
      then Some(Go(s, t, Idle).(held := Give(s.held, t, s.pc[t].lock).value))
      else None
  }

  function Entered(pc: Pc): Pc
    requires pc.Waiting()
  {
    match pc
    case AppWaiting(req) => AppLocked(req)
    case UpdateWaiting(name, next) => UpdateLocked(name, next)
    case DeleteWaiting(name) => DeleteLocked(name)
  }

  /** Whether the store takes the application as the verb writes it. */
  predicate Writes(apps: map<string, App>, req: AppRequest) {
    match req.verb
    case Create(upsert) => upsert || req.name !in apps
    case Update => req.name in apps
    case UpdateSpec => req.name in apps
  }

  ghost function Work(s: State, t: nat, ok: bool): State
    requires t < |s.pc| && s.pc[t].Inside() && !s.pc[t].Releasing?
  {
    var out := Go(s, t, Releasing(s.pc[t].Key()));
    match s.pc[t]
    case AppLocked(req) =>
      if (req.verb.UpdateSpec? && req.name !in s.apps) || ProjectOf(req.spec) !in s.projects || !ok then out
      else Go(s, t, AppValidated(req, req.spec.(project := ProjectOf(req.spec))))
    case AppValidated(req, spec) =>
      if !Writes(s.apps, req) then out
      else if ok then
        out.(apps := s.apps[req.name := spec],
             unnamed := if req.spec.project == "" then s.unnamed + {req.name} else s.unnamed - {req.name})
      else if req.verb.UpdateSpec? then s
      else out
    case UpdateLocked(name, next) =>
      if name in s.projects then Go(s, t, UpdateRead(name, next, s.projects[name])) else out
    case UpdateRead(name, next, was) =>
      if KeepsAll(name, was, next, s.apps) then Go(s, t, UpdateChecked(name, next, was)) else out
    case UpdateChecked(name, next, was) =>
      if ok && name in s.projects then out.(projects := s.projects[name := next]) else out
    case DeleteLocked(name) => if name in s.projects then Go(s, t, DeleteRead(name)) else out
    case DeleteRead(name) => if Used(s.apps, name) then out else Go(s, t, DeleteChecked(name))
    case DeleteChecked(name) => if ok then out.(projects := s.projects - {name}) else out
  }

  predicate Used(apps: map<string, App>, name: string) {
    exists k :: k in apps && ProjectOf(apps[k]) == name
  }

  // ---------------------------------------------------------------------------------------------
  // The invariant
  // ---------------------------------------------------------------------------------------------

  ghost predicate Integrity(s: State) {
    DEFAULT in s.projects && forall k :: k in s.apps ==> ProjectOf(s.apps[k]) in s.projects
  }

  predicate HoldsOwn(held: Table, t: nat, pc: Pc) {
    pc.Inside() ==> pc.Key() in held && held[pc.Key()] == t
  }

  ghost predicate Exclusive(s: State) {
    forall t :: 0 <= t < |s.pc| ==> HoldsOwn(s.held, t, s.pc[t])
  }

  /** The update leaves every application of the project that was written under the project's own lock what it had. */
  ghost predicate KeepsNamed(s: State, name: string, was: Project, next: Project) {
    forall k :: k in s.apps && k !in s.unnamed && ProjectOf(s.apps[k]) == name ==> Keeps(was, next, s.apps[k])
  }

  /** What a request knows and may go on to rely on. */
  ghost predicate Knows(s: State, pc: Pc) {
    match pc
    case AppValidated(req, spec) => spec.project == ProjectOf(req.spec) && spec.project in s.projects
    case UpdateRead(name, next, was) => name in s.projects && s.projects[name] == was
    case UpdateChecked(name, next, was) =>
      name in s.projects && s.projects[name] == was && KeepsNamed(s, name, was, next)
    case DeleteWaiting(name) => name != DEFAULT
    case DeleteLocked(name) => name != DEFAULT
    case DeleteRead(name) => name != DEFAULT
    case DeleteChecked(name) => name != DEFAULT && !Used(s.apps, name)
    case _ => true
  }

  ghost predicate AllKnow(s: State) {
    forall t :: 0 <= t < |s.pc| ==> Knows(s, s.pc[t])
  }

  /** An application whose project field was left empty belongs to the default project. */
  ghost predicate UnnamedInDefault(s: State) {
    forall k :: k in s.apps && k in s.unnamed ==> ProjectOf(s.apps[k]) == DEFAULT
  }

  ghost predicate Inv(s: State) {
    Integrity(s) && Exclusive(s) && AllKnow(s) && UnnamedInDefault(s)
  }

  lemma {:induction false} StepExclusive(s: State, e: Event)
    requires Exclusive(s) && Step(s, e).Some?
    ensures Exclusive(Step(s, e).value)
  {
    hide KeepsAll, Used;
    var n := Step(s, e).value;
    if !e.CreateProject? && !e.DeleteApp? {
      assert |n.pc| == |s.pc| && forall u :: 0 <= u < |s.pc| && u != e.t ==> n.pc[u] == s.pc[u];
      assert HoldsOwn(s.held, e.t, s.pc[e.t]);
      assert HoldsOwn(n.held, e.t, n.pc[e.t]);
      forall u | 0 <= u < |s.pc| && u != e.t ensures HoldsOwn(n.held, u, n.pc[u]) {
        assert HoldsOwn(s.held, u, s.pc[u]);
      }
    }
  }

  /** What a step can do to the store, and under which lock. */
  lemma {:induction false} StoreEffect(s: State, e: Event)
    requires Step(s, e).Some?
    ensures var n := Step(s, e).value;
            || (n.projects == s.projects && n.apps == s.apps && n.unnamed == s.unnamed)
            || (e.CreateProject? && e.name !in s.projects && n.projects == s.projects[e.name := e.next]
                && n.apps == s.apps && n.unnamed == s.unnamed)
            || (e.DeleteApp? && n.apps == s.apps - {e.name} && n.projects == s.projects
                && n.unnamed == s.unnamed - {e.name})
            || (e.Act? && e.t < |s.pc| && match s.pc[e.t]
                case AppValidated(req, spec) =>
                  && n.projects == s.projects && n.apps == s.apps[req.name := spec]
                  && n.unnamed == if req.spec.project == "" then s.unnamed + {req.name} else s.unnamed - {req.name}
                case UpdateChecked(name, next, _) =>
                  n.projects == s.projects[name := next] && n.apps == s.apps && n.unnamed == s.unnamed
                case DeleteChecked(name) =>
                  n.projects == s.projects - {name} && n.apps == s.apps && n.unnamed == s.unnamed
                case _ => false)
  {
    hide KeepsAll, Used, ProjectOf;
  }

  lemma {:induction false} StepIntegrity(s: State, e: Event)
    requires Inv(s) && Step(s, e).Some?
    ensures Integrity(Step(s, e).value) && UnnamedInDefault(Step(s, e).value)
  {
    hide Step, KeepsNamed, Exclusive;
    StoreEffect(s, e);
    if e.Act? && e.t < |s.pc| { assert Knows(s, s.pc[e.t]); }
  }

  /** What the acting request knows afterwards. */
  lemma {:induction false} OwnKnowledge(s: State, e: Event)
    requires Inv(s) && Step(s, e).Some? && !e.CreateProject? && !e.DeleteApp?
    ensures e.t < |s.pc| == |Step(s, e).value.pc|
    ensures Knows(Step(s, e).value, Step(s, e).value.pc[e.t])
  {
    hide Keeps, Exclusive, Used;
    assert Knows(s, s.pc[e.t]);
  }

  /** What another request knows stays true: whoever could make it false would need the lock that it holds. */
  lemma {:induction false} OthersKnowledge(s: State, e: Event, u: nat)
    requires Inv(s) && Step(s, e).Some? && u < |s.pc|
    requires !e.CreateProject? && !e.DeleteApp? ==> e.t != u
    ensures Knows(Step(s, e).value, s.pc[u])
  {
    hide Step, Keeps;
    StoreEffect(s, e);
    assert Knows(s, s.pc[u]) && HoldsOwn(s.held, u, s.pc[u]);
    if e.Act? && e.t < |s.pc| { assert Knows(s, s.pc[e.t]) && HoldsOwn(s.held, e.t, s.pc[e.t]); }
  }

  // ---------------------------------------------------------------------------------------------
  // Whole runs
  // ---------------------------------------------------------------------------------------------

  /** Nothing is going on, and every application's project exists. */
  ghost predicate Start(s: State) {
    && Integrity(s) && s.held == map[] && s.unnamed == {}
    && forall t :: 0 <= t < |s.pc| ==> s.pc[t].Idle?
  }

  ghost function Run(s: State, events: seq<Event>): Option<State> {
    if events == [] then Some(s)
    else
      var before := Run(s, events[..|events| - 1]);
      if before.Some? then Step(before.value, events[|events| - 1]) else None
  }

  lemma {:induction false} StepKeepsInv(s: State, e: Event)
    requires Inv(s) && Step(s, e).Some?
    ensures Inv(Step(s, e).value)
  {
    StepExclusive(s, e);
    StepIntegrity(s, e);
    var n := Step(s, e).value;
    forall u | 0 <= u < |n.pc| ensures Knows(n, n.pc[u]) {
      hide Knows, KeepsAll, Used;
      if !e.CreateProject? && !e.DeleteApp? && u == e.t {
        OwnKnowledge(s, e);
      } else {
        OthersKnowledge(s, e, u);
      }
    }
  }

  lemma {:induction false} RunKeepsInv(s: State, events: seq<Event>)
    requires Start(s) && Run(s, events).Some?
    ensures Inv(Run(s, events).value)
  {
    if events != [] {
      hide Step, Start, Inv;
      RunKeepsInv(s, events[..|events| - 1]);
      StepKeepsInv(Run(s, events[..|events| - 1]).value, events[|events| - 1]);
    }
  }

  /** Whatever requests are interleaved in whatever way, every stored application's project exists. */
  lemma {:induction false} ProjectsExist(s: State, events: seq<Event>, name: string)
    requires Start(s) && Run(s, events).Some? && name in Run(s, events).value.apps
    ensures ProjectOf(Run(s, events).value.apps[name]) in Run(s, events).value.projects
  {
    hide Run;
    RunKeepsInv(s, events);
  }

  /** The event is the write of an accepted update of the project, and takes something away from the application, which
      belongs to the project and uses it. */
  ghost predicate TakesFrom(s: State, e: Event, name: string, app: string) {
    && Step(s, e).Some? && e.Act? && e.t < |s.pc| && s.pc[e.t].UpdateChecked? && s.pc[e.t].name == name
    && name in s.projects && name in Step(s, e).value.projects
    && app in s.apps && ProjectOf(s.apps[app]) == name
    && !Keeps(s.projects[name], Step(s, e).value.projects[name], s.apps[app])
  }

  ghost predicate TakesAfter(s: State, events: seq<Event>, e: Event, name: string, app: string) {
    Start(s) && Run(s, events).Some? && TakesFrom(Run(s, events).value, e, name, app)
  }

  /** In every run, whatever the other requests are: an accepted update takes nothing from an application unless that
      application's own last write left the project field empty, and then the project is the default one. */
  lemma {:induction false} OnlyUnnamedLose(s: State, events: seq<Event>, e: Event, name: string, app: string)
    requires TakesAfter(s, events, e, name, app)
    ensures app in Run(s, events).value.unnamed && name == DEFAULT
  {
    hide Run, Keeps;
    RunKeepsInv(s, events);
    var n := Run(s, events).value;
    assert Knows(n, n.pc[e.t]);
    if Step(n, e).value.projects[name] == n.projects[name] { SameProjectKeeps(n.projects[name], n.apps[app]); }
  }

  lemma {:induction false} SameProjectKeeps(p: Project, a: App)
    ensures Keeps(p, p, a)
  {
  }

  // An update of the default project that overtakes the creation of an application with an empty project field.

  const TARGET := Destination("in-cluster", "guestbook")
  const OPEN := Project([TARGET], ["repo"])
  const CLOSED := Project([], ["repo"])
  const GUESTBOOK := AppRequest(Create(false), "guestbook", App("", TARGET, "repo"))

  const QUIET := State([Idle, Idle], map[], map[DEFAULT := OPEN], map[], {})

  const OVERTAKEN: seq<Event> := [
    AskUpdate(0, DEFAULT, CLOSED), Acquire(0), Act(0, true), Act(0, true),
    AskApp(1, GUESTBOOK), Acquire(1), Act(1, true), Act(1, true)]

  lemma {:induction false} Then(s: State, events: seq<Event>, e: Event)
    requires Run(s, events).Some?
    ensures Run(s, events + [e]) == Step(Run(s, events).value, e)
  {
  }

  /** First the update of the default project gets as far as its check, which finds no application. */
  lemma {:induction false} UpdateGetsAhead() returns (s: State)
    ensures Run(QUIET, OVERTAKEN[..4]) == Some(s)
    ensures |s.pc| == 2 && s.pc[0] == UpdateChecked(DEFAULT, CLOSED, OPEN) && s.pc[1].Idle?
    ensures s.held == map[DEFAULT := 0] && s.projects == map[DEFAULT := OPEN] && s.apps == map[]
  {
    hide Run;
    assert Run(QUIET, []) == Some(QUIET) by { NoSteps(QUIET); }
    Then(QUIET, [], OVERTAKEN[0]);
    Then(QUIET, [] + [OVERTAKEN[0]], OVERTAKEN[1]);
    Then(QUIET, [] + [OVERTAKEN[0]] + [OVERTAKEN[1]], OVERTAKEN[2]);
    Then(QUIET, [] + [OVERTAKEN[0]] + [OVERTAKEN[1]] + [OVERTAKEN[2]], OVERTAKEN[3]);
    assert OVERTAKEN[..4] == [] + [OVERTAKEN[0]] + [OVERTAKEN[1]] + [OVERTAKEN[2]] + [OVERTAKEN[3]];
    s := Run(QUIET, OVERTAKEN[..4]).value;
  }

  lemma {:induction false} NoSteps(s: State)
    ensures Run(s, []) == Some(s)
  {
  }

  /** Then the application is created under another lock, and belongs to the default project. */
  lemma {:induction false} ApplicationSlipsIn() returns (s: State)
    ensures Run(QUIET, OVERTAKEN) == Some(s)
    ensures |s.pc| == 2 && s.pc[0] == UpdateChecked(DEFAULT, CLOSED, OPEN) && s.projects == map[DEFAULT := OPEN]
    ensures "guestbook" in s.apps && s.apps["guestbook"] == App(DEFAULT, TARGET, "repo") && "guestbook" in s.unnamed
  {
    hide Run;
    s := UpdateGetsAhead();
    Then(QUIET, OVERTAKEN[..4], OVERTAKEN[4]);
    Then(QUIET, OVERTAKEN[..4] + [OVERTAKEN[4]], OVERTAKEN[5]);
    Then(QUIET, OVERTAKEN[..4] + [OVERTAKEN[4]] + [OVERTAKEN[5]], OVERTAKEN[6]);
    Then(QUIET, OVERTAKEN[..4] + [OVERTAKEN[4]] + [OVERTAKEN[5]] + [OVERTAKEN[6]], OVERTAKEN[7]);
    assert OVERTAKEN == OVERTAKEN[..4] + [OVERTAKEN[4]] + [OVERTAKEN[5]] + [OVERTAKEN[6]] + [OVERTAKEN[7]];
    s := Run(QUIET, OVERTAKEN).value;
  }

  /** The accepted update then takes away the destination that the application has just started to use. */
  lemma {:induction false} DefaultDropsInUse()
    ensures TakesAfter(QUIET, OVERTAKEN, Act(0, true), DEFAULT, "guestbook")
    ensures "guestbook" in Run(QUIET, OVERTAKEN).value.unnamed
  {
    hide Run;
    var s := ApplicationSlipsIn();
    assert DestinationKey(OPEN.destinations[0]) == DestinationKey(TARGET);
    assert ListsDestination(OPEN, DestinationKey(TARGET)) && !ListsDestination(CLOSED, DestinationKey(TARGET));
    assert !Keeps(OPEN, CLOSED, s.apps["guestbook"]);
  }

  /** Whether the lock guards an application of the project: unless the project is the default one and the
      application's last write left the field empty. */
  predicate Guarded(name: string, empty: bool) {
    name != DEFAULT || !empty
  }

  /** Over all interleavings with any other requests, accepted updates of a project never take away what an application
      uses, given whether its own last write left the project field empty, if and only if that was not so or the
      project is not the default one. */
  lemma {:induction false} UpdatesKeepWhatIsUsed(name: string, empty: bool)
    ensures Guarded(name, empty) <==>
            forall s, events, e, app ::
              TakesAfter(s, events, e, name, app) ==> (app in Run(s, events).value.unnamed) != empty
  {
    hide Run, TakesFrom, Start;
    forall s, events, e, app | TakesAfter(s, events, e, name, app)
      ensures app in Run(s, events).value.unnamed && name == DEFAULT
    {
      OnlyUnnamedLose(s, events, e, name, app);
    }
    DefaultDropsInUse();
  }
}
