/** What the requests to the API server get done: which steps may write what, among any other requests, and what becomes
    of a request that nobody else interferes with. */
module ProjectRequests {
  import opened Kube
  import opened LockTable
  import opened Projects
  import opened ProjectServer

  // ---------------------------------------------------------------------------------------------
  // Among other requests
  // ---------------------------------------------------------------------------------------------

  /** A stored application appears, changes or disappears only by its deletion, or by a request for it that was
      validated: a creation that may replace it or finds none, or an update that finds one. */
  lemma {:induction false} ApplicationChanges(s: State, e: Event, name: string)
    requires Step(s, e).Some?
    requires (name in s.apps) != (name in Step(s, e).value.apps)
             || (name in s.apps && name in Step(s, e).value.apps && s.apps[name] != Step(s, e).value.apps[name])
    ensures var n := Step(s, e).value;
            || (e == DeleteApp(name) && name !in n.apps)
            || (&& e.Act? && e.ok && e.t < |s.pc| && s.pc[e.t].AppValidated? && s.pc[e.t].req.name == name
                && name in n.apps && n.apps[name] == s.pc[e.t].spec
                && match s.pc[e.t].req.verb
                   case Create(upsert) => upsert || name !in s.apps
                   case Update => name in s.apps
                   case UpdateSpec => name in s.apps)
  {
    hide KeepsAll, Used, ProjectOf;
  }

  /** A project changes only by the write of an update that was checked, and goes only by a deletion that was. */
  lemma {:induction false} ProjectChanges(s: State, e: Event, name: string)
    requires Step(s, e).Some? && name in s.projects
    requires name in Step(s, e).value.projects ==> Step(s, e).value.projects[name] != s.projects[name]
    ensures e.Act? && e.ok && e.t < |s.pc|
    ensures if name in Step(s, e).value.projects
            then s.pc[e.t].UpdateChecked? && s.pc[e.t].name == name && Step(s, e).value.projects[name] == s.pc[e.t].next
            else s.pc[e.t].DeleteChecked? && s.pc[e.t].name == name
  {
    hide KeepsAll, Used, ProjectOf;
  }

  /** A write that fails stores nothing. An update of a specification is then tried again as long as the application is
      there; any other request gives up. */
  lemma {:induction false} FailedWrite(s: State, t: nat)
    requires t < |s.pc| && s.pc[t].AppValidated?
    ensures var n, req := Step(s, Act(t, false)), s.pc[t].req;
            && n.Some?
            && if req.verb.UpdateSpec? && req.name in s.apps then n.value == s
               else n.value == s.(pc := s.pc[t := Releasing(req.spec.project)])
  {
    hide ProjectOf;
  }

  /** A deleted application is gone, and a project that is created is there, unless the name was taken. */
  lemma {:induction false} DeletedAndCreated(s: State, name: string, next: Project)
    ensures var n := Step(s, DeleteApp(name));
            && n.Some? && name !in n.value.apps && n.value.projects == s.projects
            && (forall k :: k != name ==> (k in n.value.apps <==> k in s.apps))
    ensures var n := Step(s, CreateProject(name, next));
            && (n.None? <==> name in s.projects)
            && (n.Some? ==> n.value == s.(projects := s.projects[name := next]))
  {
  }

  // ---------------------------------------------------------------------------------------------
  // By itself
  // ---------------------------------------------------------------------------------------------

  function Acts(t: nat, n: nat): seq<Event> {
    if n == 0 then [] else Acts(t, n - 1) + [Act(t, true)]
  }

  /** A request, its lock, its n actions, in which everything else goes well, and its unlock. */
  function Solo(t: nat, ask: Event, n: nat): seq<Event> {
    [] + [ask] + [Acquire(t)] + Acts(t, n) + [Release(t)]
  }

  /** The state in which the request is inside and about to act. */
  ghost function Inside(s: State, t: nat, pc: Pc): State
    requires t < |s.pc| && pc.Waiting()
  {
    Go(s, t, Entered(pc)).(held := s.held[pc.Key() := t])
  }

  lemma {:induction false} GetsInside(s: State, t: nat, ask: Event, pc: Pc)
    requires t < |s.pc| && pc.Waiting() && pc.Key() !in s.held && Step(s, ask) == Some(Go(s, t, pc))
    ensures Run(s, [] + [ask] + [Acquire(t)]) == Some(Inside(s, t, pc))
  {
    hide Run;
    NoSteps(s);
    Then(s, [], ask);
    Then(s, [] + [ask], Acquire(t));
    assert s.pc[t := pc][t := Entered(pc)] == s.pc[t := Entered(pc)];
    assert Step(Go(s, t, pc), Acquire(t)) == Some(Inside(s, t, pc));
  }

  lemma {:induction false} ActsThen(s: State, before: seq<Event>, t: nat, n: nat)
    requires Run(s, before + Acts(t, n)).Some?
    ensures Run(s, before + Acts(t, n + 1)) == Step(Run(s, before + Acts(t, n)).value, Act(t, true))
  {
    hide Run, Step;
    assert before + Acts(t, n + 1) == (before + Acts(t, n)) + [Act(t, true)];
    Then(s, before + Acts(t, n), Act(t, true));
  }

  /** The request has got to its end with its lock still held, and lets go of it. */
  lemma {:induction false} GetsOut(s: State, t: nat, ask: Event, n: nat, end: State, key: string)
    requires t < |s.pc| && s.pc[t].Idle? && key !in s.held
    requires Run(s, [] + [ask] + [Acquire(t)] + Acts(t, n)) == Some(end)
    requires end.held == s.held[key := t] && end.pc == s.pc[t := Releasing(key)]
    ensures Run(s, Solo(t, ask, n)) == Some(end.(pc := s.pc, held := s.held))
  {
    hide Run;
    Then(s, [] + [ask] + [Acquire(t)] + Acts(t, n), Release(t));
    assert s.held[key := t] - {key} == s.held;
    assert s.pc[t := Releasing(key)][t := Idle] == s.pc;
  }

  /** The application is accepted: its project exists, and it is there if its verb needs it and not if its verb forbids.
      */
  predicate Acceptable(s: State, req: AppRequest) {
    && ProjectOf(req.spec) in s.projects
    && match req.verb
       case Create(upsert) => upsert || req.name !in s.apps
       case Update => req.name in s.apps
       case UpdateSpec => req.name in s.apps
  }

  /** An application request by itself stores the application, under the name of its project or of the default one, if
      it is acceptable, and otherwise leaves everything as it was. */
  lemma {:induction false} SoloApp(s: State, t: nat, req: AppRequest)
    requires t < |s.pc| && s.pc[t].Idle? && req.spec.project !in s.held
    ensures var refused := ProjectOf(req.spec) !in s.projects || (req.verb.UpdateSpec? && req.name !in s.apps);
            var n := if refused then 1 else 2;
            Run(s, Solo(t, AskApp(t, req), n)) ==
            Some(if !Acceptable(s, req) then s
                 else s.(apps := s.apps[req.name := req.spec.(project := ProjectOf(req.spec))],
                         unnamed := if req.spec.project == "" then s.unnamed + {req.name} else s.unnamed - {req.name}))
  {
    hide Run, ProjectOf;
    var ask, key := AskApp(t, req), req.spec.project;
    var before := [] + [ask] + [Acquire(t)];
    GetsInside(s, t, ask, AppWaiting(req));
    assert before + Acts(t, 0) == before;
    var s0 := Inside(s, t, AppWaiting(req));
    ActsThen(s, before, t, 0);
    var s1 := Step(s0, Act(t, true)).value;
    if s1.pc[t].Releasing? {
      GetsOut(s, t, ask, 1, s1, key);
    } else {
      ActsThen(s, before, t, 1);
      GetsOut(s, t, ask, 2, Step(s1, Act(t, true)).value, key);
    }
  }

  /** A project update by itself is stored if the project exists and every application of it keeps what it uses, and
      otherwise leaves everything as it was. */
  lemma {:induction false} SoloUpdate(s: State, t: nat, name: string, next: Project)
    requires t < |s.pc| && s.pc[t].Idle? && name !in s.held
    ensures var accepted := name in s.projects && KeepsAll(name, s.projects[name], next, s.apps);
            var n := if name !in s.projects then 1 else if !accepted then 2 else 3;
            Run(s, Solo(t, AskUpdate(t, name, next), n)) ==
            Some(if accepted then s.(projects := s.projects[name := next]) else s)
  {
    hide Run, KeepsAll;
    var ask := AskUpdate(t, name, next);
    var before := [] + [ask] + [Acquire(t)];
    GetsInside(s, t, ask, UpdateWaiting(name, next));
    assert before + Acts(t, 0) == before;
    ActsThen(s, before, t, 0);
    var s1 := Step(Inside(s, t, UpdateWaiting(name, next)), Act(t, true)).value;
    if s1.pc[t].Releasing? {
      GetsOut(s, t, ask, 1, s1, name);
    } else {
      ActsThen(s, before, t, 1);
      var s2 := Step(s1, Act(t, true)).value;
      if s2.pc[t].Releasing? {
        GetsOut(s, t, ask, 2, s2, name);
      } else {
        ActsThen(s, before, t, 2);
        GetsOut(s, t, ask, 3, Step(s2, Act(t, true)).value, name);
      }
    }
  }

  /** A project deletion by itself removes the project if no application belongs to it, and otherwise leaves everything
      as it was. */
  lemma {:induction false} SoloDelete(s: State, t: nat, name: string)
    requires t < |s.pc| && s.pc[t].Idle? && name !in s.held && name != DEFAULT
    ensures var unused := forall k :: k in s.apps ==> ProjectOf(s.apps[k]) != name;
            var n := if name !in s.projects then 1 else if !unused then 2 else 3;
            Run(s, Solo(t, AskDelete(t, name), n)) ==
            Some(if unused then s.(projects := s.projects - {name}) else s)
  {
    hide Run, ProjectOf;
    var ask := AskDelete(t, name);
    var before := [] + [ask] + [Acquire(t)];
    GetsInside(s, t, ask, DeleteWaiting(name));
    assert before + Acts(t, 0) == before;
    ActsThen(s, before, t, 0);
    var s1 := Step(Inside(s, t, DeleteWaiting(name)), Act(t, true)).value;
    if s1.pc[t].Releasing? {
      assert s.projects - {name} == s.projects;
      GetsOut(s, t, ask, 1, s1, name);
    } else {
      ActsThen(s, before, t, 1);
      var s2 := Step(s1, Act(t, true)).value;
      if s2.pc[t].Releasing? {
        GetsOut(s, t, ask, 2, s2, name);
      } else {
        ActsThen(s, before, t, 2);
        GetsOut(s, t, ask, 3, Step(s2, Act(t, true)).value, name);
      }
    }
  }

  /** The default project is never up for deletion. */
  lemma {:induction false} DefaultIsNotDeleted(s: State, t: nat)
    ensures Step(s, AskDelete(t, DEFAULT)).None?
  {
  }
}
