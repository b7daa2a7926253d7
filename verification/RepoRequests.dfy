/** What the requests to the repository server get: every one of them exactly one answer, which is what it generated or
    what the cache had, and none waits for ever. */
module RepoRequests {
  import opened Kube
  import opened Git
  import opened CacheKeys
  import opened LockTable
  import opened RepoCache

  // ---------------------------------------------------------------------------------------------
  // One answer for each request
  // ---------------------------------------------------------------------------------------------

  /** How often the request is the one of a thread, of any thread, among those made, and among those answered. */
  function Own(pc: Pc, q: Request): nat {
    if !pc.Idle? && pc.q == q then 1 else 0
  }

  function UnderWay(pc: seq<Pc>, q: Request): nat {
    if pc == [] then 0 else UnderWay(pc[..|pc| - 1], q) + Own(pc[|pc| - 1], q)
  }

  function Asked(e: Event, q: Request): nat {
    if e.Ask? && e.q == q then 1 else 0
  }

  function Requests(events: seq<Event>, q: Request): nat {
    if events == [] then 0 else Requests(events[..|events| - 1], q) + Asked(events[|events| - 1], q)
  }

  function Answered(served: seq<Served>, q: Request): nat {
    if served == [] then 0 else Answered(served[..|served| - 1], q) + if served[|served| - 1].q == q then 1 else 0
  }

  lemma {:induction false} UnderWayUpdate(pc: seq<Pc>, t: nat, to: Pc, q: Request)
    requires t < |pc|
    ensures UnderWay(pc[t := to], q) + Own(pc[t], q) == UnderWay(pc, q) + Own(to, q)
  {
    hide Own;
    var n := |pc| - 1;
    if t == n {
      assert pc[t := to][..n] == pc[..n];
    } else {
      assert pc[t := to][..n] == pc[..n][t := to];
      UnderWayUpdate(pc[..n], t, to, q);
    }
  }

  lemma {:induction false} NoneUnderWay(n: nat, q: Request)
    ensures UnderWay(seq(n, _ => Idle), q) == 0
  {
    if n > 0 {
      assert seq(n, _ => Idle)[..n - 1] == seq(n - 1, _ => Idle);
      NoneUnderWay(n - 1, q);
    }
  }

  lemma {:induction false} AnsweredSnoc(served: seq<Served>, a: Served, q: Request)
    ensures Answered(served + [a], q) == Answered(served, q) + if a.q == q then 1 else 0
  {
    assert (served + [a])[..|served|] == served;
  }

  /** A step gives no answer, or one to the request of the thread that acts. */
  lemma {:induction false} OwnAnswer(w: World, s: State, e: Event, q: Request)
    requires Step(w, s, e).Some? && !e.Evict? && e.t < |s.pc|
    ensures var n, t := Step(w, s, e).value, e.t;
            && t < |n.pc|
            && if |n.served| == |s.served| then n.served == s.served && Own(n.pc[t], q) == Own(s.pc[t], q) + Asked(e, q)
               else
                 && |n.served| == |s.served| + 1 && n.served[..|s.served|] == s.served
                 && (if n.served[|s.served|].q == q then 1 else 0) + Own(n.pc[t], q) == Own(s.pc[t], q) + Asked(e, q)
  {
    hide Key, Made;
  }

  lemma {:induction false} StepAnswers(w: World, s: State, e: Event, q: Request)
    requires Step(w, s, e).Some?
    ensures var n := Step(w, s, e).value;
            Answered(n.served, q) + UnderWay(n.pc, q) == Answered(s.served, q) + UnderWay(s.pc, q) + Asked(e, q)
  {
    hide Answered, UnderWay, Own;
    var n := Step(w, s, e).value;
    if !e.Evict? {
      hide Step;
      Effect(w, s, e);
      OwnAnswer(w, s, e, q);
      UnderWayUpdate(s.pc, e.t, n.pc[e.t], q);
      assert n.pc == s.pc[e.t := n.pc[e.t]];
      if |n.served| != |s.served| {
        assert n.served == s.served + [n.served[|s.served|]];
        AnsweredSnoc(s.served, n.served[|s.served|], q);
      }
    }
  }

  /** In every run, whatever is interleaved: a request was made as often as it was answered and is still under way. */
  lemma {:induction false} EveryRequestOnce(w: World, threads: nat, events: seq<Event>, q: Request)
    requires Run(w, threads, events).Some?
    ensures var s := Run(w, threads, events).value;
            Requests(events, q) == Answered(s.served, q) + UnderWay(s.pc, q)
  {
    hide Step, Sensible, UnderWay, Answered;
    if events == [] {
      NoneUnderWay(threads, q);
      assert Answered([], q) == 0 by { NoneAnswered(q); }
    } else {
      var n := |events| - 1;
      EveryRequestOnce(w, threads, events[..n], q);
      StepAnswers(w, Run(w, threads, events[..n]).value, events[n], q);
    }
  }

  lemma {:induction false} NoneAnswered(q: Request)
    ensures Answered([], q) == 0
  {
  }

  // ---------------------------------------------------------------------------------------------
  // The answer is what was generated
  // ---------------------------------------------------------------------------------------------

  /** The answer that a request which is done with its tree is going to give. */
  function Due(pc: Pc): Option<Option<Response>> {
    if pc.Storing? then Some(Some(pc.made)) else if pc.Releasing? then Some(pc.res) else None
  }

  /** A request that has generated gives that answer, whatever else happens. */
  lemma {:induction false} DueIsServed(w: World, s: State, e: Event, t: nat)
    requires Step(w, s, e).Some? && t < |s.pc| && Due(s.pc[t]).Some?
    ensures var n, pc := Step(w, s, e).value, s.pc[t];
            && |n.pc| == |s.pc|
            && if n.pc[t].Idle? then n.served == s.served + [Served(pc.q, pc.sha, Due(pc).value)]
               else Due(n.pc[t]) == Due(pc) && n.pc[t].q == pc.q && n.pc[t].sha == pc.sha
  {
    hide Key, Made;
  }

  /** In every run: what a request generates is the fresh generation at the commit it has checked out, and it is an
      error only if that fails. */
  lemma {:induction false} GeneratesFresh(w: World, threads: nat, events: seq<Event>, t: nat)
    requires Run(w, threads, events).Some? && t < |Run(w, threads, events).value.pc|
    requires var pc := Run(w, threads, events).value.pc[t]; pc.Reading? && pc.seen != []
    ensures var s := Run(w, threads, events).value;
            var n := Step(w, s, Generate(t));
            && n.Some? && t < |n.value.pc|
            && Due(n.value.pc[t]) == Some(Fresh(w, s.pc[t].q.ask, s.pc[t].commit))
            && n.value.pc[t].q == s.pc[t].q && n.value.pc[t].sha == s.pc[t].sha
  {
    hide Run;
    RunKeepsInv(w, threads, events, AskedBy(events));
    var s := Run(w, threads, events).value;
    assert TreeStays(w, s.trees, t, s.pc[t]);
  }

  // ---------------------------------------------------------------------------------------------
  // The cache
  // ---------------------------------------------------------------------------------------------

  /** A request that resolves to a commit whose answer is in the cache is answered from it at once, without a lock. */
  lemma {:induction false} HitIsServed(w: World, s: State, t: nat, q: Request, sha: string)
    requires t < |s.pc| && s.pc[t].Idle? && Key(w.fnv, q.ask, sha) in s.cache
    ensures After(w, s, [Ask(t, q, Some(sha))] + ([Get(t, true)] + [])) ==
            Some(s.(served := s.served + [Served(q, sha, Some(s.cache[Key(w.fnv, q.ask, sha)]))]))
  {
    hide Key, After;
    var asked := s.(pc := s.pc[t := Resolved(q, sha)]);
    var n := s.(served := s.served + [Served(q, sha, Some(s.cache[Key(w.fnv, q.ask, sha)]))]);
    assert asked.pc[t := Idle] == s.pc;
    AfterCons(w, s, Ask(t, q, Some(sha)), [Get(t, true)] + [], asked);
    AfterCons(w, asked, Get(t, true), [], n);
    AfterNone(w, n);
  }

  /** Whoever changes a working tree leaves a trace, and a generation that has seen the trace of another request, or two
      commits, or a checkout under way, is not the content of one commit. */
  lemma {:induction false} ChangesShow(w: World, s: State, t: nat, ask: Ask, seen: seq<Tree>, i: nat)
    requires t < |s.pc| && i < |seen|
    ensures var n := Step(w, s, Write(t));
            n.Some? ==>
              var root := w.root(s.pc[t].q.repo); root in n.value.trees && t in n.value.trees[root].dirt
    ensures || seen[i].Moving? || (seen[0].At? && seen[i].commit != seen[0].commit)
            || (exists u :: u in seen[i].dirt && u != t) ==>
              Made(w, t, ask, seen) == Some(Mixed)
  {
  }

  /** What is stored is in the cache under the key of its question and commit. */
  lemma {:induction false} StoredIsCached(w: World, s: State, t: nat)
    requires t < |s.pc| && s.pc[t].Storing?
    ensures var n, key := Step(w, s, Set(t, true)), Key(w.fnv, s.pc[t].q.ask, s.pc[t].commit);
            n.Some? && key in n.value.cache && n.value.cache[key] == s.pc[t].made
  {
    hide Key;
  }

  lemma {:induction false} StepKeepsCached(w: World, s: State, e: Event, key: string)
    requires Step(w, s, e).Some? && key in s.cache && e != Evict(key)
    ensures key in Step(w, s, e).value.cache
  {
    hide Key, Made;
  }

  /** An entry stays in the cache until it is evicted. */
  lemma {:induction false} CachedUntilEvicted(w: World, threads: nat, before: seq<Event>, after: seq<Event>,
                                              key: string)
    requires Run(w, threads, before).Some? && key in Run(w, threads, before).value.cache
    requires Run(w, threads, before + after).Some? && Evict(key) !in after
    ensures key in Run(w, threads, before + after).value.cache
    decreases |after|
  {
    hide Step, Sensible;
    if after == [] {
      assert before + after == before;
    } else {
      var n := |after| - 1;
      assert (before + after)[..|before + after| - 1] == before + after[..n];
      CachedUntilEvicted(w, threads, before, after[..n], key);
      StepKeepsCached(w, Run(w, threads, before + after[..n]).value, after[n], key);
    }
  }

  // ---------------------------------------------------------------------------------------------
  // Nobody is stuck
  // ---------------------------------------------------------------------------------------------

  /** Every lock is held by a request that is inside with that tree. */
  ghost predicate HeldInside(w: World, s: State) {
    forall root :: root in s.held ==>
      s.held[root] < |s.pc| && s.pc[s.held[root]].Inside() && w.root(s.pc[s.held[root]].q.repo) == root
  }

  lemma {:induction false} StepHeldInside(w: World, s: State, e: Event)
    requires Step(w, s, e).Some? && HeldInside(w, s) && Exclusive(w, s)
    ensures HeldInside(w, Step(w, s, e).value)
  {
    if !e.Evict? {
      hide Step;
      Effect(w, s, e);
      OwnLock(w, s, e);
    }
  }

  /** What a step does to the locks: a request that stays inside keeps its own, one that goes in gets it, and one that
      goes out gives it back. */
  lemma {:induction false} OwnLock(w: World, s: State, e: Event)
    requires Step(w, s, e).Some? && !e.Evict? && e.t < |s.pc| && HoldsOwn(w, s.held, e.t, s.pc[e.t])
    ensures var n, t := Step(w, s, e).value, e.t;
            && t < |n.pc|
            && (if s.pc[t].Inside() then
                  if n.pc[t].Inside() then n.held == s.held && n.pc[t].q == s.pc[t].q
                  else n.held == s.held - {w.root(s.pc[t].q.repo)}
                else n.held == s.held || (n.pc[t].Inside() && n.held == s.held[w.root(n.pc[t].q.repo) := t]))
  {
    hide Key, Made;
  }

  lemma {:induction false} RunHeldInside(w: World, threads: nat, events: seq<Event>)
    requires Run(w, threads, events).Some?
    ensures HeldInside(w, Run(w, threads, events).value)
  {
    hide Step, Sensible;
    if events != [] {
      var before := events[..|events| - 1];
      RunHeldInside(w, threads, before);
      RunKeepsInv(w, threads, before, AskedBy(before));
      StepHeldInside(w, Run(w, threads, before).value, events[|events| - 1]);
    }
  }

  /** The thread can act, at least in one way. */
  ghost predicate CanAct(w: World, s: State, t: nat) {
    exists e: Event :: !e.Evict? && e.t == t && !e.Ask? && Sensible(s, e) && Step(w, s, e).Some?
  }

  lemma {:induction false} InsideActs(w: World, s: State, t: nat)
    requires t < |s.pc| && s.pc[t].Inside() && HoldsOwn(w, s.held, t, s.pc[t]) && TreeStays(w, s.trees, t, s.pc[t])
    ensures CanAct(w, s, t)
  {
    hide Key, Made;
    match s.pc[t]
    case Locked(q, sha) => assert Step(w, s, StartCheckout(t)).Some?;
    case CheckingOut(q, sha) => assert Step(w, s, EndCheckout(t, None)).Some? && Sensible(s, EndCheckout(t, None));
    case Reading(q, sha, commit, seen) => assert Step(w, s, Read(t)).Some? && Sensible(s, Read(t));
    case Storing(q, sha, commit, made) => assert Step(w, s, Set(t, true)).Some?;
    case Releasing(q, sha, at, res) => assert Step(w, s, Unlock(t)).Some?;
  }

  /** In every run, a request under way can act, unless it waits for the lock of its tree; and then the request that has
      the lock is inside and can act. */
  lemma {:induction false} NobodyIsStuck(w: World, threads: nat, events: seq<Event>, t: nat)
    requires Run(w, threads, events).Some? && t < |Run(w, threads, events).value.pc|
    requires !Run(w, threads, events).value.pc[t].Idle?
    ensures var s := Run(w, threads, events).value;
            || CanAct(w, s, t)
            || (s.pc[t].Missed? && w.root(s.pc[t].q.repo) in s.held && CanAct(w, s, s.held[w.root(s.pc[t].q.repo)]))
  {
    hide Run, CanAct, Step, Inv;
    RunKeepsInv(w, threads, events, AskedBy(events));
    RunHeldInside(w, threads, events);
    var s := Run(w, threads, events).value;
    assert Exclusive(w, s) && TreesStay(w, s) by { InvParts(w, AskedBy(events), s); }
    if s.pc[t].Inside() {
      InsideActs(w, s, t);
    } else if s.pc[t].Missed? && w.root(s.pc[t].q.repo) in s.held {
      InsideActs(w, s, s.held[w.root(s.pc[t].q.repo)]);
    } else {
      OutsideActs(w, s, t);
    }
  }

  lemma {:induction false} InvParts(w: World, asked: set<Ask>, s: State)
    requires Inv(w, asked, s)
    ensures Exclusive(w, s) && TreesStay(w, s)
  {
  }

  lemma {:induction false} OutsideActs(w: World, s: State, t: nat)
    requires t < |s.pc| && !s.pc[t].Idle? && !s.pc[t].Inside()
    requires s.pc[t].Missed? ==> w.root(s.pc[t].q.repo) !in s.held
    ensures CanAct(w, s, t)
  {
    hide Key;
    if s.pc[t].Resolved? {
      assert Step(w, s, Get(t, false)).Some? && Sensible(s, Get(t, false));
    } else {
      assert Step(w, s, Lock(t)).Some? && Sensible(s, Lock(t));
    }
  }

  // ---------------------------------------------------------------------------------------------
  // A request by itself
  // ---------------------------------------------------------------------------------------------

  /** The state after the events, if each of them is possible. */
  function After(w: World, s: State, events: seq<Event>): Option<State>
    decreases |events|
  {
    if events == [] then Some(s)
    else
      var n := Step(w, s, events[0]);
      if n.Some? then After(w, n.value, events[1..]) else None
  }

  lemma {:induction false} AfterCons(w: World, s: State, e: Event, events: seq<Event>, n: State)
    requires Step(w, s, e) == Some(n)
    ensures After(w, s, [e] + events) == After(w, n, events)
  {
    assert ([e] + events)[1..] == events;
  }

  /** The events of a request that misses the cache, from its lock on. */
  function Miss(t: nat, commit: string, fails: bool): seq<Event> {
    [Lock(t)] + ([StartCheckout(t)] + ([EndCheckout(t, Some(commit))] + ([Read(t)] + ([Generate(t)]
    + ((if fails then [] else [Set(t, true)]) + [Unlock(t)])))))
  }

  /** A request that misses and has the tree to itself is answered with the fresh generation at the commit it checks
      out, which is then in the cache; or with an error, if the generation fails. It leaves the lock as it was. */
  lemma {:induction false} SoloMiss(w: World, s: State, t: nat, q: Request, sha: string, commit: string)
    requires t < |s.pc| && s.pc[t] == Missed(q, sha) && w.root(q.repo) !in s.held
    ensures var made := Fresh(w, q.ask, commit);
            After(w, s, Miss(t, commit, made.None?)) ==
            Some(s.(pc := s.pc[t := Idle],
                    trees := s.trees[w.root(q.repo) := At(commit, {})],
                    cache := if made.None? then s.cache else s.cache[Key(w.fnv, q.ask, commit) := made.value],
                    served := s.served + [Served(q, sha, made)]))
  {
    hide After, Key, Step;
    var root, made := w.root(q.repo), Fresh(w, q.ask, commit);
    var tree := At(commit, {});
    var s1 := s.(pc := s.pc[t := Locked(q, sha)], held := s.held[root := t]);
    var s2 := s1.(pc := s.pc[t := CheckingOut(q, sha)], trees := s.trees[root := Moving]);
    var s3 := s1.(pc := s.pc[t := Reading(q, sha, commit, [])], trees := s.trees[root := tree]);
    var s4 := s3.(pc := s.pc[t := Reading(q, sha, commit, [tree])]);
    assert Step(w, s, Lock(t)) == Some(s1) by { Moves(w, s, Lock(t)); }
    assert Step(w, s1, StartCheckout(t)) == Some(s2) by {
      Moves(w, s1, StartCheckout(t));
      assert s1.pc[t := CheckingOut(q, sha)] == s2.pc;
    }
    assert Step(w, s2, EndCheckout(t, Some(commit))) == Some(s3) by {
      Moves(w, s2, EndCheckout(t, Some(commit)));
      assert s2.pc[t := Reading(q, sha, commit, [])] == s3.pc && s2.trees[root := tree] == s3.trees;
    }
    assert Step(w, s3, Read(t)) == Some(s4) by {
      Moves(w, s3, Read(t));
      assert s3.pc[t := Reading(q, sha, commit, [tree])] == s4.pc && [] + [tree] == [tree];
    }
    var rest := (if made.None? then [] else [Set(t, true)]) + [Unlock(t)];
    var s5 := Step(w, s4, Generate(t));
    SoloGenerates(w, s, s4, t, q, sha, commit);
    AfterCons(w, s4, Generate(t), rest, s5.value);
    AfterCons(w, s3, Read(t), [Generate(t)] + rest, s4);
    AfterCons(w, s2, EndCheckout(t, Some(commit)), [Read(t)] + ([Generate(t)] + rest), s3);
    AfterCons(w, s1, StartCheckout(t), [EndCheckout(t, Some(commit))] + ([Read(t)] + ([Generate(t)] + rest)), s2);
    AfterCons(w, s, Lock(t),
              [StartCheckout(t)] + ([EndCheckout(t, Some(commit))] + ([Read(t)] + ([Generate(t)] + rest))), s1);
  }

  /** A step is the action of its thread. */
  lemma {:induction false} Moves(w: World, s: State, e: Event)
    requires !e.Evict? && e.t < |s.pc|
    ensures Step(w, s, e) == Act(w, s, e)
  {
  }

  /** From the generation to the answer. */
  lemma {:induction false} SoloGenerates(w: World, s: State, g: State, t: nat, q: Request, sha: string, commit: string)
    requires t < |s.pc| && s.pc[t] == Missed(q, sha) && w.root(q.repo) !in s.held
    requires g == s.(pc := s.pc[t := Reading(q, sha, commit, [At(commit, {})])], held := s.held[w.root(q.repo) := t],
                     trees := s.trees[w.root(q.repo) := At(commit, {})])
    ensures Step(w, g, Generate(t)).Some?
    ensures var made := Fresh(w, q.ask, commit);
            After(w, Step(w, g, Generate(t)).value, (if made.None? then [] else [Set(t, true)]) + [Unlock(t)]) ==
            Some(g.(pc := s.pc[t := Idle], held := s.held,
                    cache := if made.None? then s.cache else s.cache[Key(w.fnv, q.ask, commit) := made.value],
                    served := s.served + [Served(q, sha, made)]))
  {
    hide After, Key, Step, Act;
    var made, key := Fresh(w, q.ask, commit), Key(w.fnv, q.ask, commit);
    Generated(w, g, t);
    if made.None? {
      var s5 := g.(pc := s.pc[t := Releasing(q, sha, Some(commit), None)]);
      assert g.pc[t := s5.pc[t]] == s5.pc;
      SoloUnlocks(w, s, s5, t, q, sha, Some(commit), None);
      assert [] + [Unlock(t)] == [Unlock(t)];
    } else {
      var s5 := g.(pc := s.pc[t := Storing(q, sha, commit, made.value)]);
      assert g.pc[t := s5.pc[t]] == s5.pc;
      var s6 := g.(pc := s.pc[t := Releasing(q, sha, Some(commit), made)], cache := s.cache[key := made.value]);
      Stored(w, s5, t);
      assert s5.pc[t := s6.pc[t]] == s6.pc;
      AfterCons(w, s5, Set(t, true), [Unlock(t)], s6);
      SoloUnlocks(w, s, s6, t, q, sha, Some(commit), made);
    }
  }

  /** A generation that has seen one commit and nobody's changes. */
  lemma {:induction false} Generated(w: World, g: State, t: nat)
    requires t < |g.pc| && g.pc[t].Reading? && g.pc[t].seen == [At(g.pc[t].commit, {})]
    ensures var pc := g.pc[t];
            Step(w, g, Generate(t)) ==
            Some(g.(pc := g.pc[t := match Fresh(w, pc.q.ask, pc.commit)
                                    case None => Releasing(pc.q, pc.sha, Some(pc.commit), None)
                                    case Some(made) => Storing(pc.q, pc.sha, pc.commit, made)]))
  {
  }

  lemma {:induction false} Stored(w: World, s: State, t: nat)
    requires t < |s.pc| && s.pc[t].Storing?
    ensures var pc := s.pc[t];
            Step(w, s, Set(t, true)) ==
            Some(s.(pc := s.pc[t := Releasing(pc.q, pc.sha, Some(pc.commit), Some(pc.made))],
                    cache := s.cache[Key(w.fnv, pc.q.ask, pc.commit) := pc.made]))
  {
    hide Key;
  }

  lemma {:induction false} SoloUnlocks(w: World, s: State, r: State, t: nat, q: Request, sha: string,
                                       at: Option<string>, res: Option<Response>)
    requires t < |s.pc| && w.root(q.repo) !in s.held
    requires r.pc == s.pc[t := Releasing(q, sha, at, res)] && r.held == s.held[w.root(q.repo) := t]
    ensures After(w, r, [Unlock(t)]) ==
            Some(r.(pc := s.pc[t := Idle], held := s.held, served := r.served + [Served(q, sha, res)]))
  {
    hide After, Key;
    var n := Step(w, r, Unlock(t)).value;
    assert r.held - {w.root(q.repo)} == s.held && r.pc[t := Idle] == s.pc[t := Idle];
    AfterCons(w, r, Unlock(t), [], n);
    AfterNone(w, n);
    assert [Unlock(t)] + [] == [Unlock(t)];
  }

  lemma {:induction false} AfterNone(w: World, s: State)
    ensures After(w, s, []) == Some(s)
  {
  }
}
