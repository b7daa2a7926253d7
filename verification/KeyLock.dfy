/** A lock for every string key: mutexes made on demand, in a map that a read-write lock guards with the
    double-checked pattern. Any number of threads take turns, one action at a time. */
module KeyLock {
  import opened Kube
  import opened LockTable

  datatype Purpose = ToLock | ToUnlock

  /** Where a thread is. A mutex is a number; the thread knows it once the map has given it. */
  datatype Pc =
    | Idle
    | Entering(key: string, why: Purpose)
    | Reading(key: string, why: Purpose)
    | ReadHit(key: string, why: Purpose, mutex: nat)
    | ReadMiss(key: string, why: Purpose)
    | WantsWrite(key: string, why: Purpose)
    | Writing(key: string, why: Purpose)
    | Creating(key: string, why: Purpose, mutex: nat)
    | WriteDone(key: string, why: Purpose, mutex: nat)
    | Got(key: string, why: Purpose, mutex: nat)
  {
    predicate InRead() { Reading? || ReadHit? || ReadMiss? }
    predicate InWrite() { Writing? || Creating? || WriteDone? }
    predicate HasMutex() { ReadHit? || WriteDone? || Got? }
  }

  /** `readers` and `writer` are the read-write lock; `locks` is the map and `next` the next new mutex; `locked` are
      the mutexes now locked. `held` tells which keys each thread has locked and not yet unlocked. */
  datatype State = State(
    pc: seq<Pc>,
    readers: set<nat>,
    writer: Option<nat>,
    locks: map<string, nat>,
    next: nat,
    locked: set<nat>,
    held: seq<set<string>>)

  /** A thread calls Lock or Unlock, or takes the next action of its call. */
  datatype Event = CallLock(t: nat, key: string) | CallUnlock(t: nat, key: string) | Go(t: nat)

  datatype Outcome = Next(state: State) | Blocked | Fatal

  function Begin(threads: nat): State {
    State(seq(threads, _ => Idle), {}, None, map[], 0, {}, seq(threads, _ => {}))
  }

  function At(s: State, t: nat, pc: Pc): State
    requires t < |s.pc|
  {
    s.(pc := s.pc[t := pc])
  }

  /** A thread unlocks only keys it holds; everything else is up to the threads. */
  function Step(s: State, e: Event): Outcome
    requires |s.held| == |s.pc|
  {
    if e.t >= |s.pc| then Blocked
    else
      match e
      case CallLock(t, key) => if s.pc[t].Idle? then Next(At(s, t, Entering(key, ToLock))) else Blocked
      case CallUnlock(t, key) =>
        if s.pc[t].Idle? && key in s.held[t] then Next(At(s, t, Entering(key, ToUnlock))) else Blocked
      case Go(t) => Act(s, t)
  }

  function Act(s: State, t: nat): Outcome
    requires |s.held| == |s.pc| && t < |s.pc|
  {
    match s.pc[t]
    case Idle => Blocked
    case Entering(key, why) =>
      if s.writer.Some? then Blocked else Next(At(s, t, Reading(key, why)).(readers := s.readers + {t}))
    case Reading(key, why) =>
      Next(At(s, t, if key in s.locks then ReadHit(key, why, s.locks[key]) else ReadMiss(key, why)))
    case ReadHit(key, why, mutex) => Next(At(s, t, Got(key, why, mutex)).(readers := s.readers - {t}))
    case ReadMiss(key, why) => Next(At(s, t, WantsWrite(key, why)).(readers := s.readers - {t}))
    case WantsWrite(key, why) =>
      if s.writer.Some? || s.readers != {} then Blocked
      else Next(At(s, t, Writing(key, why)).(writer := Some(t)))
    case Writing(key, why) =>
      if key in s.locks then Next(At(s, t, WriteDone(key, why, s.locks[key])))
      else Next(At(s, t, Creating(key, why, s.next)).(next := s.next + 1))
    case Creating(key, why, mutex) =>
      Next(At(s, t, WriteDone(key, why, mutex)).(locks := s.locks[key := mutex]))
    case WriteDone(key, why, mutex) => Next(At(s, t, Got(key, why, mutex)).(writer := None))
    case Got(key, why, mutex) =>
      if why.ToLock? then
        if mutex in s.locked then Blocked
        else
          Next(At(s, t, Idle).(locked := s.locked + {mutex}, held := s.held[t := s.held[t] + {key}]))
      else if mutex !in s.locked then Fatal
      else Next(At(s, t, Idle).(locked := s.locked - {mutex}, held := s.held[t := s.held[t] - {key}]))
  }

  // ---------------------------------------------------------------------------------------------
  // The invariant
  // ---------------------------------------------------------------------------------------------

  /** The read-write lock is held by those who are inside, and excludes. */
  ghost predicate Excluding(s: State) {
    && (forall t: nat :: t in s.readers <==> t < |s.pc| && s.pc[t].InRead())
    && (forall t :: 0 <= t < |s.pc| && s.pc[t].InWrite() ==> s.writer == Some(t))
    && (s.writer.Some? ==> s.writer.value < |s.pc| && s.pc[s.writer.value].InWrite() && s.readers == {})
  }

  /** Keys have mutexes of their own, and a thread that knows a mutex knows the one of its key. */
  ghost predicate Mapped(s: State) {
    && (forall k :: k in s.locks ==> s.locks[k] < s.next)
    && (forall j, k :: j in s.locks && k in s.locks && s.locks[j] == s.locks[k] ==> j == k)
    && (forall t :: 0 <= t < |s.pc| && s.pc[t].HasMutex() ==>
          s.pc[t].key in s.locks && s.locks[s.pc[t].key] == s.pc[t].mutex)
    && (forall t :: 0 <= t < |s.pc| && s.pc[t].Creating? ==>
          && s.pc[t].key !in s.locks && s.pc[t].mutex < s.next
          && forall k :: k in s.locks ==> s.locks[k] != s.pc[t].mutex)
  }

  ghost predicate Holds(s: State, t: nat, key: string)
    requires |s.held| == |s.pc|
  {
    t < |s.pc| && key in s.held[t]
  }

  /** A key has at most one holder; its mutex is locked exactly while it has one; and only a holder unlocks. */
  ghost predicate Owned(s: State)
    requires |s.held| == |s.pc|
  {
    && (forall t, u, k :: Holds(s, t, k) && Holds(s, u, k) ==> t == u)
    && (forall t, k :: Holds(s, t, k) ==> k in s.locks && s.locks[k] in s.locked)
    && (forall k :: k in s.locks && s.locks[k] in s.locked ==> exists t :: Holds(s, t, k))
    && (forall m :: m in s.locked ==> exists k :: k in s.locks && s.locks[k] == m)
    && (forall t :: 0 <= t < |s.pc| && !s.pc[t].Idle? && s.pc[t].why.ToUnlock? ==> Holds(s, t, s.pc[t].key))
  }

  ghost predicate Inv(s: State) {
    |s.held| == |s.pc| && Excluding(s) && Mapped(s) && Owned(s)
  }

  /** Only the acting thread moves, and nothing but its own action changes the shared state. */
  lemma {:induction false} OthersStay(s: State, e: Event)
    requires |s.held| == |s.pc| && Step(s, e).Next?
    ensures var n := Step(s, e).state;
            && e.t < |s.pc| == |n.pc| == |n.held|
            && (forall t :: 0 <= t < |s.pc| && t != e.t ==> n.pc[t] == s.pc[t] && n.held[t] == s.held[t])
  {
  }

  /** What the acting thread does to the read-write lock. */
  lemma {:induction false} OwnPart(s: State, e: Event)
    requires Inv(s) && Step(s, e).Next?
    ensures var n, t := Step(s, e).state, e.t;
            && t < |n.pc|
            && n.readers == (if n.pc[t].InRead() then s.readers + {t} else s.readers - {t})
            && n.writer == (if n.pc[t].InWrite() then Some(t) else if s.pc[t].InWrite() then None else s.writer)
            && (n.pc[t].InWrite() ==> s.pc[t].InWrite() || (s.writer.None? && s.readers == {}))
            && (n.pc[t].InRead() ==> s.pc[t].InRead() || s.writer.None?)
  {
    hide Mapped, Owned;
  }

  lemma {:induction false} StepExcludes(s: State, e: Event)
    requires Inv(s) && Step(s, e).Next?
    ensures Excluding(Step(s, e).state)
  {
    hide Step, Mapped, Owned;
    OthersStay(s, e);
    OwnPart(s, e);
  }

  /** A step that leaves the map alone. */
  lemma {:induction false} KeepsMap(s: State, n: State, t: nat)
    requires Mapped(s) && |n.pc| == |s.pc| && t < |s.pc| && n.locks == s.locks && n.next >= s.next
    requires forall u :: 0 <= u < |s.pc| && u != t ==> n.pc[u] == s.pc[u]
    requires n.pc[t].HasMutex() ==> n.pc[t].key in s.locks && s.locks[n.pc[t].key] == n.pc[t].mutex
    requires n.pc[t].Creating? ==> n.pc[t].key !in s.locks && s.next <= n.pc[t].mutex < n.next
    ensures Mapped(n)
  {
  }

  /** Filing a new mutex: the thread is alone in the map, so no one else is about to file one. */
  lemma {:induction false} FilesMutex(s: State, n: State, t: nat)
    requires Excluding(s) && Mapped(s) && |n.pc| == |s.pc| && t < |s.pc| && s.pc[t].Creating?
    requires n.locks == s.locks[s.pc[t].key := s.pc[t].mutex] && n.next == s.next
    requires n.pc == s.pc[t := WriteDone(s.pc[t].key, s.pc[t].why, s.pc[t].mutex)]
    ensures Mapped(n)
  {
  }

  lemma {:induction false} StepMaps(s: State, e: Event)
    requires Inv(s) && Step(s, e).Next?
    ensures Mapped(Step(s, e).state)
  {
    hide Owned;
    OthersStay(s, e);
    var n := Step(s, e).state;
    if e.Go? && s.pc[e.t].Creating? {
      FilesMutex(s, n, e.t);
    } else {
      hide Excluding;
      KeepsMap(s, n, e.t);
    }
  }

  /** A step that neither locks nor unlocks a mutex, and files at most a new one. */
  lemma {:induction false} KeepsOwners(s: State, n: State, t: nat)
    requires |s.held| == |s.pc| == |n.pc| && Owned(s) && t < |s.pc| && n.held == s.held && n.locked == s.locked
    requires forall k :: k in s.locks ==> k in n.locks && n.locks[k] == s.locks[k]
    requires forall k :: k in n.locks && k !in s.locks ==> n.locks[k] !in s.locked
    requires forall u :: 0 <= u < |s.pc| && u != t ==> n.pc[u] == s.pc[u]
    requires !n.pc[t].Idle? && n.pc[t].why.ToUnlock? ==> Holds(s, t, n.pc[t].key)
    ensures Owned(n)
  {
    assert forall u, k :: Holds(n, u, k) == Holds(s, u, k);
    forall m | m in n.locked ensures exists k :: k in n.locks && n.locks[k] == m {
      var k :| k in s.locks && s.locks[k] == m;
      assert n.locks[k] == m;
    }
  }

  lemma {:induction false} Acquires(s: State, n: State, t: nat)
    requires |s.held| == |s.pc| && Mapped(s) && Owned(s) && t < |s.pc|
    requires s.pc[t].Got? && s.pc[t].why.ToLock? && s.pc[t].mutex !in s.locked
    requires n == At(s, t, Idle).(locked := s.locked + {s.pc[t].mutex}, held := s.held[t := s.held[t] + {s.pc[t].key}])
    ensures Owned(n)
  {
    var key, mutex := s.pc[t].key, s.pc[t].mutex;
    assert forall u: nat, k :: Holds(n, u, k) <==> Holds(s, u, k) || (u == t && k == key);
    assert Holds(n, t, key);
  }

  lemma {:induction false} Releases(s: State, n: State, t: nat)
    requires |s.held| == |s.pc| && Mapped(s) && Owned(s) && t < |s.pc|
    requires s.pc[t].Got? && s.pc[t].why.ToUnlock? && s.pc[t].mutex in s.locked
    requires n == At(s, t, Idle).(locked := s.locked - {s.pc[t].mutex}, held := s.held[t := s.held[t] - {s.pc[t].key}])
    ensures Owned(n)
  {
    var key, mutex := s.pc[t].key, s.pc[t].mutex;
    assert Holds(s, t, key);
    assert forall u: nat, k :: Holds(n, u, k) <==> Holds(s, u, k) && k != key;
  }

  lemma {:induction false} StepOwns(s: State, e: Event)
    requires Inv(s) && Step(s, e).Next?
    ensures |Step(s, e).state.held| == |Step(s, e).state.pc| && Owned(Step(s, e).state)
  {
    hide Excluding, Owned;
    OthersStay(s, e);
    var n := Step(s, e).state;
    if e.Go? && s.pc[e.t].Got? {
      if s.pc[e.t].why.ToLock? { Acquires(s, n, e.t); } else { Releases(s, n, e.t); }
    } else {
      UnlockerHolds(s, e.t);
      if e.Go? && s.pc[e.t].Creating? { NewIsFree(s, s.pc[e.t].mutex); }
      KeepsOwners(s, n, e.t);
    }
  }

  lemma {:induction false} UnlockerHolds(s: State, t: nat)
    requires |s.held| == |s.pc| && Owned(s) && t < |s.pc|
    ensures !s.pc[t].Idle? && s.pc[t].why.ToUnlock? ==> Holds(s, t, s.pc[t].key)
  {
  }

  lemma {:induction false} NewIsFree(s: State, mutex: nat)
    requires |s.held| == |s.pc| && Owned(s) && forall k :: k in s.locks ==> s.locks[k] != mutex
    ensures mutex !in s.locked
  {
  }

  // ---------------------------------------------------------------------------------------------
  // Whole runs
  // ---------------------------------------------------------------------------------------------

  /** The outcome of a sequence of events; it stops at one that is blocked or fatal. */
  function Run(s: State, events: seq<Event>): (r: Outcome)
    requires |s.held| == |s.pc|
    ensures r.Next? ==> |r.state.held| == |r.state.pc|
  {
    if events == [] then Next(s)
    else
      var before := Run(s, events[..|events| - 1]);
      if before.Next? then Step(before.state, events[|events| - 1]) else before
  }

  lemma {:induction false} StepKeepsInv(s: State, e: Event)
    requires Inv(s)
    ensures Step(s, e).Next? ==> Inv(Step(s, e).state)
    ensures !Step(s, e).Fatal?
  {
    if Step(s, e).Next? {
      hide Step, Excluding, Mapped, Owned;
      StepExcludes(s, e);
      StepMaps(s, e);
      StepOwns(s, e);
    } else if e.Go? && e.t < |s.pc| {
      UnlockerHolds(s, e.t);
    }
  }

  /** No run of any number of threads ever unlocks an unlocked mutex, and all keep the invariant. */
  lemma {:induction false} RunKeepsInv(s: State, events: seq<Event>)
    requires Inv(s)
    ensures !Run(s, events).Fatal?
    ensures Run(s, events).Next? ==> Inv(Run(s, events).state)
  {
    hide Step, Inv;
    assert |s.held| == |s.pc| by { InvLengths(s); }
    if events != [] {
      RunKeepsInv(s, events[..|events| - 1]);
      var before := Run(s, events[..|events| - 1]);
      if before.Next? { StepKeepsInv(before.state, events[|events| - 1]); }
    }
  }

  lemma {:induction false} InvLengths(s: State)
    requires Inv(s)
    ensures |s.held| == |s.pc|
  {
  }

  lemma {:induction false} BeginInv(threads: nat)
    ensures Inv(Begin(threads))
  {
  }

  lemma {:induction false} StepKeepsLocks(s: State, e: Event)
    requires Inv(s) && Step(s, e).Next?
    ensures forall k :: k in s.locks ==> k in Step(s, e).state.locks && Step(s, e).state.locks[k] == s.locks[k]
  {
  }

  /** Once a key has a mutex, it keeps it. */
  lemma {:induction false} LocksAreNeverReplaced(s: State, events: seq<Event>, key: string)
    requires Inv(s) && Run(s, events).Next? && key in s.locks
    ensures key in Run(s, events).state.locks && Run(s, events).state.locks[key] == s.locks[key]
  {
    hide Step, Inv;
    InvLengths(s);
    if events != [] {
      var before := events[..|events| - 1];
      RunKeepsInv(s, before);
      LocksAreNeverReplaced(s, before, key);
      StepKeepsLocks(Run(s, before).state, events[|events| - 1]);
    }
  }

  /** Whatever threads ask for the same key, now or at any later time and to lock or to unlock, get one mutex; and
      threads that ask for different keys get different ones. In particular Unlock unlocks what Lock locked. */
  lemma {:induction false} SameMutex(threads: nat, events: seq<Event>, more: seq<Event>, t: nat, u: nat)
    requires Run(Begin(threads), events).Next?
    requires Run(Run(Begin(threads), events).state, more).Next?
    requires var s, n := Run(Begin(threads), events).state, Run(Run(Begin(threads), events).state, more).state;
             t < |s.pc| && u < |n.pc| && s.pc[t].Got? && n.pc[u].Got?
    ensures var s, n := Run(Begin(threads), events).state, Run(Run(Begin(threads), events).state, more).state;
            s.pc[t].mutex == n.pc[u].mutex <==> s.pc[t].key == n.pc[u].key
  {
    hide Step, Run, Excluding, Owned;
    BeginInv(threads);
    RunKeepsInv(Begin(threads), events);
    var s := Run(Begin(threads), events).state;
    RunKeepsInv(s, more);
    LocksAreNeverReplaced(s, more, s.pc[t].key);
  }

  /** At most one thread holds a key, at any time of any run. */
  lemma {:induction false} MutualExclusion(threads: nat, events: seq<Event>, t: nat, u: nat, key: string)
    requires Run(Begin(threads), events).Next?
    requires var s := Run(Begin(threads), events).state; Holds(s, t, key) && Holds(s, u, key)
    ensures t == u
  {
    hide Step, Run, Excluding, Mapped;
    BeginInv(threads);
    RunKeepsInv(Begin(threads), events);
  }

  /** While a thread writes the map, no other thread reads or writes it. */
  lemma {:induction false} WriterIsAlone(threads: nat, events: seq<Event>, t: nat, u: nat)
    requires Run(Begin(threads), events).Next?
    requires var s := Run(Begin(threads), events).state;
             t < |s.pc| && u < |s.pc| && t != u && s.pc[t].Creating?
    ensures var s := Run(Begin(threads), events).state; !s.pc[u].InRead() && !s.pc[u].InWrite()
  {
    hide Step, Run, Mapped, Owned;
    BeginInv(threads);
    RunKeepsInv(Begin(threads), events);
  }

  /** What a lock per key is for: every step leaves the held keys alone, or takes a key that nobody holds, or gives
      back a key the thread holds. */
  lemma {:induction false} StepsAreAtomicLocking(s: State, e: Event)
    requires Inv(s) && Step(s, e).Next?
    ensures var n := Step(s, e).state;
            || n.held == s.held
            || exists key ::
                 || ((forall u :: !Holds(s, u, key)) && n.held == s.held[e.t := s.held[e.t] + {key}])
                 || (Holds(s, e.t, key) && n.held == s.held[e.t := s.held[e.t] - {key}])
  {
  }

  /** What a step does to the lock table that the users of the locks see. */
  function Visible(s: State, e: Event): seq<LockEvent> {
    if e.Go? && e.t < |s.pc| && s.pc[e.t].Got? then
      [if s.pc[e.t].why.ToLock? then Taken(e.t, s.pc[e.t].key) else Given(e.t, s.pc[e.t].key)]
    else []
  }

  function Trace(s: State, events: seq<Event>): seq<LockEvent>
    requires |s.held| == |s.pc|
  {
    if events == [] then []
    else
      var before := Run(s, events[..|events| - 1]);
      Trace(s, events[..|events| - 1]) + if before.Next? then Visible(before.state, events[|events| - 1]) else []
  }

  ghost predicate Shows(table: Table, s: State)
    requires |s.held| == |s.pc|
  {
    && (forall t, k :: Holds(s, t, k) ==> k in table && table[k] == t)
    && (forall k :: k in table ==> Holds(s, table[k], k))
  }

  lemma {:induction false} StepShows(s: State, e: Event, table: Table)
    requires Inv(s) && Step(s, e).Next? && Shows(table, s)
    ensures |Step(s, e).state.held| == |Step(s, e).state.pc|
    ensures Visible(s, e) == [] ==> Shows(table, Step(s, e).state)
    ensures Visible(s, e) != [] ==>
      var after := Change(table, Visible(s, e)[0]); after.Some? && Shows(after.value, Step(s, e).state)
  {
    hide Excluding;
    OthersStay(s, e);
    UnlockerHolds(s, e.t);
    var n := Step(s, e).state;
    if Visible(s, e) == [] {
      assert n.held == s.held;
      assert forall t, k :: Holds(n, t, k) == Holds(s, t, k);
    } else {
      var key := s.pc[e.t].key;
      if s.pc[e.t].why.ToLock? {
        assert forall t: nat, k :: Holds(n, t, k) <==> Holds(s, t, k) || (t == e.t && k == key);
      } else {
        assert Holds(s, e.t, key);
        assert forall t: nat, k :: Holds(n, t, k) <==> Holds(s, t, k) && !(t == e.t && k == key);
      }
    }
  }

  /** Every run, seen from outside, is a run of the lock table: each acquisition takes a key that is free in the table,
      each release gives back a key that the thread has there, and the table shows who holds what. */
  lemma {:induction false} RunsAreLockTableRuns(threads: nat, events: seq<Event>)
    requires Run(Begin(threads), events).Next?
    ensures var table := Replay(map[], Trace(Begin(threads), events));
            table.Some? && Shows(table.value, Run(Begin(threads), events).state)
  {
    hide Step, Visible, Inv, Shows;
    if events == [] {
      NothingShown(threads);
    } else {
      var before, e := events[..|events| - 1], events[|events| - 1];
      RunsAreLockTableRuns(threads, before);
      BeginInv(threads);
      RunKeepsInv(Begin(threads), before);
      var s, trace := Run(Begin(threads), before).state, Trace(Begin(threads), before);
      StepShows(s, e, Replay(map[], trace).value);
      VisibleIsOne(s, e);
      var seen := Visible(s, e);
      if seen == [] {
        assert trace + seen == trace;
      } else {
        assert (trace + seen)[..|trace|] == trace;
      }
    }
  }

  lemma {:induction false} VisibleIsOne(s: State, e: Event)
    ensures |Visible(s, e)| <= 1
  {
  }

  lemma {:induction false} NothingShown(threads: nat)
    ensures Shows(map[], Begin(threads))
  {
  }

  /** A thread is kept waiting for a key exactly while someone holds it. */
  lemma {:induction false} WaitsOnlyForHolder(s: State, t: nat)
    requires Inv(s) && t < |s.pc| && s.pc[t].Got? && s.pc[t].why.ToLock?
    ensures Act(s, t).Blocked? <==> exists u :: Holds(s, u, s.pc[t].key)
  {
  }

  /** The map itself is never stuck: if any thread is looking for its mutex, some such thread can act. */
  lemma {:induction false} LookupProgress(s: State, t: nat) returns (u: nat)
    requires Inv(s) && t < |s.pc| && !s.pc[t].Idle? && !s.pc[t].Got?
    ensures u < |s.pc| && !s.pc[u].Idle? && !s.pc[u].Got? && Act(s, u).Next?
  {
    hide Mapped, Owned;
    if s.writer.Some? {
      u := s.writer.value;
    } else if s.readers != {} {
      u :| u in s.readers;
    } else {
      u := t;
    }
  }

  // ---------------------------------------------------------------------------------------------
  // Calls
  // ---------------------------------------------------------------------------------------------

  /** An idle thread can always call Lock, and Unlock for a key that it holds; the call is for that key. */
  lemma {:induction false} CallsBegin(s: State, t: nat, key: string)
    requires |s.held| == |s.pc| && t < |s.pc| && s.pc[t].Idle?
    ensures Step(s, CallLock(t, key)).Next? && (Step(s, CallUnlock(t, key)).Next? <==> key in s.held[t])
    ensures forall e :: (e == CallLock(t, key) || e == CallUnlock(t, key)) && Step(s, e).Next? ==>
              var n := Step(s, e).state;
              t < |n.pc| && !n.pc[t].Idle? && n.pc[t].key == key && n.pc[t].why.ToLock? == e.CallLock?
  {
  }

  /** A call is for the same key until it returns. When a call of Lock returns, the thread holds the key in addition;
      when one of Unlock returns, it holds it no longer; and until then nothing of that has happened. */
  lemma {:induction false} CallsReturn(s: State, e: Event, t: nat)
    requires |s.held| == |s.pc| && Step(s, e).Next? && t < |s.pc| && !s.pc[t].Idle?
    ensures var n, pc := Step(s, e).state, s.pc[t];
            && t < |n.pc| == |n.held|
            && if n.pc[t].Idle? then n.held[t] == if pc.why.ToLock? then s.held[t] + {pc.key} else s.held[t] - {pc.key}
               else n.pc[t].key == pc.key && n.pc[t].why == pc.why && n.held[t] == s.held[t]
  {
  }

  /** How many actions a call still takes at most. */
  function ActionsLeft(pc: Pc): nat {
    match pc
    case Idle => 0
    case Got(_, _, _) => 1
    case ReadHit(_, _, _) => 2
    case WriteDone(_, _, _) => 2
    case Creating(_, _, _) => 3
    case Writing(_, _) => 4
    case WantsWrite(_, _) => 5
    case ReadMiss(_, _) => 6
    case Reading(_, _) => 7
    case Entering(_, _) => 8
  }

  /** A call takes at most eight actions. */
  lemma {:induction false} CallsAreShort(s: State, t: nat)
    requires |s.held| == |s.pc| && t < |s.pc| && Act(s, t).Next?
    ensures t < |Act(s, t).state.pc| && ActionsLeft(Act(s, t).state.pc[t]) < ActionsLeft(s.pc[t]) <= 8
  {
  }
}
