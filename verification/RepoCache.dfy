/** The repository server: a cache in front of working trees that requests share. Each request resolves its revision,
    looks into the cache, and on a miss locks the working tree, checks the commit out, reads the tree as often as it
    needs to, files its result and unlocks. Any number of requests take turns, one action at a time, and entries may
    vanish from the cache at any time. */
module RepoCache {
  import opened Kube
  import opened Git
  import opened CacheKeys
  import opened LockTable

  datatype Request = Request(repo: string, revision: string, ask: Ask)

  /** A manifest response carries the commit as its revision; the other responses have none. */
  datatype Response = Response(content: Content, revision: string)

  /** Content made from one commit, or from a tree that changed meanwhile. */
  datatype Content = Text(text: string) | Mixed

  /** The outside world: the directory of a repository, what a question gives at a commit (nothing if it fails), and
      the hash. */
  datatype World = World(root: string -> string, gen: (Ask, string) -> Option<string>, fnv: string -> nat)

  /** A working tree: in the middle of a checkout, or at a commit with the changes some requests made to it. */
  datatype Tree = Moving | At(commit: string, dirt: set<nat>)

  datatype Pc =
    | Idle
    | Resolved(q: Request, sha: string)
    | Missed(q: Request, sha: string)
    | Locked(q: Request, sha: string)
    | CheckingOut(q: Request, sha: string)
    | Reading(q: Request, sha: string, commit: string, seen: seq<Tree>)
    | Storing(q: Request, sha: string, commit: string, made: Response)
    | Releasing(q: Request, sha: string, at: Option<string>, res: Option<Response>)
  {
    predicate Inside() { Locked? || CheckingOut? || Reading? || Storing? || Releasing? }

    /** The commit that the request has checked out and not yet left: from its checkout to its unlock. */
    function Commit(): Option<string> {
      if Reading? || Storing? then Some(commit) else if Releasing? then at else None
    }
  }

  datatype Served = Served(q: Request, sha: string, res: Option<Response>)

  datatype State = State(
    pc: seq<Pc>,
    held: Table,
    trees: map<string, Tree>,
    cache: map<string, Response>,
    served: seq<Served>)

  datatype Event =
    | Ask(t: nat, q: Request, sha: Option<string>)
    | Get(t: nat, readable: bool)
    | Lock(t: nat)
    | StartCheckout(t: nat)
    | EndCheckout(t: nat, commit: Option<string>)
    | Read(t: nat)
    | Write(t: nat)
    | Generate(t: nat)
    | Set(t: nat, stored: bool)
    | Unlock(t: nat)
    | Evict(key: string)

  /** Resolving gives a commit SHA itself and otherwise something hexadecimal; checking a commit SHA out gives that
      commit, and whatever else is checked out ends at some commit. */
  predicate Sensible(s: State, e: Event) {
    match e
    case Ask(t, q, sha) =>
      Plain(q.ask) && (sha.Some? ==> IsHex(sha.value) && (IsCommitSHA(q.revision) ==> sha.value == q.revision))
    case EndCheckout(t, commit) =>
      commit.Some? ==>
        && IsCommitSHA(commit.value)
        && (t < |s.pc| && s.pc[t].CheckingOut? && IsCommitSHA(s.pc[t].sha) ==> commit.value == s.pc[t].sha)
    case _ => true
  }

  function Answer(ask: Ask, commit: string, content: Content): Response {
    Response(content, if ask.Manifest? then commit else "")
  }

  /** What a generation that read these trees makes: one commit's content only if it saw one commit throughout,
      without the changes of others. */
  function Made(w: World, t: nat, ask: Ask, seen: seq<Tree>): Option<Content>
    requires seen != []
  {
    if forall i :: 0 <= i < |seen| ==>
         seen[i].At? && seen[0].At? && seen[i].commit == seen[0].commit && seen[i].dirt <= {t}
    then (match w.gen(ask, seen[0].commit) case Some(text) => Some(Text(text)) case None => None)
    else Some(Mixed)
  }

  /** The answer of a generation that has the tree to itself. */
  function Fresh(w: World, ask: Ask, commit: string): Option<Response> {
    match w.gen(ask, commit)
    case Some(text) => Some(Answer(ask, commit, Text(text)))
    case None => None
  }

  function Thread(s: State, t: nat, pc: Pc): State
    requires t < |s.pc|
  {
    s.(pc := s.pc[t := pc])
  }

  /** The effect of an event, if it is possible. */
  function Step(w: World, s: State, e: Event): Option<State> {
    if e.Evict? then Some(s.(cache := s.cache - {e.key}))
    else if e.t >= |s.pc| then None
    else Act(w, s, e)
  }

  function Act(w: World, s: State, e: Event): Option<State>
    requires !e.Evict? && e.t < |s.pc|
  {
    var t := e.t;
    match (e, s.pc[t])
    case (Ask(_, q, sha), Idle) =>
      if sha.Some? then Some(Thread(s, t, Resolved(q, sha.value)))
      else Some(s.(served := s.served + [Served(q, "", None)]))
    case (Get(_, readable), Resolved(q, sha)) =>
      var key := Key(w.fnv, q.ask, sha);
      if readable && key in s.cache
      then Some(Thread(s, t, Idle).(served := s.served + [Served(q, sha, Some(s.cache[key]))]))
      else Some(Thread(s, t, Missed(q, sha)))
    case (Lock(_), Missed(q, sha)) =>
      (match Take(s.held, t, w.root(q.repo))
       case None => None
       case Some(held) => Some(Thread(s, t, Locked(q, sha)).(held := held)))
    case (StartCheckout(_), Locked(q, sha)) =>
      Some(Thread(s, t, CheckingOut(q, sha)).(trees := s.trees[w.root(q.repo) := Moving]))
    case (EndCheckout(_, commit), CheckingOut(q, sha)) =>
      if commit.None? then Some(Thread(s, t, Releasing(q, sha, None, None)))
      else
        Some(Thread(s, t, Reading(q, sha, commit.value, [])).(trees := s.trees[w.root(q.repo) := At(commit.value, {})]))
    case (Read(_), Reading(q, sha, commit, seen)) =>
      if w.root(q.repo) !in s.trees then None
      else Some(Thread(s, t, Reading(q, sha, commit, seen + [s.trees[w.root(q.repo)]])))
    case (Write(_), Reading(q, sha, commit, seen)) =>
      var root := w.root(q.repo);
      if root !in s.trees || s.trees[root].Moving? then None
      else Some(s.(trees := s.trees[root := At(s.trees[root].commit, s.trees[root].dirt + {t})]))
    case (Generate(_), Reading(q, sha, commit, seen)) =>
      if seen == [] then None
      else
        (match Made(w, t, q.ask, seen)
         case None => Some(Thread(s, t, Releasing(q, sha, Some(commit), None)))
         case Some(content) => Some(Thread(s, t, Storing(q, sha, commit, Answer(q.ask, commit, content)))))
    case (Set(_, stored), Storing(q, sha, commit, res)) =>
      var n := Thread(s, t, Releasing(q, sha, Some(commit), Some(res)));
      Some(if stored then n.(cache := s.cache[Key(w.fnv, q.ask, commit) := res]) else n)
    case (Unlock(_), Releasing(q, sha, _, res)) =>
      (match Give(s.held, t, w.root(q.repo))
       case None => None
       case Some(held) => Some(Thread(s, t, Idle).(held := held, served := s.served + [Served(q, sha, res)])))
    case _ => None
  }

  function Begin(threads: nat): State {
    State(seq(threads, _ => Idle), map[], map[], map[], [])
  }

  // ---------------------------------------------------------------------------------------------
  // The invariant
  // ---------------------------------------------------------------------------------------------

  /** The lock of a tree is held by the one request that is inside. */
  ghost predicate Exclusive(w: World, s: State) {
    forall t :: 0 <= t < |s.pc| ==> HoldsOwn(w, s.held, t, s.pc[t])
  }

  predicate HoldsOwn(w: World, held: Table, t: nat, pc: Pc) {
    pc.Inside() ==> w.root(pc.q.repo) in held && held[w.root(pc.q.repo)] == t
  }

  predicate OwnTree(t: nat, commit: string, tree: Tree) {
    tree.At? && tree.commit == commit && tree.dirt <= {t}
  }

  /** From its checkout on, a request finds its tree at its commit, changed by no one else, and has seen it so. */
  ghost predicate TreesStay(w: World, s: State) {
    forall t :: 0 <= t < |s.pc| ==> TreeStays(w, s.trees, t, s.pc[t])
  }

  ghost predicate TreeStays(w: World, trees: map<string, Tree>, t: nat, pc: Pc) {
    pc.Commit().Some? ==>
      && w.root(pc.q.repo) in trees && OwnTree(t, pc.Commit().value, trees[w.root(pc.q.repo)])
      && (pc.Reading? ==> forall i :: 0 <= i < |pc.seen| ==> OwnTree(t, pc.commit, pc.seen[i]))
  }

  /** A response is the fresh generation, for a question alike, at a commit, which is the resolved one if that is a
      commit SHA. */
  ghost predicate FreshFor(w: World, asked: set<Ask>, ask: Ask, sha: string, res: Response) {
    exists like, commit :: FreshAt(w, asked, ask, sha, res, like, commit)
  }

  predicate FreshAt(w: World, asked: set<Ask>, ask: Ask, sha: string, res: Response, like: Ask, commit: string) {
    && like in asked && Alike(w.fnv, like, ask) && Fresh(w, like, commit) == Some(res)
    && IsCommitSHA(commit) && (IsCommitSHA(sha) ==> commit == sha)
  }

  /** What the key says: the response was generated at the commit of the key, and carries it. */
  ghost predicate EntryOk(w: World, asked: set<Ask>, key: string, res: Response) {
    exists ask, commit :: EntryIs(w, asked, key, res, ask, commit)
  }

  predicate EntryIs(w: World, asked: set<Ask>, key: string, res: Response, ask: Ask, commit: string) {
    && ask in asked && Plain(ask) && IsCommitSHA(commit)
    && key == Key(w.fnv, ask, commit) && Fresh(w, ask, commit) == Some(res)
  }

  ghost predicate CacheOk(w: World, asked: set<Ask>, s: State) {
    forall key :: key in s.cache ==> EntryOk(w, asked, key, s.cache[key])
  }

  ghost predicate ThreadOk(w: World, asked: set<Ask>, pc: Pc) {
    && (!pc.Idle? ==>
          && pc.q.ask in asked && Plain(pc.q.ask)
          && IsHex(pc.sha) && (IsCommitSHA(pc.q.revision) ==> pc.sha == pc.q.revision))
    && (pc.Commit().Some? ==>
          IsCommitSHA(pc.Commit().value) && (IsCommitSHA(pc.sha) ==> pc.Commit().value == pc.sha))
    && (pc.Storing? ==> Fresh(w, pc.q.ask, pc.commit) == Some(pc.made))
    && (pc.Releasing? && pc.res.Some? ==> FreshFor(w, asked, pc.q.ask, pc.sha, pc.res.value))
  }

  ghost predicate ThreadsOk(w: World, asked: set<Ask>, s: State) {
    forall t :: 0 <= t < |s.pc| ==> ThreadOk(w, asked, s.pc[t])
  }

  ghost predicate ServedOk(w: World, asked: set<Ask>, a: Served) {
    a.res.Some? ==>
      FreshFor(w, asked, a.q.ask, a.sha, a.res.value) && (IsCommitSHA(a.q.revision) ==> a.sha == a.q.revision)
  }

  ghost predicate AllServedOk(w: World, asked: set<Ask>, s: State) {
    forall i :: 0 <= i < |s.served| ==> ServedOk(w, asked, s.served[i])
  }

  ghost predicate Inv(w: World, asked: set<Ask>, s: State) {
    Exclusive(w, s) && TreesStay(w, s) && CacheOk(w, asked, s) && ThreadsOk(w, asked, s) && AllServedOk(w, asked, s)
  }

  lemma {:induction false} HexHasNoBar(s: string)
    requires IsHex(s)
    ensures NoBar(s)
  {
  }

  /** A hit answers the question that was asked, at the commit it resolved to. */
  lemma {:induction false} HitIsFresh(w: World, asked: set<Ask>, ask: Ask, sha: string, res: Response)
    requires Plain(ask) && IsHex(sha) && EntryOk(w, asked, Key(w.fnv, ask, sha), res)
    ensures FreshFor(w, asked, ask, sha, res)
  {
    hide Key, Fresh, Plain;
    var like, commit :| EntryIs(w, asked, Key(w.fnv, ask, sha), res, like, commit);
    HexHasNoBar(sha);
    HexHasNoBar(commit);
    KeyTells(w.fnv, like, commit, ask, sha);
    assert FreshAt(w, asked, ask, sha, res, like, commit);
  }

  /** A tree that stayed put gives the fresh generation. */
  lemma {:induction false} StayedIsFresh(w: World, t: nat, ask: Ask, commit: string, seen: seq<Tree>)
    requires seen != [] && forall i :: 0 <= i < |seen| ==> OwnTree(t, commit, seen[i])
    ensures match Made(w, t, ask, seen)
            case None => Fresh(w, ask, commit).None?
            case Some(content) => Fresh(w, ask, commit) == Some(Answer(ask, commit, content))
  {
  }

  /** What an event can change: the acting thread, and the lock and the tree of its own root. */
  lemma {:induction false} Effect(w: World, s: State, e: Event)
    requires Step(w, s, e).Some? && !e.Evict?
    ensures var n, t := Step(w, s, e).value, e.t;
            && t < |s.pc| == |n.pc|
            && (forall u :: 0 <= u < |s.pc| && u != t ==> n.pc[u] == s.pc[u])
            && (e.Lock? || e.Unlock? || n.held == s.held)
            && (n.trees == s.trees || s.pc[t].Inside())
            && (s.pc[t].Inside() ==>
                  forall root :: root != w.root(s.pc[t].q.repo) ==>
                    && (root in n.trees <==> root in s.trees)
                    && (root in s.trees ==> n.trees[root] == s.trees[root]))
  {
    hide Made, Key;
  }

  lemma {:induction false} HeldEffect(w: World, s: State, e: Event)
    requires Step(w, s, e).Some? && !e.Evict? && HoldsOwn(w, s.held, e.t, s.pc[e.t])
    ensures var n, t := Step(w, s, e).value, e.t;
            && t < |n.pc| && HoldsOwn(w, n.held, t, n.pc[t])
            && (forall root :: root in s.held && s.held[root] != t ==> root in n.held && n.held[root] == s.held[root])
  {
    hide Made, Key;
  }

  lemma {:induction false} StepExclusive(w: World, s: State, e: Event)
    requires Exclusive(w, s) && Step(w, s, e).Some?
    ensures Exclusive(w, Step(w, s, e).value)
  {
    if !e.Evict? {
      hide Step;
      assert e.t < |s.pc| by { Effect(w, s, e); }
      Effect(w, s, e);
      HeldEffect(w, s, e);
    }
  }

  lemma {:induction false} OwnTreeEffect(w: World, s: State, e: Event)
    requires Step(w, s, e).Some? && !e.Evict? && e.t < |s.pc| && TreeStays(w, s.trees, e.t, s.pc[e.t])
    ensures e.t < |Step(w, s, e).value.pc|
    ensures TreeStays(w, Step(w, s, e).value.trees, e.t, Step(w, s, e).value.pc[e.t])
  {
    hide Made, Key;
  }

  lemma {:induction false} StepTrees(w: World, s: State, e: Event)
    requires Exclusive(w, s) && TreesStay(w, s) && Step(w, s, e).Some?
    ensures TreesStay(w, Step(w, s, e).value)
  {
    if !e.Evict? {
      hide Step, OwnTree;
      Effect(w, s, e);
      OwnTreeEffect(w, s, e);
      var n := Step(w, s, e).value;
      forall u | 0 <= u < |n.pc| && u != e.t ensures TreeStays(w, n.trees, u, n.pc[u]) {
        assert HoldsOwn(w, s.held, u, s.pc[u]) && HoldsOwn(w, s.held, e.t, s.pc[e.t]);
        assert TreeStays(w, s.trees, u, s.pc[u]);
      }
    }
  }

  lemma {:induction false} StepCache(w: World, asked: set<Ask>, s: State, e: Event)
    requires CacheOk(w, asked, s) && ThreadsOk(w, asked, s) && Step(w, s, e).Some?
    ensures CacheOk(w, asked, Step(w, s, e).value)
  {
    hide Made, Key, FreshFor, EntryOk, Fresh;
    var n := Step(w, s, e).value;
    if e.Set? && e.stored {
      var pc := s.pc[e.t];
      assert ThreadOk(w, asked, pc);
      StoredOk(w, asked, pc.q.ask, pc.commit, pc.made);
    }
  }

  lemma {:induction false} StoredOk(w: World, asked: set<Ask>, ask: Ask, commit: string, res: Response)
    requires ask in asked && Plain(ask) && IsCommitSHA(commit) && Fresh(w, ask, commit) == Some(res)
    ensures EntryOk(w, asked, Key(w.fnv, ask, commit), res)
  {
    assert EntryIs(w, asked, Key(w.fnv, ask, commit), res, ask, commit);
  }

  lemma {:induction false} OwnIsFresh(w: World, asked: set<Ask>, ask: Ask, sha: string, commit: string, res: Response)
    requires ask in asked && IsCommitSHA(commit) && (IsCommitSHA(sha) ==> commit == sha)
    requires Fresh(w, ask, commit) == Some(res)
    ensures FreshFor(w, asked, ask, sha, res)
  {
    assert FreshAt(w, asked, ask, sha, res, ask, commit);
  }

  lemma {:induction false} StepThreads(w: World, asked: set<Ask>, s: State, e: Event)
    requires TreesStay(w, s) && ThreadsOk(w, asked, s) && Sensible(s, e) && Step(w, s, e).Some?
    requires e.Ask? ==> e.q.ask in asked
    ensures ThreadsOk(w, asked, Step(w, s, e).value)
  {
    hide Made, Key, FreshFor, EntryOk, Fresh, IsCommitSHA, IsHex, Plain, OwnTree;
    var n := Step(w, s, e).value;
    if !e.Evict? {
      Effect(w, s, e);
      var pc := s.pc[e.t];
      assert ThreadOk(w, asked, pc) && TreeStays(w, s.trees, e.t, pc);
      if e.Generate? { StayedIsFresh(w, e.t, pc.q.ask, pc.commit, pc.seen); }
      if e.Set? { OwnIsFresh(w, asked, pc.q.ask, pc.sha, pc.commit, pc.made); }
      assert ThreadOk(w, asked, n.pc[e.t]);
    }
  }

  lemma {:induction false} StepServed(w: World, asked: set<Ask>, s: State, e: Event)
    requires CacheOk(w, asked, s) && ThreadsOk(w, asked, s) && AllServedOk(w, asked, s) && Step(w, s, e).Some?
    ensures AllServedOk(w, asked, Step(w, s, e).value)
  {
    hide Made, Key, FreshFor, EntryOk, Fresh, IsCommitSHA, IsHex, Plain;
    if !e.Evict? {
      Effect(w, s, e);
      var pc := s.pc[e.t];
      assert ThreadOk(w, asked, pc);
      var key := if pc.Idle? then "" else Key(w.fnv, pc.q.ask, pc.sha);
      if e.Get? && e.readable && key in s.cache { HitIsFresh(w, asked, pc.q.ask, pc.sha, s.cache[key]); }
    }
  }

  // ---------------------------------------------------------------------------------------------
  // Whole runs
  // ---------------------------------------------------------------------------------------------

  /** The state after a sequence of possible and sensible events. */
  function Run(w: World, threads: nat, events: seq<Event>): Option<State> {
    if events == [] then Some(Begin(threads))
    else
      var before, e := Run(w, threads, events[..|events| - 1]), events[|events| - 1];
      if before.Some? && Sensible(before.value, e) then Step(w, before.value, e) else None
  }

  /** The questions that the run's requests asked. */
  function AskedBy(events: seq<Event>): set<Ask> {
    set i | 0 <= i < |events| && events[i].Ask? :: events[i].q.ask
  }

  lemma {:induction false} RunKeepsInv(w: World, threads: nat, events: seq<Event>, asked: set<Ask>)
    requires Run(w, threads, events).Some? && AskedBy(events) <= asked
    ensures Inv(w, asked, Run(w, threads, events).value)
  {
    hide Step, Sensible, Exclusive, TreesStay, CacheOk, ThreadsOk, AllServedOk;
    if events == [] {
      BeginInv(w, threads, asked);
    } else {
      var before, e := events[..|events| - 1], events[|events| - 1];
      assert forall i :: 0 <= i < |before| ==> before[i] == events[i];
      assert AskedBy(before) <= asked;
      RunKeepsInv(w, threads, before, asked);
      var s := Run(w, threads, before).value;
      StepExclusive(w, s, e);
      StepTrees(w, s, e);
      StepCache(w, asked, s, e);
      StepThreads(w, asked, s, e);
      StepServed(w, asked, s, e);
    }
  }

  lemma {:induction false} BeginInv(w: World, threads: nat, asked: set<Ask>)
    ensures Inv(w, asked, Begin(threads))
  {
  }

  /** Between its checkout and its unlock, a request has the tree at its commit, touched by no one else. */
  lemma {:induction false} TreeStaysPut(w: World, threads: nat, events: seq<Event>, t: nat)
    requires Run(w, threads, events).Some? && t < |Run(w, threads, events).value.pc|
    requires Run(w, threads, events).value.pc[t].Commit().Some?
    ensures var s := Run(w, threads, events).value;
            var pc, commit := s.pc[t], s.pc[t].Commit().value;
            && w.root(pc.q.repo) in s.held && s.held[w.root(pc.q.repo)] == t
            && w.root(pc.q.repo) in s.trees && s.trees[w.root(pc.q.repo)].At?
            && s.trees[w.root(pc.q.repo)].commit == commit && s.trees[w.root(pc.q.repo)].dirt <= {t}
            && (IsCommitSHA(pc.sha) ==> commit == pc.sha)
  {
    hide Run;
    var asked := AskedBy(events);
    RunKeepsInv(w, threads, events, asked);
    assert ThreadOk(w, asked, Run(w, threads, events).value.pc[t]);
  }

  /** Every cache entry is the fresh generation, for a question of the run, at the commit its key names, and a manifest
      carries that commit. */
  lemma {:induction false} CacheIsFresh(w: World, threads: nat, events: seq<Event>, ask: Ask, commit: string)
    requires Run(w, threads, events).Some? && Plain(ask) && NoBar(commit)
    requires Key(w.fnv, ask, commit) in Run(w, threads, events).value.cache
    ensures var entry := Run(w, threads, events).value.cache[Key(w.fnv, ask, commit)];
            && IsCommitSHA(commit) && (ask.Manifest? ==> entry.revision == commit)
            && exists like ::
                 like in AskedBy(events) && Alike(w.fnv, like, ask) && Fresh(w, like, commit) == Some(entry)
  {
    hide Run, Key;
    var asked := AskedBy(events);
    RunKeepsInv(w, threads, events, asked);
    var key := Key(w.fnv, ask, commit);
    var entry := Run(w, threads, events).value.cache[key];
    assert EntryOk(w, asked, key, entry);
    var like, at :| EntryIs(w, asked, key, entry, like, at);
    HexHasNoBar(at);
    KeyTells(w.fnv, like, at, ask, commit);
  }

  /** Hit or miss, whatever the other requests do meanwhile: a response is a fresh generation for a request of the
      run with the same key, at a commit that is the resolved one; and a manifest response carries that commit. */
  lemma {:induction false} ServedIsFresh(w: World, threads: nat, events: seq<Event>, i: nat)
    requires Run(w, threads, events).Some? && i < |Run(w, threads, events).value.served|
    requires Run(w, threads, events).value.served[i].res.Some?
    ensures var a := Run(w, threads, events).value.served[i];
            exists like, commit ::
              && like in AskedBy(events) && Alike(w.fnv, like, a.q.ask)
              && Fresh(w, like, commit) == a.res && IsCommitSHA(commit)
              && (IsCommitSHA(a.sha) ==> commit == a.sha)
              && (IsCommitSHA(a.q.revision) ==> commit == a.q.revision)
              && (a.q.ask.Manifest? ==> a.res.value.revision == commit)
  {
    hide Run;
    var asked := AskedBy(events);
    RunKeepsInv(w, threads, events, asked);
    var a := Run(w, threads, events).value.served[i];
    assert ServedOk(w, asked, a);
    var like, commit :| FreshAt(w, asked, a.q.ask, a.sha, a.res.value, like, commit);
    assert Fresh(w, like, commit) == a.res;
  }

  /** Two answers to the same question at the same commit agree, if no other question of the run has its key. */
  lemma {:induction false} SameAnswer(w: World, threads: nat, events: seq<Event>, i: nat, j: nat)
    requires Run(w, threads, events).Some?
    requires var served := Run(w, threads, events).value.served;
             && i < |served| && j < |served| && served[i].q.ask == served[j].q.ask
             && IsCommitSHA(served[i].sha) && served[i].sha == served[j].sha
             && served[i].res.Some? && served[j].res.Some?
             && (forall like :: like in AskedBy(events) && Alike(w.fnv, like, served[i].q.ask) ==>
                   like == served[i].q.ask)
    ensures Run(w, threads, events).value.served[i].res == Run(w, threads, events).value.served[j].res
  {
    hide Run, Fresh;
    ServedIsFresh(w, threads, events, i);
    ServedIsFresh(w, threads, events, j);
  }
}
