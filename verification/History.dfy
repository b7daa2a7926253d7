/** The deployment history of an application: the last five deployments, numbered consecutively. */
module History {
  import opened Kube
  import opened HookSync

  const MAX_HISTORY := 5

  /** Parameter overrides: none at all is not the same as an empty list. */
  type Overrides = Option<seq<string>>

  datatype Deployment = Deployment(id: int, revision: string, overrides: Overrides)

  function NextId(history: seq<Deployment>): int {
    if history == [] then 0 else history[|history| - 1].id + 1
  }

  function Next(history: seq<Deployment>, revision: string, overrides: Overrides): Deployment {
    Deployment(NextId(history), revision, overrides)
  }

  /** What is stored after one more deployment. */
  function Persist(history: seq<Deployment>, revision: string, overrides: Overrides): seq<Deployment> {
    var longer := history + [Next(history, revision, overrides)];
    if |longer| > MAX_HISTORY then longer[1..MAX_HISTORY + 1] else longer
  }

  predicate Consecutive(history: seq<Deployment>) {
    forall i :: 0 < i < |history| ==> history[i].id == history[i - 1].id + 1
  }

  /** A deployment that was made: its commit, the overrides that the operation asked for, if any, and those of the
      specification at the step that applied and at the step that recorded it. */
  datatype Made = Made(revision: string, asked: Overrides, applied: Overrides, spec: Overrides)

  /** The overrides as a list: none at all and an empty list generate the same manifests. */
  function AsList(overrides: Overrides): seq<string> {
    if overrides.Some? then overrides.value else []
  }

  /** The overrides that manifests are generated with: those asked for, or else those of the specification. */
  function Effective(asked: Overrides, spec: Overrides): seq<string> {
    if asked.Some? then asked.value else AsList(spec)
  }

  /** The overrides that the applied manifests were generated with. */
  function Deployed(m: Made): seq<string> {
    Effective(m.asked, m.applied)
  }

  /** What a stored entry keeps: an empty list is left out, and so becomes none. */
  function Kept(overrides: Overrides): Overrides {
    if overrides == Some([]) then None else overrides
  }

  /** The operation asked for the overrides of the specification, or asked for none and the specification still had at
      the recording step those it had when it was applied. */
  predicate KeptOverrides(m: Made) {
    if m.asked.Some? then m.asked.value == AsList(m.spec) else AsList(m.applied) == AsList(m.spec)
  }

  /** The deployments that were made, without any limit and as they were made. */
  function Log(start: seq<Deployment>, made: seq<Made>): seq<Deployment> {
    if made == [] then start
    else
      var before, m := Log(start, made[..|made| - 1]), made[|made| - 1];
      before + [Next(before, m.revision, Some(Deployed(m)))]
  }

  /** The same with the overrides that are stored, which are those of the specification. */
  function Filed(start: seq<Deployment>, made: seq<Made>): seq<Deployment> {
    if made == [] then start
    else
      var before, m := Filed(start, made[..|made| - 1]), made[|made| - 1];
      before + [Next(before, m.revision, Kept(m.spec))]
  }

  function LastFive(log: seq<Deployment>): seq<Deployment> {
    if |log| > MAX_HISTORY then log[|log| - MAX_HISTORY..] else log
  }

  /** Storing one more deployment keeps the last five of the log. */
  lemma {:induction false} PersistFollowsLog(log: seq<Deployment>, revision: string, overrides: Overrides)
    ensures Persist(LastFive(log), revision, overrides) == LastFive(log + [Next(log, revision, overrides)])
  {
  }

  lemma {:induction false} ConsecutiveIds(history: seq<Deployment>, i: nat, j: nat)
    requires Consecutive(history) && i <= j < |history|
    ensures history[j].id == history[i].id + (j - i)
    decreases j
  {
    if i < j { ConsecutiveIds(history, i, j - 1); }
  }

  lemma {:induction false} FiledConsecutive(start: seq<Deployment>, made: seq<Made>)
    requires Consecutive(start)
    ensures Consecutive(Filed(start, made)) && |Filed(start, made)| == |start| + |made|
  {
    if made != [] { FiledConsecutive(start, made[..|made| - 1]); }
  }

  /** What is stored under a number has the revision that was deployed under it. It has the overrides that were deployed
      if and only if the operation asked for those of the specification, or for none and the specification did not
      change them between the step that applied and the step that recorded. */
  lemma {:induction false} StoredOverridesCondition(start: seq<Deployment>, made: seq<Made>, k: nat)
    requires k < |start| + |made|
    ensures |Log(start, made)| == |Filed(start, made)| == |start| + |made|
    ensures var log, filed := Log(start, made), Filed(start, made);
            && filed[k].id == log[k].id && filed[k].revision == log[k].revision
            && (AsList(filed[k].overrides) == AsList(log[k].overrides) <==>
                  k < |start| || KeptOverrides(made[k - |start|]))
  {
    if made != [] {
      var n := |made| - 1;
      if k < |start| + n {
        StoredOverridesCondition(start, made[..n], k);
      } else if k > 0 {
        StoredOverridesCondition(start, made[..n], k - 1);
      }
    }
  }

  /** No stored entry but the first ones has an empty list of overrides: going back to one that was made with such a
      list means going back to none. */
  lemma {:induction false} EmptyIsNone(start: seq<Deployment>, made: seq<Made>, k: nat)
    requires k < |made|
    ensures |start| + k < |Filed(start, made)|
    ensures var kept := Filed(start, made)[|start| + k].overrides;
            if AsList(made[k].spec) == [] then kept.None? else kept == made[k].spec
  {
    var n := |made| - 1;
    FiledLength(start, made[..n]);
    if k < n { EmptyIsNone(start, made[..n], k); }
  }

  lemma {:induction false} FiledLength(start: seq<Deployment>, made: seq<Made>)
    ensures |Filed(start, made)| == |start| + |made|
  {
    if made != [] { FiledLength(start, made[..|made| - 1]); }
  }

  /** The deployment just made is in the stored history if and only if at most five were stored before. */
  lemma {:induction false} NewestIsKept(history: seq<Deployment>, revision: string, overrides: Overrides)
    requires Consecutive(history)
    ensures Next(history, revision, overrides) in Persist(history, revision, overrides) <==> |history| <= MAX_HISTORY
  {
    var newest := Next(history, revision, overrides);
    var stored := Persist(history, revision, overrides);
    if |history| <= MAX_HISTORY {
      assert stored[|stored| - 1] == newest;
    } else {
      forall i | 0 <= i < |stored| ensures stored[i] != newest {
        ConsecutiveIds(history, i + 1, |history| - 1);
      }
    }
  }

  /** With six stored deployments, which no run of the controller gives, the newest one is lost. */
  lemma {:induction false} SixLoseTheNewest()
    ensures var six := seq(6, i => Deployment(i, "a", None));
            Consecutive(six) && Deployment(6, "b", None) !in Persist(six, "b", None)
  {
  }

  datatype RollbackRequest = RollbackRequest(id: int, dryRun: bool, prune: bool)

  /** The operation that goes back to the deployment with the number. */
  predicate GoesBackTo(op: Operation, overrides: Overrides, q: RollbackRequest, d: Deployment) {
    && op.SyncOperation? && op.revision == d.revision && overrides == d.overrides && d.id == q.id
    && op.dryRun == q.dryRun && op.prune == q.prune && op.strategy == ApplyStrategy(false) && !op.partial
  }

  /** Looks the number up in the history; there must be no automated sync and no deletion under way. */
  method Rollback(history: seq<Deployment>, automated: bool, deleting: bool, q: RollbackRequest, now: nat)
    returns (r: Option<(Operation, Overrides)>)
    ensures r.None? <==> automated || deleting || forall i :: 0 <= i < |history| ==> history[i].id != q.id
    ensures r.Some? ==> exists i :: 0 <= i < |history| && GoesBackTo(r.value.0, r.value.1, q, history[i])
    ensures r.Some? ==> r.value.0.SyncOperation? && r.value.0.dryRun == q.dryRun && r.value.0.prune == q.prune
  {
    if deleting || automated { return None; }
    for i := 0 to |history|
      invariant forall j :: 0 <= j < i ==> history[j].id != q.id
    {
      var d := history[i];
      if d.id == q.id {
        var op := SyncOperation(d.revision, q.prune, q.dryRun, ApplyStrategy(false), false, now);
        assert GoesBackTo(op, d.overrides, q, history[i]);
        return Some((op, d.overrides));
      }
    }
    return None;
  }

  /** A number that is stored stands for one deployment of the whole log, and going back to it means going back to the
      revision that was deployed under it. The deployment `again` that the rollback makes has the overrides that were
      deployed under the number if and only if: some are stored, and those are the deployed ones by the condition above;
      or none are stored, and the specification has at the rollback those that were deployed. */
  lemma {:induction false} RollbackIsExact(start: seq<Deployment>, made: seq<Made>, q: RollbackRequest, op: Operation,
                                           overrides: Overrides, again: Made, i: nat, k: nat)
    requires Consecutive(start) && i < |LastFive(Filed(start, made))| && k < |Log(start, made)|
    requires GoesBackTo(op, overrides, q, LastFive(Filed(start, made))[i]) && Log(start, made)[k].id == q.id
    requires again.asked == overrides
    ensures |Log(start, made)| == |start| + |made|
    ensures op.revision == Log(start, made)[k].revision
    ensures Deployed(again) == AsList(Log(start, made)[k].overrides) <==>
            if overrides.Some? then k < |start| || KeptOverrides(made[k - |start|])
            else AsList(again.applied) == AsList(Log(start, made)[k].overrides)
  {
    hide Log, Filed, LastFive, KeptOverrides, Consecutive;
    var filed := Filed(start, made);
    FiledConsecutive(start, made);
    LogLength(start, made);
    StoredOverridesCondition(start, made, k);
    StoredIsFiled(filed, i, k);
  }

  /** A stored entry is the filed one with its number. */
  lemma {:induction false} StoredIsFiled(filed: seq<Deployment>, i: nat, k: nat)
    requires Consecutive(filed) && i < |LastFive(filed)| && k < |filed| && LastFive(filed)[i].id == filed[k].id
    ensures LastFive(filed)[i] == filed[k]
  {
    var at := |filed| - |LastFive(filed)| + i;
    assert LastFive(filed)[i] == filed[at];
    if at < k { ConsecutiveIds(filed, at, k); } else { ConsecutiveIds(filed, k, at); }
  }

  lemma {:induction false} LogLength(start: seq<Deployment>, made: seq<Made>)
    ensures |Log(start, made)| == |start| + |made|
  {
    if made != [] { LogLength(start, made[..|made| - 1]); }
  }
}
