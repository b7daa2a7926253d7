/** The order in which tasks are synced: targets by kind, in a fixed order of the known kinds, and prunes last. */
module KindOrder {
  import opened Kube
  import opened SyncState
  import opened ApplySync

  const NAMESPACE := "Namespace"

  const RESOURCE_ORDER: seq<string> := [
    NAMESPACE, "ResourceQuota", "LimitRange", "PodSecurityPolicy", "Secret", "ConfigMap", "StorageClass",
    "PersistentVolume", "PersistentVolumeClaim", "ServiceAccount", "CustomResourceDefinition", "ClusterRole",
    "ClusterRoleBinding", "Role", "RoleBinding", "Service", "DaemonSet", "Pod", "ReplicationController", "ReplicaSet",
    "Deployment", "StatefulSet", "Job", "CronJob", "Ingress", "APIService"]

  /** The place of a kind in a list of kinds without repetition. */
  function IndexIn(kinds: seq<string>, kind: string): Option<nat> {
    if kinds == [] then None
    else if kinds[|kinds| - 1] == kind then Some(|kinds| - 1)
    else IndexIn(kinds[..|kinds| - 1], kind)
  }

  predicate Known(kind: string) {
    IndexIn(RESOURCE_ORDER, kind).Some?
  }

  /** The rank that a look-up in the ordering map gives: zero for a missing kind. */
  function Rank(kind: string): nat {
    if Known(kind) then IndexIn(RESOURCE_ORDER, kind).value else 0
  }

  /** String order, by the first difference. */
  predicate Before(a: string, b: string) {
    b != "" && (a == "" || a[0] < b[0] || (a[0] == b[0] && Before(a[1..], b[1..])))
  }

  predicate Less(x: Task, y: Task) {
    if x.target.None? then false
    else if y.target.None? then true
    else
      var a, b := x.target.value, y.target.value;
      if Rank(a.kind) == Rank(b.kind) then
        if !Known(a.kind) && !Known(b.kind) && a.kind != b.kind then Before(a.kind, b.kind)
        else Before(a.name, b.name)
      else if !Known(a.kind) then false
      else if !Known(b.kind) then true
      else Rank(a.kind) < Rank(b.kind)
  }

  // ---------------------------------------------------------------------------------------------
  // String order is a total order
  // ---------------------------------------------------------------------------------------------

  lemma {:induction false} BeforeAsymmetric(a: string, b: string)
    ensures Before(a, b) ==> !Before(b, a)
    decreases |a|
  {
    if a != "" && b != "" { BeforeAsymmetric(a[1..], b[1..]); }
  }

  lemma {:induction false} BeforeTotal(a: string, b: string)
    ensures a != b ==> Before(a, b) || Before(b, a)
    decreases |a|
  {
    if a != "" && b != "" {
      BeforeTotal(a[1..], b[1..]);
      assert a == [a[0]] + a[1..] && b == [b[0]] + b[1..];
    }
  }

  lemma {:induction false} BeforeTransitive(a: string, b: string, c: string)
    ensures Before(a, b) && Before(b, c) ==> Before(a, c)
    decreases |a|
  {
    if a != "" && b != "" && c != "" { BeforeTransitive(a[1..], b[1..], c[1..]); }
  }

  /** What lies before c lies before b, or b lies before c. */
  lemma {:induction false} BeforeSplits(a: string, b: string, c: string)
    ensures Before(a, c) ==> Before(a, b) || Before(b, c)
  {
    BeforeTotal(a, b);
    BeforeTransitive(b, a, c);
  }

  // ---------------------------------------------------------------------------------------------
  // Ranks
  // ---------------------------------------------------------------------------------------------

  lemma {:induction false} IndexInIs(kinds: seq<string>, kind: string)
    ensures IndexIn(kinds, kind).Some? ==>
              IndexIn(kinds, kind).value < |kinds| && kinds[IndexIn(kinds, kind).value] == kind
  {
    if kinds != [] { IndexInIs(kinds[..|kinds| - 1], kind); }
  }

  lemma {:induction false} RankTells(a: string, b: string)
    requires Known(a) && Known(b) && Rank(a) == Rank(b)
    ensures a == b
  {
    IndexInIs(RESOURCE_ORDER, a);
    IndexInIs(RESOURCE_ORDER, b);
  }

  /** A known kind has rank zero exactly if it is the namespace. */
  lemma {:induction false} RankOfNamespace(kind: string)
    ensures Known(NAMESPACE) && Rank(NAMESPACE) == 0
    ensures Known(kind) ==> (Rank(kind) == 0 <==> kind == NAMESPACE)
  {
    assert RESOURCE_ORDER[0] == NAMESPACE;
    Found(RESOURCE_ORDER, 0);
    IndexInIs(RESOURCE_ORDER, kind);
    IndexInIs(RESOURCE_ORDER, NAMESPACE);
  }

  lemma {:induction false} IndexOf(kinds: seq<string>, i: nat)
    requires i < |kinds| && forall j :: i < j < |kinds| ==> kinds[j] != kinds[i]
    ensures IndexIn(kinds, kinds[i]) == Some(i)
  {
    if i < |kinds| - 1 { IndexOf(kinds[..|kinds| - 1], i); }
  }

  lemma {:induction false} KindsDiffer(i: nat, j: nat)
    requires i < j < |RESOURCE_ORDER|
    ensures RESOURCE_ORDER[i] != RESOURCE_ORDER[j]
  {
  }

  /** A known kind has its place in the order as its rank. */
  lemma {:induction false} RankIsPlace(i: nat)
    requires i < |RESOURCE_ORDER|
    ensures Known(RESOURCE_ORDER[i]) && Rank(RESOURCE_ORDER[i]) == i
  {
    hide IndexIn;
    forall j | i < j < |RESOURCE_ORDER| ensures RESOURCE_ORDER[j] != RESOURCE_ORDER[i] { KindsDiffer(i, j); }
    IndexOf(RESOURCE_ORDER, i);
  }

  /** What others need is synced before them: the targets of an earlier kind of the order come first, whatever their
      names, and those of any known kind but the namespace before those of an unknown one. */
  lemma {:induction false} EarlierKindsFirst(x: Task, y: Task, i: nat)
    requires x.target.Some? && y.target.Some? && i < |RESOURCE_ORDER| && x.target.value.kind == RESOURCE_ORDER[i]
    ensures forall j :: i < j < |RESOURCE_ORDER| && y.target.value.kind == RESOURCE_ORDER[j] ==>
              Less(x, y) && !Less(y, x)
    ensures i > 0 && !Known(y.target.value.kind) ==> Less(x, y) && !Less(y, x)
  {
    hide IndexIn, Before;
    RankIsPlace(i);
    forall j | i < j < |RESOURCE_ORDER| && y.target.value.kind == RESOURCE_ORDER[j] ensures Less(x, y) && !Less(y, x) {
      RankIsPlace(j);
    }
  }

  /** Kinds that run pods. */
  predicate IsWorkload(kind: string) {
    || kind == "DaemonSet" || kind == "Pod" || kind == "ReplicationController" || kind == "ReplicaSet"
    || kind == "Deployment" || kind == "StatefulSet" || kind == "Job" || kind == "CronJob"
  }

  /** For instance, what pods are made with comes before what runs them, and ingresses come after. */
  lemma {:induction false} PodsComeAfter(kind: string)
    requires IsWorkload(kind)
    ensures Rank("Secret") < Rank(kind) && Rank("ConfigMap") < Rank(kind) && Rank("PersistentVolumeClaim") < Rank(kind)
    ensures Rank("ServiceAccount") < Rank(kind) && Rank("Service") < Rank(kind) < Rank("Ingress")
  {
    hide Rank, Known;
    KindAt(4, "Secret");
    KindAt(5, "ConfigMap");
    KindAt(8, "PersistentVolumeClaim");
    KindAt(9, "ServiceAccount");
    KindAt(15, "Service");
    KindAt(24, "Ingress");
    WorkloadRank(kind);
  }

  /** Volumes come before the claims on them, and roles and accounts before the bindings between them. */
  lemma {:induction false} RolesAndVolumes()
    ensures Rank("StorageClass") < Rank("PersistentVolume") < Rank("PersistentVolumeClaim")
    ensures Rank("ServiceAccount") < Rank("ClusterRole") < Rank("ClusterRoleBinding")
    ensures Rank("ServiceAccount") < Rank("Role") < Rank("RoleBinding")
  {
    hide Rank, Known;
    KindAt(6, "StorageClass");
    KindAt(7, "PersistentVolume");
    KindAt(8, "PersistentVolumeClaim");
    KindAt(9, "ServiceAccount");
    KindAt(11, "ClusterRole");
    KindAt(12, "ClusterRoleBinding");
    KindAt(13, "Role");
    KindAt(14, "RoleBinding");
  }

  lemma {:induction false} WorkloadRank(kind: string)
    requires IsWorkload(kind)
    ensures 16 <= Rank(kind) < 24
  {
    hide Rank, Known;
    if kind == "DaemonSet" { KindAt(16, kind); }
    if kind == "Pod" { KindAt(17, kind); }
    if kind == "ReplicationController" { KindAt(18, kind); }
    if kind == "ReplicaSet" { KindAt(19, kind); }
    if kind == "Deployment" { KindAt(20, kind); }
    if kind == "StatefulSet" { KindAt(21, kind); }
    if kind == "Job" { KindAt(22, kind); }
    if kind == "CronJob" { KindAt(23, kind); }
  }

  lemma {:induction false} KindAt(i: nat, kind: string)
    requires i < |RESOURCE_ORDER| && RESOURCE_ORDER[i] == kind
    ensures Rank(kind) == i
  {
    RankIsPlace(i);
  }

  // ---------------------------------------------------------------------------------------------
  // When the order is one
  // ---------------------------------------------------------------------------------------------

  predicate IsPrune(x: Task) { x.target.None? }

  predicate IsNamespace(x: Task) { x.target.Some? && x.target.value.kind == NAMESPACE }

  predicate IsUnknown(x: Task) { x.target.Some? && !Known(x.target.value.kind) }

  predicate IsOther(x: Task) { x.target.Some? && Known(x.target.value.kind) && !IsNamespace(x) }

  function Kind(x: Task): string
    requires x.target.Some?
  {
    x.target.value.kind
  }

  function Name(x: Task): string
    requires x.target.Some?
  {
    x.target.value.name
  }

  /** The same order, case by case: a namespace and an unknown kind share rank zero and are compared by name. */
  predicate LessByCase(x: Task, y: Task) {
    if IsPrune(x) || IsPrune(y) then !IsPrune(x)
    else if IsOther(x) && IsOther(y) && Kind(x) != Kind(y) then Rank(Kind(x)) < Rank(Kind(y))
    else if IsOther(x) != IsOther(y) then IsNamespace(x) || IsUnknown(y)
    else if IsUnknown(x) && IsUnknown(y) && Kind(x) != Kind(y) then Before(Kind(x), Kind(y))
    else Before(Name(x), Name(y))
  }

  lemma {:induction false} LessIsByCase(x: Task, y: Task)
    ensures Less(x, y) <==> LessByCase(x, y)
    ensures IsNamespace(x) ==> !IsUnknown(x)
    ensures IsNamespace(y) ==> !IsUnknown(y)
  {
    hide Rank, Known, Before;
    RankOfNamespace(NAMESPACE);
    if !IsPrune(x) && !IsPrune(y) {
      RankOfNamespace(Kind(x));
      RankOfNamespace(Kind(y));
      UnknownRank(Kind(x));
      UnknownRank(Kind(y));
      if Known(Kind(x)) && Known(Kind(y)) && Rank(Kind(x)) == Rank(Kind(y)) { RankTells(Kind(x), Kind(y)); }
    }
  }

  lemma {:induction false} UnknownRank(kind: string)
    ensures !Known(kind) ==> Rank(kind) == 0
  {
  }

  /** A strict weak order on the tasks: asymmetric, and what is less than z is less than y or y is less than z. */
  ghost predicate StrictWeak(ts: seq<Task>) {
    && (forall x, y :: x in ts && y in ts && Less(x, y) ==> !Less(y, x))
    && (forall x, y, z :: x in ts && y in ts && z in ts && Less(x, z) ==> Less(x, y) || Less(y, z))
  }

  /** Two unknown kinds, the first before the second. */
  predicate Apart(u: Task, v: Task) {
    IsUnknown(u) && IsUnknown(v) && Before(Kind(u), Kind(v))
  }

  /** Namespaces and unknown kinds are told apart by their names: every namespace comes before every unknown kind if
      there is any other kind, and none separates unknown kinds the wrong way round. */
  ghost predicate NamesAgree(ts: seq<Task>) {
    && (forall n, u, k :: n in ts && u in ts && k in ts && IsNamespace(n) && IsUnknown(u) && IsOther(k) ==>
          Before(Name(n), Name(u)))
    && (forall n, u, v :: n in ts && u in ts && v in ts && IsNamespace(n) && Apart(u, v) ==>
          Before(Name(u), Name(n)) || Before(Name(n), Name(v)))
  }

  lemma {:induction false} LessAsymmetric(x: Task, y: Task)
    ensures Less(x, y) ==> !Less(y, x)
  {
    hide Less, Rank, Known, Before;
    LessIsByCase(x, y);
    LessIsByCase(y, x);
    if !IsPrune(x) && !IsPrune(y) {
      BeforeAsymmetric(Kind(x), Kind(y));
      BeforeAsymmetric(Name(x), Name(y));
    }
  }

  lemma {:induction false} LessSplits(ts: seq<Task>, x: Task, y: Task, z: Task)
    requires NamesAgree(ts) && x in ts && y in ts && z in ts && Less(x, z)
    ensures Less(x, y) || Less(y, z)
  {
    hide Less, Rank, Known, Before;
    LessIsByCase(x, z);
    LessIsByCase(x, y);
    LessIsByCase(y, z);
    if !IsPrune(x) && !IsPrune(y) && !IsPrune(z) {
      BeforeSplits(Name(x), Name(y), Name(z));
      BeforeSplits(Kind(x), Kind(y), Kind(z));
      BeforeTotal(Kind(x), Kind(y));
      BeforeTotal(Kind(y), Kind(z));
      BeforeAsymmetric(Name(x), Name(z));
      if IsOther(x) && IsOther(y) && Rank(Kind(x)) == Rank(Kind(y)) { RankTells(Kind(x), Kind(y)); }
      assert Apart(x, z) || Apart(y, x) || Apart(z, y) ==> IsUnknown(x) || IsUnknown(z);
    }
  }

  lemma {:induction false} AgreementNeeded(ts: seq<Task>)
    requires StrictWeak(ts)
    ensures NamesAgree(ts)
  {
    hide Less, Rank, Known, Before;
    forall n, u, k | n in ts && u in ts && k in ts && IsNamespace(n) && IsUnknown(u) && IsOther(k)
      ensures Before(Name(n), Name(u))
    {
      LessIsByCase(n, k);
      LessIsByCase(u, k);
      LessIsByCase(n, u);
    }
    forall n, u, v | n in ts && u in ts && v in ts && IsNamespace(n) && Apart(u, v)
      ensures Before(Name(u), Name(n)) || Before(Name(n), Name(v))
    {
      BeforeAsymmetric(Kind(u), Kind(v));
      LessIsByCase(u, v);
      LessIsByCase(u, n);
      LessIsByCase(n, v);
    }
  }

  /** The sort's order is a strict weak order on a list of tasks if and only if the names agree. */
  lemma {:induction false} OrderCondition(ts: seq<Task>)
    ensures StrictWeak(ts) <==> NamesAgree(ts)
  {
    hide Less;
    if NamesAgree(ts) {
      forall x, y | x in ts && y in ts && Less(x, y) ensures !Less(y, x) { LessAsymmetric(x, y); }
      forall x, y, z | x in ts && y in ts && z in ts && Less(x, z) ensures Less(x, y) || Less(y, z) {
        LessSplits(ts, x, y, z);
      }
    }
    if StrictWeak(ts) { AgreementNeeded(ts); }
  }

  /** No list that mixes namespaces with unknown kinds. */
  ghost predicate Unmixed(ts: seq<Task>) {
    forall n, u :: n in ts && u in ts ==> !IsNamespace(n) || !IsUnknown(u)
  }

  lemma {:induction false} UnmixedIsOrdered(ts: seq<Task>)
    requires Unmixed(ts)
    ensures StrictWeak(ts)
  {
    OrderCondition(ts);
  }

  function TaskOf(kind: string, name: string): Task {
    Task(None, Some(Object(ApiVersion("", "v1"), kind, name, "", map[], "", None, None)))
  }

  lemma {:induction false} Found(kinds: seq<string>, i: nat)
    requires i < |kinds|
    ensures IndexIn(kinds, kinds[i]).Some?
  {
    if i < |kinds| - 1 { Found(kinds[..|kinds| - 1], i); }
  }

  lemma {:induction false} WidgetIsUnknown()
    ensures !Known("Widget")
  {
    hide IndexIn;
    IndexInIs(RESOURCE_ORDER, "Widget");
    assert forall i :: 0 <= i < |RESOURCE_ORDER| ==> RESOURCE_ORDER[i] != "" && RESOURCE_ORDER[i][0] != 'W';
  }

  /** A namespace, a secret and a custom resource that the order puts in a circle. */
  lemma {:induction false} MixedCircle()
    ensures Less(TaskOf("Widget", "a"), TaskOf(NAMESPACE, "b")) && Less(TaskOf(NAMESPACE, "b"), TaskOf("Secret", "s"))
    ensures Less(TaskOf("Secret", "s"), TaskOf("Widget", "a"))
  {
    hide Less, Rank, IndexIn;
    Found(RESOURCE_ORDER, 4);
    WidgetIsUnknown();
    var w, n, s := TaskOf("Widget", "a"), TaskOf(NAMESPACE, "b"), TaskOf("Secret", "s");
    LessIsByCase(w, n);
    LessIsByCase(n, s);
    LessIsByCase(s, w);
  }

  // ---------------------------------------------------------------------------------------------
  // Sorted tasks
  // ---------------------------------------------------------------------------------------------

  /** What a sort by this order promises. */
  ghost predicate Sorted(ts: seq<Task>) {
    forall i, j :: 0 <= i < j < |ts| ==> !Less(ts[j], ts[i])
  }

  /** The order of the kinds: known ones by rank, then the unknown ones alphabetically. */
  predicate KindBefore(a: string, b: string) {
    if Known(a) && Known(b) then Rank(a) < Rank(b)
    else if Known(a) || Known(b) then Known(a)
    else Before(a, b)
  }

  ghost predicate InKindOrder(os: seq<Object>) {
    forall i, j :: 0 <= i < j < |os| ==> os[i].kind == os[j].kind || KindBefore(os[i].kind, os[j].kind)
  }

  lemma {:induction false} KindBeforeAsymmetric(a: string, b: string)
    ensures KindBefore(a, b) ==> !KindBefore(b, a)
  {
    BeforeAsymmetric(a, b);
  }

  lemma {:induction false} SortedPair(x: Task, y: Task)
    requires !Less(y, x) && !(IsNamespace(x) && IsUnknown(y)) && !(IsNamespace(y) && IsUnknown(x))
    ensures IsPrune(x) ==> IsPrune(y)
    ensures !IsPrune(x) && !IsPrune(y) ==> Kind(x) == Kind(y) || KindBefore(Kind(x), Kind(y))
  {
    hide Less, Rank, Known, Before;
    LessIsByCase(y, x);
    if !IsPrune(x) && !IsPrune(y) {
      RankOfNamespace(Kind(x));
      RankOfNamespace(Kind(y));
      BeforeTotal(Kind(x), Kind(y));
      if Known(Kind(x)) && Known(Kind(y)) && Rank(Kind(x)) == Rank(Kind(y)) { RankTells(Kind(x), Kind(y)); }
    }
  }

  /** Where the i-th target stands among the tasks. */
  function Place(ts: seq<Task>, i: nat): (p: nat)
    requires i < |Targets(ts)|
    ensures p < |ts| && ts[p].target == Some(Targets(ts)[i])
  {
    var n := |ts| - 1;
    if ts[n].target.Some? && i == |Targets(ts)| - 1 then n else Place(ts[..n], i)
  }

  lemma {:induction false} PlacesInOrder(ts: seq<Task>, i: nat, j: nat)
    requires i < j < |Targets(ts)|
    ensures Place(ts, i) < Place(ts, j)
  {
    var n := |ts| - 1;
    if !(ts[n].target.Some? && j == |Targets(ts)| - 1) { PlacesInOrder(ts[..n], i, j); }
  }

  lemma {:induction false} SortedTargets(ts: seq<Task>)
    requires Sorted(ts) && Unmixed(ts)
    ensures InKindOrder(Targets(ts))
    ensures forall i, j :: 0 <= i < j < |ts| && IsPrune(ts[i]) ==> IsPrune(ts[j])
  {
    hide Less, KindBefore, Known;
    var os := Targets(ts);
    forall i, j | 0 <= i < j < |os| ensures os[i].kind == os[j].kind || KindBefore(os[i].kind, os[j].kind) {
      PlacesInOrder(ts, i, j);
      SortedPair(ts[Place(ts, i)], ts[Place(ts, j)]);
    }
    forall i, j | 0 <= i < j < |ts| && IsPrune(ts[i]) ensures IsPrune(ts[j]) {
      SortedPair(ts[i], ts[j]);
    }
  }

  ghost predicate GroupsInOrder(groups: seq<seq<Object>>)
    requires KindGroups(groups)
  {
    forall g, h :: 0 <= g < h < |groups| ==> KindBefore(groups[g][0].kind, groups[h][0].kind)
  }

  /** One more target in kind order joins the last group or starts a later one. */
  lemma {:induction false} JoinInOrder(groups: seq<seq<Object>>, os: seq<Object>, o: Object)
    requires KindGroups(groups) && GroupsInOrder(groups) && Flatten(groups) == os && InKindOrder(os + [o])
    ensures KindGroups(Join(groups, o)) && GroupsInOrder(Join(groups, o))
  {
    hide KindBefore;
    JoinKeepsGroups(groups, o);
    var joined, n := Join(groups, o), |groups| - 1;
    if n >= 0 && |joined| > |groups| {
      var last := groups[n];
      assert os[|os| - 1] == last[|last| - 1];
      assert (os + [o])[|os|] == o && (os + [o])[|os| - 1] == os[|os| - 1];
      assert KindBefore(last[0].kind, o.kind);
      forall g | 0 <= g < n ensures KindBefore(groups[g][0].kind, o.kind) {
        var p := FlattenPlace(groups, g);
        assert (os + [o])[p] == groups[g][0];
        KindBeforeAsymmetric(last[0].kind, o.kind);
      }
    }
  }

  lemma {:induction false} FlattenPlace(groups: seq<seq<Object>>, g: nat) returns (p: nat)
    requires g < |groups| && groups[g] != []
    ensures p < |Flatten(groups)| && Flatten(groups)[p] == groups[g][0]
  {
    var n := |groups| - 1;
    if g == n {
      p := |Flatten(groups[..n])|;
    } else {
      p := FlattenPlace(groups[..n], g);
    }
  }

  lemma {:induction false} GroupsFollow(os: seq<Object>)
    requires InKindOrder(os)
    ensures KindGroups(Groups(os)) && GroupsInOrder(Groups(os))
  {
    hide KindBefore;
    if os != [] {
      var n := |os| - 1;
      assert os == os[..n] + [os[n]];
      GroupsFollow(os[..n]);
      GroupsPartition(os[..n]);
      JoinInOrder(Groups(os[..n]), os[..n], os[n]);
    }
  }

  /** Sorted tasks without a mix of namespaces and unknown kinds are applied in one group per kind, in the order of
      the kinds, and the prunes come last in the list. */
  lemma {:induction false} OneGroupPerKind(ts: seq<Task>)
    requires Sorted(ts) && Unmixed(ts)
    ensures KindGroups(Groups(Targets(ts))) && GroupsInOrder(Groups(Targets(ts)))
    ensures forall g, h :: 0 <= g < h < |Groups(Targets(ts))| ==>
              Groups(Targets(ts))[g][0].kind != Groups(Targets(ts))[h][0].kind
    ensures forall i, j :: 0 <= i < j < |ts| && IsPrune(ts[i]) ==> IsPrune(ts[j])
  {
    hide KindBefore, Sorted, Unmixed;
    SortedTargets(ts);
    GroupsFollow(Targets(ts));
    var groups: seq<seq<Object>> := Groups(Targets(ts));
    forall g, h | 0 <= g < h < |groups| ensures groups[g][0].kind != groups[h][0].kind {
      KindBeforeAsymmetric(groups[g][0].kind, groups[h][0].kind);
    }
  }

  // ---------------------------------------------------------------------------------------------
  // A strict weak order can be sorted by
  // ---------------------------------------------------------------------------------------------

  function Insert(ts: seq<Task>, x: Task): seq<Task> {
    var n := |ts| - 1;
    if ts == [] || !Less(x, ts[n]) then ts + [x] else Insert(ts[..n], x) + [ts[n]]
  }

  function Sort(ts: seq<Task>): seq<Task> {
    if ts == [] then [] else Insert(Sort(ts[..|ts| - 1]), ts[|ts| - 1])
  }

  lemma {:induction false} InsertKeeps(ts: seq<Task>, x: Task)
    ensures multiset(Insert(ts, x)) == multiset(ts) + multiset{x}
  {
    hide Less;
    var n := |ts| - 1;
    if ts != [] && Less(x, ts[n]) {
      InsertKeeps(ts[..n], x);
      assert ts == ts[..n] + [ts[n]];
    }
  }

  lemma {:induction false} InsertSorts(all: seq<Task>, ts: seq<Task>, x: Task)
    requires StrictWeak(all) && x in all && (forall i :: 0 <= i < |ts| ==> ts[i] in all) && Sorted(ts)
    ensures Sorted(Insert(ts, x))
  {
    hide Less;
    var n := |ts| - 1;
    if ts != [] && Less(x, ts[n]) {
      var front, r := Insert(ts[..n], x), Insert(ts, x);
      InsertSorts(all, ts[..n], x);
      InsertKeeps(ts[..n], x);
      forall i | 0 <= i < |front| ensures !Less(ts[n], front[i]) {
        assert front[i] in multiset(front);
        if front[i] != x { assert front[i] in ts[..n]; }
      }
    } else if ts != [] {
      forall i | 0 <= i < |ts| ensures !Less(x, ts[i]) {
        assert i < n ==> !Less(ts[n], ts[i]);
      }
    }
  }

  lemma {:induction false} SortKeeps(ts: seq<Task>)
    ensures multiset(Sort(ts)) == multiset(ts)
  {
    hide Less, Insert;
    if ts != [] {
      var n := |ts| - 1;
      SortKeeps(ts[..n]);
      InsertKeeps(Sort(ts[..n]), ts[n]);
      assert ts == ts[..n] + [ts[n]];
    }
  }

  lemma {:induction false} MembersKept(all: seq<Task>, ts: seq<Task>, r: seq<Task>)
    requires multiset(r) == multiset(ts) && forall i :: 0 <= i < |ts| ==> ts[i] in all
    ensures forall i :: 0 <= i < |r| ==> r[i] in all
  {
    forall i | 0 <= i < |r| ensures r[i] in all {
      assert r[i] in multiset(r);
      assert r[i] in ts;
    }
  }

  /** Every list of tasks on which the order is strict weak has a sorted arrangement. */
  lemma {:induction false} Sortable(all: seq<Task>, ts: seq<Task>)
    requires StrictWeak(all) && forall i :: 0 <= i < |ts| ==> ts[i] in all
    ensures Sorted(Sort(ts)) && multiset(Sort(ts)) == multiset(ts)
  {
    hide Less, Insert, StrictWeak;
    SortKeeps(ts);
    if ts != [] {
      hide Sorted;
      var n := |ts| - 1;
      Sortable(all, ts[..n]);
      MembersKept(all, ts[..n], Sort(ts[..n]));
      InsertSorts(all, Sort(ts[..n]), ts[n]);
    }
  }
}
