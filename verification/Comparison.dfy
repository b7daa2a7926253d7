/** The comparison of the targets with the live objects: deduplication, pairing, and one tree of children for each
    listed resource. */
module Comparison {
  import opened Kube
  import opened Ownership
  import opened SyncState
  import opened ApplySync

  /** The answer to a direct look-up of a target in the cluster. */
  datatype Found = Live(obj: Object) | Absent | Broken

  datatype Status = InSync | OutOfSync | Unknown

  /** The comparison result: for every listed resource its target, its live object, whether the two agree, and the
      trees of its children. */
  datatype Result = Result(
    targets: seq<Option<Object>>,
    lives: seq<Option<Object>>,
    synced: seq<bool>,
    children: seq<seq<Node>>,
    status: Status)

  // ---------------------------------------------------------------------------------------------
  // One live object for each full name
  // ---------------------------------------------------------------------------------------------

  function ByName(os: seq<Object>, name: string): seq<Object> {
    if os == [] then []
    else
      var before, o := ByName(os[..|os| - 1], name), os[|os| - 1];
      if FullName(o) == name then before + [o] else before
  }

  function FirstOf(list: seq<Object>, api: ApiVersion): Option<Object> {
    if list == [] then None else if list[0].api == api then Some(list[0]) else FirstOf(list[1..], api)
  }

  /** The live object for a name: of the version of the target with that name if there is one, else any. */
  function Chosen(lives: seq<Object>, targets: seq<Object>, name: string): Option<Object> {
    var list, wanted := ByName(lives, name), ByName(targets, name);
    if wanted != [] then FirstOf(list, wanted[|wanted| - 1].api)
    else if list == [] then None
    else Some(list[0])
  }

  function NamesOf(os: seq<Object>): set<string> {
    set i | 0 <= i < |os| :: FullName(os[i])
  }

  function Grouped(lives: seq<Object>, targets: seq<Object>): LiveMap {
    map k | k in NamesOf(lives) && Chosen(lives, targets, k).Some? :: Chosen(lives, targets, k).value
  }

  lemma {:induction false} ByNameMembers(os: seq<Object>, name: string)
    ensures forall o :: o in ByName(os, name) <==> o in os && FullName(o) == name
    ensures ByName(os, name) != [] <==> name in NamesOf(os)
  {
    hide FullName;
    if os != [] {
      var n := |os| - 1;
      ByNameMembers(os[..n], name);
      assert os == os[..n] + [os[n]];
      assert forall i :: 0 <= i < n ==> os[..n][i] == os[i];
      if ByName(os, name) != [] {
        if FullName(os[n]) != name {
          assert name in NamesOf(os[..n]);
        }
      } else {
        assert name !in NamesOf(os[..n]);
      }
    }
  }

  lemma {:induction false} FirstOfMeaning(list: seq<Object>, api: ApiVersion)
    ensures match FirstOf(list, api)
            case Some(o) => o in list && o.api == api
            case None => forall o :: o in list ==> o.api != api
  {
    if list != [] { FirstOfMeaning(list[1..], api); }
  }

  /** What deduplication keeps: a live object of that name; with the version of the target of that name, if there is
      a target; and it drops a name only if there is no such object. */
  lemma {:induction false} ChosenMeaning(lives: seq<Object>, targets: seq<Object>, name: string)
    ensures var wanted := ByName(targets, name);
            match Chosen(lives, targets, name)
            case Some(o) => o in lives && FullName(o) == name && (wanted != [] ==> o.api == wanted[|wanted| - 1].api)
            case None =>
              forall o :: o in lives && FullName(o) == name ==> wanted != [] && o.api != wanted[|wanted| - 1].api
  {
    hide FullName, ByName, FirstOf;
    ByNameMembers(lives, name);
    var wanted := ByName(targets, name);
    if wanted != [] { FirstOfMeaning(ByName(lives, name), wanted[|wanted| - 1].api); }
  }

  lemma {:induction false} GroupedKeyed(lives: seq<Object>, targets: seq<Object>)
    ensures FiledByName(Grouped(lives, targets))
  {
    hide FullName, Chosen;
    forall k | k in Grouped(lives, targets) ensures FullName(Grouped(lives, targets)[k]) == k {
      ChosenMeaning(lives, targets, k);
    }
  }

  /** The lists that the loops of the grouping build, by name. */
  ghost predicate ListsOf(os: seq<Object>, lists: map<string, seq<Object>>) {
    lists.Keys == NamesOf(os) && forall k :: k in lists ==> lists[k] == ByName(os, k)
  }

  lemma {:induction false} NamesOfSnoc(os: seq<Object>, i: nat)
    requires i < |os|
    ensures NamesOf(os[..i + 1]) == NamesOf(os[..i]) + {FullName(os[i])}
  {
  }

  lemma {:induction false} ByNameSnoc(os: seq<Object>, i: nat, k: string)
    requires i < |os|
    ensures ByName(os[..i + 1], k) == ByName(os[..i], k) + (if FullName(os[i]) == k then [os[i]] else [])
  {
    hide FullName;
    assert os[..i + 1][..i] == os[..i];
  }

  method FirstWithVersion(list: seq<Object>, api: ApiVersion) returns (r: Option<Object>)
    ensures r == FirstOf(list, api)
  {
    assert list[0..] == list;
    for i := 0 to |list|
      invariant FirstOf(list, api) == FirstOf(list[i..], api)
    {
      if list[i].api == api {
        return Some(list[i]);
      }
      assert list[i..][1..] == list[i + 1..];
    }
    return None;
  }

  method ListByName(os: seq<Object>) returns (lists: map<string, seq<Object>>)
    ensures ListsOf(os, lists)
  {
    hide FullName, ByName;
    lists := map[];
    for i := 0 to |os|
      invariant ListsOf(os[..i], lists)
    {
      var k := FullName(os[i]);
      var list := if k in lists then lists[k] else [];
      ByNameMembers(os[..i], k);
      ghost var before := lists;
      lists := lists[k := list + [os[i]]];
      NamesOfSnoc(os, i);
      forall j | j in lists ensures lists[j] == ByName(os[..i + 1], j) {
        ByNameSnoc(os, i, j);
      }
    }
    assert os[..|os|] == os;
  }

  method IndexByName(os: seq<Object>) returns (index: map<string, Object>)
    ensures index.Keys == NamesOf(os)
    ensures forall k :: k in index ==> ByName(os, k) != [] && index[k] == ByName(os, k)[|ByName(os, k)| - 1]
  {
    hide FullName, ByName;
    index := map[];
    for i := 0 to |os|
      invariant index.Keys == NamesOf(os[..i])
      invariant forall k :: k in index ==>
        var list := ByName(os[..i], k); list != [] && index[k] == list[|list| - 1]
    {
      index := index[FullName(os[i]) := os[i]];
      NamesOfSnoc(os, i);
      forall k | k in index ensures var list := ByName(os[..i + 1], k); list != [] && index[k] == list[|list| - 1] {
        ByNameSnoc(os, i, k);
      }
    }
    assert os[..|os|] == os;
  }

  method GroupLiveObjects(lives: seq<Object>, targets: seq<Object>) returns (m: LiveMap)
    ensures m == Grouped(lives, targets)
  {
    hide FullName, ByName, FirstOf, NamesOf;
    var wanted := IndexByName(targets);
    var lists := ListByName(lives);
    m := map[];
    var todo := lists.Keys;
    while todo != {}
      invariant todo <= lists.Keys
      invariant forall k :: k in m <==> k in lists && k !in todo && Chosen(lives, targets, k).Some?
      invariant forall k :: k in m ==> m[k] == Chosen(lives, targets, k).value
    {
      var name :| name in todo;
      todo := todo - {name};
      ByNameMembers(lives, name);
      ByNameMembers(targets, name);
      var live: Option<Object> := None;
      if name in wanted {
        live := FirstWithVersion(lists[name], wanted[name].api);
      } else {
        live := Some(lists[name][0]);
      }
      if live.Some? {
        ChosenMeaning(lives, targets, name);
        m := m[FullName(live.value) := live.value];
      }
    }
  }

  // ---------------------------------------------------------------------------------------------
  // Pairing with the targets
  // ---------------------------------------------------------------------------------------------

  predicate FirstOfItsName(targets: seq<Object>, i: nat)
    requires i < |targets|
  {
    FullName(targets[i]) !in NamesOf(targets[..i])
  }

  predicate Grouping(m: LiveMap, targets: seq<Object>, i: nat)
    requires i < |targets|
  {
    FirstOfItsName(targets, i) && FullName(targets[i]) in m
  }

  /** The live object of a target: the grouped one goes to the first target of its name, and for the others the
      cluster is asked by name. */
  function Paired(m: LiveMap, targets: seq<Object>, lookup: Object -> Found, i: nat): Option<Object>
    requires i < |targets|
  {
    if Grouping(m, targets, i) then Some(m[FullName(targets[i])])
    else if targets[i].name != "" && lookup(targets[i]).Live? then Some(lookup(targets[i]).obj)
    else None
  }

  predicate Fails(m: LiveMap, targets: seq<Object>, lookup: Object -> Found, i: nat)
    requires i < |targets|
  {
    !Grouping(m, targets, i) && targets[i].name != "" && lookup(targets[i]).Broken?
  }

  /** Pairs the targets with live objects and takes the names of the targets out of the map. */
  method PairLiveObjects(targets: seq<Object>, live: LiveObjects, lookup: Object -> Found)
    returns (r: Option<seq<Option<Object>>>)
    modifies live
    ensures r.None? <==> exists i :: 0 <= i < |targets| && Fails(old(live.m), targets, lookup, i)
    ensures r.Some? ==>
      && |r.value| == |targets| && live.m == old(live.m) - NamesOf(targets)
      && forall i :: 0 <= i < |targets| ==> r.value[i] == Paired(old(live.m), targets, lookup, i)
  {
    hide FullName, NamesOf;
    var paired: seq<Option<Object>> := [];
    EmptyNames(targets);
    for i := 0 to |targets|
      invariant |paired| == i && live.m == old(live.m) - NamesOf(targets[..i])
      invariant forall j :: 0 <= j < i ==> paired[j] == Paired(old(live.m), targets, lookup, j)
      invariant forall j :: 0 <= j < i ==> !Fails(old(live.m), targets, lookup, j)
    {
      var t := targets[i];
      var name := FullName(t);
      var obj := if name in live.m then Some(live.m[name]) else None;
      if obj.None? && t.name != "" {
        match lookup(t)
        case Live(o) => obj := Some(o);
        case Absent =>
        case Broken =>
          assert Fails(old(live.m), targets, lookup, i);
          return None;
      }
      paired := paired + [obj];
      live.m := live.m - {name};
      NamesOfSnoc(targets, i);
    }
    assert targets[..|targets|] == targets;
    r := Some(paired);
  }

  lemma {:induction false} EmptyNames(targets: seq<Object>)
    ensures NamesOf(targets[..0]) == {}
  {
  }

  // ---------------------------------------------------------------------------------------------
  // Top-level resources without a target, and the trees
  // ---------------------------------------------------------------------------------------------

  function ObjectNames(os: seq<Object>): seq<string> {
    seq(|os|, i requires 0 <= i < |os| => FullName(os[i]))
  }

  function RootKeys(m: LiveMap): set<string> {
    set k | k in m && !HasParent(m[k])
  }

  /** The live objects that no one owns, in some order. */
  method RootObjects(m: LiveMap) returns (roots: seq<Object>)
    requires FiledByName(m)
    ensures Lists(ObjectNames(roots), RootKeys(m))
    ensures forall i :: 0 <= i < |roots| ==> FullName(roots[i]) in m && m[FullName(roots[i])] == roots[i]
  {
    hide FullName, Lists, HasParent;
    roots := [];
    var todo := m.Keys;
    NoRoots(m);
    while todo != {}
      invariant todo <= m.Keys
      invariant Lists(ObjectNames(roots), RootKeys(m) - todo)
      invariant forall i :: 0 <= i < |roots| ==> FullName(roots[i]) in m && m[FullName(roots[i])] == roots[i]
    {
      var k :| k in todo;
      ghost var before := RootKeys(m) - todo;
      todo := todo - {k};
      if !HasParent(m[k]) {
        SingletonLists(k);
        ListsAppend(ObjectNames(roots), before, [k], {k});
        assert ObjectNames(roots + [m[k]]) == ObjectNames(roots) + [k];
        assert before + {k} == RootKeys(m) - todo;
        roots := roots + [m[k]];
      } else {
        assert before == RootKeys(m) - todo;
      }
    }
    assert RootKeys(m) - todo == RootKeys(m);
  }

  lemma {:induction false} NoRoots(m: LiveMap)
    ensures Lists(ObjectNames([]), RootKeys(m) - m.Keys)
  {
  }

  function TreeNames(trees: seq<seq<Node>>): seq<string> {
    if trees == [] then [] else TreeNames(trees[..|trees| - 1]) + Names(trees[|trees| - 1])
  }

  ghost predicate IsBelow(m: LiveMap, lives: seq<Option<Object>>, k: string) {
    exists i :: 0 <= i < |lives| && lives[i].Some? && Descends(m, lives[i].value, k)
  }

  /** The trees so far, for the resources so far: they hold what was taken out, and nothing left belongs below. */
  ghost predicate GrownFor(before: LiveMap, after: LiveMap, lives: seq<Option<Object>>, trees: seq<seq<Node>>) {
    && |trees| <= |lives| && Rest(before, after) && Lists(TreeNames(trees), before.Keys - after.Keys)
    && forall i :: 0 <= i < |trees| ==>
         if lives[i].None? then trees[i] == []
         else Grown(before, lives[i].value, trees[i]) && NoneControlled(after, lives[i].value)
  }

  lemma {:induction false} RestTransitive(a: LiveMap, b: LiveMap, c: LiveMap)
    requires Rest(a, b) && Rest(b, c)
    ensures Rest(a, c)
  {
  }

  lemma {:induction false} GrowOne(before: LiveMap, mid: LiveMap, after: LiveMap, lives: seq<Option<Object>>,
                                   trees: seq<seq<Node>>, tree: seq<Node>)
    requires GrownFor(before, mid, lives, trees) && |trees| < |lives| && lives[|trees|].Some?
    requires Taken(mid, after, lives[|trees|].value, tree) && NoneControlled(after, lives[|trees|].value)
    ensures GrownFor(before, after, lives, trees + [tree])
  {
    hide IsControlledBy, Lists, Names;
    var n := |trees|;
    RestTransitive(before, mid, after);
    GrownMonotone(mid, before, lives[n].value, tree);
    ListsAppend(TreeNames(trees), before.Keys - mid.Keys, Names(tree), mid.Keys - after.Keys);
    assert before.Keys - after.Keys == (before.Keys - mid.Keys) + (mid.Keys - after.Keys);
    assert (trees + [tree])[..n] == trees;
  }

  lemma {:induction false} GrowNone(before: LiveMap, m: LiveMap, lives: seq<Option<Object>>, trees: seq<seq<Node>>)
    requires GrownFor(before, m, lives, trees) && |trees| < |lives| && lives[|trees|].None?
    ensures GrownFor(before, m, lives, trees + [[]])
  {
  }

  lemma {:induction false} TreeNamesMember(trees: seq<seq<Node>>, k: string) returns (i: nat)
    requires k in TreeNames(trees)
    ensures i < |trees| && k in Names(trees[i]) && trees[i] != []
  {
    i := |trees| - 1;
    if k !in Names(trees[i]) {
      i := TreeNamesMember(trees[..i], k);
    }
  }

  /** Exactly the objects below a listed resource are gone. */
  lemma {:induction false} GoneIsBelow(before: LiveMap, after: LiveMap, lives: seq<Option<Object>>,
                                       trees: seq<seq<Node>>, k: string)
    requires GrownFor(before, after, lives, trees) && |trees| == |lives| && k in before
    ensures k !in after <==> IsBelow(before, lives, k)
  {
    hide IsControlledBy, Names;
    if k !in after {
      assert k in multiset(before.Keys - after.Keys);
      assert k in TreeNames(trees);
      var i := TreeNamesMember(trees, k);
      GrownDescends(before, lives[i].value, trees[i], k);
    } else if IsBelow(before, lives, k) {
      var i :| 0 <= i < |lives| && lives[i].Some? && Descends(before, lives[i].value, k);
      var ks :| ChainTo(before, lives[i].value, ks, k);
      ChainStaysOut(before, after, lives[i].value, ks, |ks| - 1);
    }
  }

  /** One tree of children for every listed resource, each object being a node of at most one of them. */
  method GrowTrees(lives: seq<Option<Object>>, live: LiveObjects) returns (trees: seq<seq<Node>>)
    requires FiledByName(live.m)
    modifies live
    ensures |trees| == |lives| && GrownFor(old(live.m), live.m, lives, trees)
  {
    hide GrownFor, FiledByName;
    trees := [];
    NothingGrown(live.m, lives);
    for i := 0 to |lives|
      invariant FiledByName(live.m) && |trees| == i && GrownFor(old(live.m), live.m, lives, trees)
    {
      ghost var mid := live.m;
      if lives[i].Some? {
        var tree := live.GetChildren(lives[i].value);
        GrowOne(old(live.m), mid, live.m, lives, trees, tree);
        trees := trees + [tree];
      } else {
        GrowNone(old(live.m), mid, lives, trees);
        trees := trees + [[]];
      }
    }
  }

  lemma {:induction false} NothingGrown(m: LiveMap, lives: seq<Option<Object>>)
    ensures GrownFor(m, m, lives, [])
  {
  }

  // ---------------------------------------------------------------------------------------------
  // The comparison
  // ---------------------------------------------------------------------------------------------

  function NonHooks(os: seq<Object>): seq<Object> {
    if os == [] then []
    else
      var before, o := NonHooks(os[..|os| - 1]), os[|os| - 1];
      if IsHook(o) then before else before + [o]
  }

  method SkipHooks(os: seq<Object>) returns (r: seq<Object>)
    ensures r == NonHooks(os)
  {
    hide IsHook;
    r := [];
    for i := 0 to |os|
      invariant r == NonHooks(os[..i])
    {
      assert os[..i + 1][..i] == os[..i];
      if !IsHook(os[i]) {
        r := r + [os[i]];
      }
    }
    assert os[..|os|] == os;
  }

  function OrEmpty(os: Option<seq<Object>>): seq<Object> {
    if os.Some? then NonHooks(os.value) else []
  }

  function Somes(os: seq<Object>): seq<Option<Object>> {
    seq(|os|, i requires 0 <= i < |os| => Some(os[i]))
  }

  function Nones(n: nat): seq<Option<Object>> {
    seq(n, _ => None)
  }

  /** The names of the top-level resources without a target: those listed after the n targets. */
  function RootNames(r: Result, n: nat): seq<string>
    requires n <= |r.lives|
  {
    seq(|r.lives| - n, i requires 0 <= i < |r.lives| - n =>
      if r.lives[n + i].Some? then FullName(r.lives[n + i].value) else "")
  }

  /** What becomes of the live object that grouping has kept for a name. If a target has that name, it is the live
      object of such a target and occurs nowhere else. If nobody owns it, it is exactly one top-level resource and no
      node. Otherwise it is no top-level resource, and exactly one node if an owner chain leads to it from a listed
      resource, none if not. */
  ghost predicate ConservedAt(grouped: LiveMap, targets: seq<Object>, r: Result, k: string)
    requires k in grouped && |targets| <= |r.lives|
  {
    var roots, nodes := multiset(RootNames(r, |targets|))[k], multiset(TreeNames(r.children))[k];
    if k in NamesOf(targets) then
      && roots == 0 && nodes == 0
      && exists i :: 0 <= i < |targets| && FullName(targets[i]) == k && r.lives[i] == Some(grouped[k])
    else if !HasParent(grouped[k]) then roots == 1 && nodes == 0
    else roots == 0 && nodes == if IsBelow(grouped - NamesOf(targets), r.lives, k) then 1 else 0
  }

  /** Every live object has its one place, and no place holds anything else. */
  ghost predicate Conserved(grouped: LiveMap, targets: seq<Object>, r: Result) {
    && |targets| <= |r.lives|
    && (forall k :: k in grouped ==> ConservedAt(grouped, targets, r, k))
    && (forall k :: k in RootNames(r, |targets|) || k in TreeNames(r.children) ==> k in grouped)
    && (forall i :: |targets| <= i < |r.lives| ==> r.lives[i].Some? && r.lives[i].value in grouped.Values)
  }

  lemma {:induction false} ChildHasParent(m: LiveMap, lives: seq<Option<Object>>, k: string)
    requires IsBelow(m, lives, k)
    ensures k in m && HasParent(m[k])
  {
    var i :| 0 <= i < |lives| && lives[i].Some? && Descends(m, lives[i].value, k);
    var ks :| ChainTo(m, lives[i].value, ks, k);
    assert |ks| > 1 ==> IsControlledBy(m[ks[|ks| - 1]], m[ks[|ks| - 2]]);
  }

  lemma {:induction false} FirstTarget(targets: seq<Object>, k: string) returns (i: nat)
    requires k in NamesOf(targets)
    ensures i < |targets| && FullName(targets[i]) == k && FirstOfItsName(targets, i)
  {
    hide FullName;
    var j :| 0 <= j < |targets| && FullName(targets[j]) == k;
    i := j;
    if !FirstOfItsName(targets, j) {
      i := FirstTarget(targets[..j], k);
      assert targets[..j][..i] == targets[..i];
    }
  }

  lemma {:induction false} Conservation(grouped: LiveMap, targets: seq<Object>, lookup: Object -> Found,
                                        roots: seq<Object>, after: LiveMap, r: Result)
    requires var rest := grouped - NamesOf(targets);
             && |targets| <= |r.lives| && r.lives[|targets|..] == Somes(roots)
             && (forall i :: 0 <= i < |targets| ==> r.lives[i] == Paired(grouped, targets, lookup, i))
             && Lists(ObjectNames(roots), RootKeys(rest))
             && (forall i :: 0 <= i < |roots| ==> FullName(roots[i]) in rest && rest[FullName(roots[i])] == roots[i])
             && GrownFor(rest, after, r.lives, r.children) && |r.children| == |r.lives|
    ensures Conserved(grouped, targets, r)
  {
    hide FullName, HasParent, NamesOf, GrownFor, Lists, Paired, RootKeys, RootNames, ConservedAt;
    var rest := grouped - NamesOf(targets);
    RootsListed(rest, roots, r, |targets|);
    forall k | k in grouped ensures ConservedAt(grouped, targets, r, k) {
      PlaceOf(grouped, targets, lookup, after, r, k);
    }
    GrownNames(rest, after, r.lives, r.children);
    assert rest.Values <= grouped.Values by { SubmapValues(grouped, NamesOf(targets)); }
  }

  lemma {:induction false} SubmapValues(m: LiveMap, keys: set<string>)
    ensures (m - keys).Values <= m.Values
  {
  }

  lemma {:induction false} RootsListed(rest: LiveMap, roots: seq<Object>, r: Result, n: nat)
    requires n <= |r.lives| && r.lives[n..] == Somes(roots)
    requires forall i :: 0 <= i < |roots| ==> FullName(roots[i]) in rest && rest[FullName(roots[i])] == roots[i]
    ensures RootNames(r, n) == ObjectNames(roots)
    ensures forall k :: k in RootNames(r, n) ==> k in rest
    ensures forall i :: n <= i < |r.lives| ==> r.lives[i].Some? && r.lives[i].value in rest.Values
  {
  }

  lemma {:induction false} GrownNames(before: LiveMap, after: LiveMap, lives: seq<Option<Object>>,
                                      trees: seq<seq<Node>>)
    requires GrownFor(before, after, lives, trees)
    ensures forall k :: multiset(TreeNames(trees))[k] == if k in before && k !in after then 1 else 0
    ensures forall k :: k in TreeNames(trees) ==> k in before
  {
  }

  lemma {:induction false} PlaceOf(grouped: LiveMap, targets: seq<Object>, lookup: Object -> Found, after: LiveMap,
                                   r: Result, k: string)
    requires var rest := grouped - NamesOf(targets);
             && k in grouped && |targets| <= |r.lives|
             && (forall i :: 0 <= i < |targets| ==> r.lives[i] == Paired(grouped, targets, lookup, i))
             && Lists(RootNames(r, |targets|), RootKeys(rest))
             && GrownFor(rest, after, r.lives, r.children) && |r.children| == |r.lives|
    ensures ConservedAt(grouped, targets, r, k)
  {
    hide FullName, HasParent, NamesOf, GrownFor;
    var rest := grouped - NamesOf(targets);
    GrownNames(rest, after, r.lives, r.children);
    if k in NamesOf(targets) {
      var i := FirstTarget(targets, k);
      assert r.lives[i] == Some(grouped[k]);
    } else {
      GoneIsBelow(rest, after, r.lives, r.children, k);
      if !HasParent(grouped[k]) && IsBelow(rest, r.lives, k) { ChildHasParent(rest, r.lives, k); }
    }
  }

  ghost predicate LookupFails(grouped: LiveMap, targets: seq<Object>, lookup: Object -> Found) {
    exists i :: 0 <= i < |targets| && Fails(grouped, targets, lookup, i)
  }

  /** The live objects paired with the targets, and the remaining ones. */
  method GetLiveObjs(labeled: seq<Object>, targets: seq<Object>, lookup: Object -> Found)
    returns (r: Option<seq<Option<Object>>>, live: LiveObjects)
    ensures fresh(live)
    ensures var grouped := Grouped(NonHooks(labeled), targets);
            && (r.None? <==> LookupFails(grouped, targets, lookup))
            && (r.Some? ==>
                  && |r.value| == |targets|
                  && live.m == grouped - NamesOf(targets) && FiledByName(live.m)
                  && forall i :: 0 <= i < |targets| ==> r.value[i] == Paired(grouped, targets, lookup, i))
  {
    hide FullName, NamesOf, Paired, Fails, Grouped;
    var objects := SkipHooks(labeled);
    var grouped := GroupLiveObjects(objects, targets);
    GroupedKeyed(objects, targets);
    live := new LiveObjects(grouped);
    r := PairLiveObjects(targets, live, lookup);
  }

  /** Whether each listed resource agrees, and the status of the whole. */
  method Assess(targets: seq<Option<Object>>, lives: seq<Option<Object>>,
                modified: (Option<Object>, Option<Object>) -> bool) returns (synced: seq<bool>, status: Status)
    requires |targets| == |lives|
    ensures |synced| == |targets|
    ensures forall i :: 0 <= i < |synced| ==>
      (synced[i] <==> targets[i].Some? && lives[i].Some? && !modified(targets[i], lives[i]))
    ensures status == if forall i :: 0 <= i < |synced| ==> synced[i] then InSync else OutOfSync
  {
    synced, status := [], InSync;
    for i := 0 to |targets|
      invariant |synced| == i
      invariant forall j :: 0 <= j < i ==>
        (synced[j] <==> targets[j].Some? && lives[j].Some? && !modified(targets[j], lives[j]))
      invariant status == if forall j :: 0 <= j < i ==> synced[j] then InSync else OutOfSync
    {
      var ok := !modified(targets[i], lives[i]);
      if !ok { status := OutOfSync; }
      if targets[i].None? { ok, status := false, OutOfSync; }
      if lives[i].None? { ok, status := false, OutOfSync; }
      synced := synced + [ok];
    }
  }

  /** What a comparison that could read the cluster finds. */
  ghost predicate Complete(labeled: seq<Object>, targets: seq<Object>, lookup: Object -> Found, r: Result) {
    var grouped := Grouped(NonHooks(labeled), targets);
    && |targets| <= |r.lives| && |r.children| == |r.lives|
    && (forall i :: 0 <= i < |targets| ==> r.lives[i] == Paired(grouped, targets, lookup, i))
    && (forall i :: 0 <= i < |r.lives| && r.lives[i].Some? ==>
          Grown(grouped - NamesOf(targets), r.lives[i].value, r.children[i]))
    && Conserved(grouped, targets, r)
  }

  lemma {:induction false} CompleteResult(labeled: seq<Object>, targets: seq<Object>, lookup: Object -> Found,
                                          roots: seq<Object>, after: LiveMap, r: Result)
    requires var grouped := Grouped(NonHooks(labeled), targets);
             var rest := grouped - NamesOf(targets);
             && |r.lives| == |targets| + |roots|
             && (forall i :: 0 <= i < |targets| ==> r.lives[i] == Paired(grouped, targets, lookup, i))
             && (forall i :: 0 <= i < |roots| ==> r.lives[|targets| + i] == Some(roots[i]))
             && Lists(ObjectNames(roots), RootKeys(rest))
             && (forall i :: 0 <= i < |roots| ==> FullName(roots[i]) in rest && rest[FullName(roots[i])] == roots[i])
             && GrownFor(rest, after, r.lives, r.children) && |r.children| == |r.lives|
    ensures Complete(labeled, targets, lookup, r)
  {
    hide FullName, NamesOf, Paired, Grouped, Conserved, RootKeys, Lists, ObjectNames, NonHooks;
    assert r.lives[|targets|..] == Somes(roots);
    Conservation(Grouped(NonHooks(labeled), targets), targets, lookup, roots, after, r);
  }

  /** The unowned objects left over join the list, and everything else left over is sorted into trees. */
  method ListResources(targets: seq<Object>, paired: seq<Option<Object>>, live: LiveObjects)
    returns (lives: seq<Option<Object>>, trees: seq<seq<Node>>, ghost roots: seq<Object>)
    requires FiledByName(live.m) && |paired| == |targets|
    modifies live
    ensures |trees| == |lives| && lives == paired + Somes(roots)
    ensures Lists(ObjectNames(roots), RootKeys(old(live.m)))
    ensures forall i :: 0 <= i < |roots| ==>
      FullName(roots[i]) in old(live.m) && old(live.m)[FullName(roots[i])] == roots[i]
    ensures GrownFor(old(live.m), live.m, lives, trees)
  {
    hide FullName, Lists, GrownFor, RootKeys, ObjectNames;
    var unowned := RootObjects(live.m);
    roots := unowned;
    lives := paired + Somes(unowned);
    trees := GrowTrees(lives, live);
  }

  ghost predicate Readable(labeled: Option<seq<Object>>, targets: seq<Object>, lookup: Object -> Found) {
    labeled.Some? && !LookupFails(Grouped(NonHooks(labeled.value), targets), targets, lookup)
  }

  /** The listed live objects and their trees; when the cluster cannot be read, no live object at all. */
  method ListLiveObjects(labeled: Option<seq<Object>>, targets: seq<Object>, lookup: Object -> Found)
    returns (readable: bool, lives: seq<Option<Object>>, trees: seq<seq<Node>>)
    ensures readable <==> Readable(labeled, targets, lookup)
    ensures |targets| <= |lives| == |trees|
    ensures readable ==> forall sides, synced, status ::
      Complete(labeled.value, targets, lookup, Result(sides, lives, synced, trees, status))
    ensures !readable ==> lives == Nones(|targets|)
    ensures forall i :: |targets| <= i < |lives| ==> lives[i].Some?
  {
    hide FullName, NamesOf, Paired, LookupFails, Grouped, Complete, Lists, GrownFor, RootKeys, ObjectNames, NonHooks;
    readable, lives := false, Nones(|targets|);
    var live := new LiveObjects(map[]);
    if labeled.Some? {
      var paired, rest := GetLiveObjs(labeled.value, targets, lookup);
      if paired.Some? {
        readable, lives, live := true, paired.value, rest;
      }
    }
    ghost var m := live.m;
    ghost var roots;
    lives, trees, roots := ListResources(targets, lives, live);
    if readable {
      forall sides, synced, status
        ensures Complete(labeled.value, targets, lookup, Result(sides, lives, synced, trees, status))
      {
        CompleteResult(labeled.value, targets, lookup, roots, live.m, Result(sides, lives, synced, trees, status));
      }
    } else {
      NoRootsAtAll(m, roots);
    }
  }

  /** The comparison lists the targets and then the unowned live objects that no target names; it is complete unless
      the cluster could not be read; a resource is in sync exactly if both sides are there and do not differ; the
      whole is in sync exactly if all are and everything could be read; and no entry lacks both sides. */
  method CompareAppState(manifests: Option<seq<Object>>, labeled: Option<seq<Object>>, lookup: Object -> Found,
                         modified: (Option<Object>, Option<Object>) -> bool) returns (r: Result)
    ensures var targets := OrEmpty(manifests);
            && |targets| <= |r.targets| == |r.lives| == |r.synced|
            && r.targets == Somes(targets) + Nones(|r.targets| - |targets|)
            && (Readable(labeled, targets, lookup) ==> Complete(labeled.value, targets, lookup, r))
            && (!Readable(labeled, targets, lookup) ==> r.lives == Nones(|targets|))
            && r.status == if manifests.None? || !Readable(labeled, targets, lookup) then Unknown
                           else if forall i :: 0 <= i < |r.synced| ==> r.synced[i] then InSync
                           else OutOfSync
    ensures forall i :: 0 <= i < |r.synced| ==>
      (r.synced[i] <==> r.targets[i].Some? && r.lives[i].Some? && !modified(r.targets[i], r.lives[i]))
    ensures forall i :: 0 <= i < |r.targets| ==> r.targets[i].Some? || r.lives[i].Some?
  {
    hide Readable, Complete, NonHooks;
    var targets: seq<Object> := [];
    if manifests.Some? {
      targets := SkipHooks(manifests.value);
    }
    var readable, lives, trees := ListLiveObjects(labeled, targets, lookup);
    var sides := Somes(targets) + Nones(|lives| - |targets|);
    var synced, status := Assess(sides, lives, modified);
    r := Result(sides, lives, synced, trees, if manifests.None? || !readable then Unknown else status);
  }

  lemma {:induction false} NoRootsAtAll(m: LiveMap, roots: seq<Object>)
    requires m == map[] && Lists(ObjectNames(roots), RootKeys(m))
    ensures roots == []
  {
    assert RootKeys(m) == {} && multiset(RootKeys(m)) == multiset{};
    assert |multiset(ObjectNames(roots))| == |roots|;
  }

  lemma {:induction false} NonHooksOnly(os: seq<Object>)
    ensures forall o :: o in NonHooks(os) ==> o in os && !IsHook(o)
  {
    hide IsHook;
    if os != [] { NonHooksOnly(os[..|os| - 1]); }
  }

  /** Exactly the hooks are left out, and the others stay in order. */
  lemma {:induction false} NonHooksAre(a: seq<Object>, b: seq<Object>, x: Object)
    ensures NonHooks(a + b) == NonHooks(a) + NonHooks(b)
    ensures NonHooks([x]) == if IsHook(x) then [] else [x]
  {
    hide IsHook;
    assert [x][..0] == [];
    if b == [] {
      assert a + b == a;
    } else {
      NonHooksAre(a, b[..|b| - 1], x);
      assert (a + b)[..|a + b| - 1] == a + b[..|b| - 1];
    }
  }

  function TasksOf(r: Result): seq<Task>
    requires |r.targets| == |r.lives|
  {
    seq(|r.lives|, i requires 0 <= i < |r.lives| => Task(r.lives[i], r.targets[i]))
  }

  /** A comparison result gives valid tasks to a sync: none is empty, and no target is a hook. */
  lemma {:induction false} TasksAreValid(manifests: Option<seq<Object>>, r: Result)
    requires |r.targets| == |r.lives| && |OrEmpty(manifests)| <= |r.targets|
    requires r.targets == Somes(OrEmpty(manifests)) + Nones(|r.targets| - |OrEmpty(manifests)|)
    requires forall i :: 0 <= i < |r.targets| ==> r.targets[i].Some? || r.lives[i].Some?
    ensures ValidTasks(TasksOf(r))
  {
    hide IsHook;
    if manifests.Some? { NonHooksOnly(manifests.value); }
  }
}
