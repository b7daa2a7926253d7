/** The ownership forest of the live objects: a depth-first search that deletes from the very map it ranges over. */
module Ownership {
  import opened Kube

  const ENDPOINTS := "Endpoints"
  const SERVICE := "Service"

  /** A resource in the tree below a listed resource. */
  datatype Node = Node(obj: Object, children: seq<Node>)

  type LiveMap = map<string, Object>

  function FullName(o: Object): string {
    o.kind + ":" + o.name
  }

  predicate HasParent(o: Object) {
    o.kind == ENDPOINTS || o.controller.Some?
  }

  predicate IsControlledBy(o: Object, parent: Object) {
    if o.kind == ENDPOINTS && parent.kind == SERVICE then o.name == parent.name
    else o.controller == Some(parent.uid)
  }

  /** Every entry is filed under its object's full name. */
  ghost predicate FiledByName(m: LiveMap) {
    forall k :: k in m ==> FullName(m[k]) == k
  }

  // ---------------------------------------------------------------------------------------------
  // Owner chains
  // ---------------------------------------------------------------------------------------------

  /** A chain of ownership that starts below the parent and stays within the map. */
  ghost predicate Chain(m: LiveMap, parent: Object, ks: seq<string>) {
    && |ks| > 0
    && (forall i :: 0 <= i < |ks| ==> ks[i] in m)
    && IsControlledBy(m[ks[0]], parent)
    && (forall i :: 0 < i < |ks| ==> IsControlledBy(m[ks[i]], m[ks[i - 1]]))
  }

  ghost predicate ChainTo(m: LiveMap, parent: Object, ks: seq<string>, k: string) {
    Chain(m, parent, ks) && ks[|ks| - 1] == k
  }

  ghost predicate Descends(m: LiveMap, parent: Object, k: string) {
    exists ks :: ChainTo(m, parent, ks, k)
  }

  // ---------------------------------------------------------------------------------------------
  // Trees
  // ---------------------------------------------------------------------------------------------

  /** The full names of all nodes of the trees. */
  function Names(trees: seq<Node>): seq<string> {
    if trees == [] then []
    else
      var last := trees[|trees| - 1];
      Names(trees[..|trees| - 1]) + ([FullName(last.obj)] + Names(last.children))
  }

  /** Every node holds an object of the map, and is controlled by the node above it. */
  ghost predicate Grown(m: LiveMap, parent: Object, trees: seq<Node>)
    decreases trees
  {
    forall i :: 0 <= i < |trees| ==>
      && FullName(trees[i].obj) in m && m[FullName(trees[i].obj)] == trees[i].obj
      && IsControlledBy(trees[i].obj, parent)
      && Grown(m, trees[i].obj, trees[i].children)
  }

  /** What is left of the map: the same objects, none of them controlled by one that was taken out. */
  ghost predicate Rest(before: LiveMap, after: LiveMap) {
    && (forall k :: k in after ==> k in before && after[k] == before[k])
    && (forall k, r :: k in after && r in before && r !in after ==> !IsControlledBy(after[k], before[r]))
  }

  /** The sequence holds each element of the set exactly once, and nothing else. */
  ghost predicate Lists(names: seq<string>, keys: set<string>) {
    multiset(names) == multiset(keys)
  }

  ghost predicate NoneControlled(m: LiveMap, parent: Object) {
    forall k :: k in m ==> !IsControlledBy(m[k], parent)
  }

  lemma {:induction false} GrownMonotone(small: LiveMap, big: LiveMap, parent: Object, trees: seq<Node>)
    requires Grown(small, parent, trees)
    requires forall k :: k in small ==> k in big && big[k] == small[k]
    ensures Grown(big, parent, trees)
    decreases trees
  {
    forall i | 0 <= i < |trees| ensures Grown(big, trees[i].obj, trees[i].children) {
      GrownMonotone(small, big, trees[i].obj, trees[i].children);
    }
  }

  lemma {:induction false} ChainPrepend(m: LiveMap, parent: Object, first: string, k: string)
    requires first in m && IsControlledBy(m[first], parent) && Descends(m, m[first], k)
    ensures Descends(m, parent, k)
  {
    var ks :| ChainTo(m, m[first], ks, k);
    var longer := [first] + ks;
    forall i | 0 < i < |longer| ensures IsControlledBy(m[longer[i]], m[longer[i - 1]]) {
      if i > 1 { assert longer[i] == ks[i - 1] && longer[i - 1] == ks[i - 2]; }
    }
    assert ChainTo(m, parent, longer, k);
  }

  lemma {:induction false} GrownDescends(m: LiveMap, parent: Object, trees: seq<Node>, k: string)
    requires Grown(m, parent, trees) && k in Names(trees)
    ensures Descends(m, parent, k)
    decreases trees
  {
    var n := |trees| - 1;
    var last := trees[n];
    if k in Names(trees[..n]) {
      assert Grown(m, parent, trees[..n]);
      GrownDescends(m, parent, trees[..n], k);
    } else if k == FullName(last.obj) {
      assert ChainTo(m, parent, [k], k);
    } else {
      GrownDescends(m, last.obj, last.children, k);
      ChainPrepend(m, parent, FullName(last.obj), k);
    }
  }

  /** No chain leaves what was taken out. */
  lemma {:induction false} ChainStaysOut(before: LiveMap, after: LiveMap, parent: Object, ks: seq<string>, i: nat)
    requires Rest(before, after) && NoneControlled(after, parent) && Chain(before, parent, ks) && i < |ks|
    ensures ks[i] !in after
  {
    if i > 0 {
      ChainStaysOut(before, after, parent, ks, i - 1);
    }
  }

  /** Exactly the objects that a chain connects to the parent are gone. */
  lemma {:induction false} TakenIsBelow(before: LiveMap, after: LiveMap, parent: Object, trees: seq<Node>, k: string)
    requires Taken(before, after, parent, trees) && NoneControlled(after, parent) && k in before
    ensures k in after <==> !Descends(before, parent, k)
  {
    if k !in after {
      assert k in multiset(before.Keys - after.Keys);
      assert k in Names(trees);
      GrownDescends(before, parent, trees, k);
    } else if Descends(before, parent, k) {
      var ks :| ChainTo(before, parent, ks, k);
      ChainStaysOut(before, after, parent, ks, |ks| - 1);
    }
  }

  /** Taking one more object out together with everything below it. */
  lemma {:induction false} TakeOne(before: LiveMap, mid: LiveMap, after: LiveMap, k: string)
    requires Rest(before, mid) && k in mid && Rest(mid - {k}, after) && NoneControlled(after, mid[k])
    ensures Rest(before, after)
  {
  }

  lemma {:induction false} ListsAppend(a: seq<string>, s: set<string>, b: seq<string>, t: set<string>)
    requires Lists(a, s) && Lists(b, t) && s !! t
    ensures Lists(a + b, s + t)
  {
  }

  lemma {:induction false} NamesAppend(children: seq<Node>, tree: Node)
    ensures Names(children + [tree]) == Names(children) + ([FullName(tree.obj)] + Names(tree.children))
  {
  }

  lemma {:induction false} TakeNames(before: set<string>, mid: set<string>, after: set<string>, k: string,
                                     children: seq<Node>, tree: Node)
    requires mid <= before && after <= mid - {k} && k in mid && FullName(tree.obj) == k
    requires Lists(Names(children), before - mid) && Lists(Names(tree.children), mid - {k} - after)
    ensures Lists(Names(children + [tree]), before - after)
  {
    hide Lists, FullName, Names;
    var below := mid - {k} - after;
    NamesAppend(children, tree);
    SingletonLists(k);
    ListsAppend([k], {k}, Names(tree.children), below);
    ListsAppend(Names(children), before - mid, [k] + Names(tree.children), {k} + below);
    assert before - after == (before - mid) + ({k} + below);
  }

  lemma {:induction false} SingletonLists(k: string)
    ensures Lists([k], {k})
  {
  }

  /** The trees hold exactly what was taken out of the map. */
  ghost predicate Taken(before: LiveMap, after: LiveMap, parent: Object, trees: seq<Node>) {
    Rest(before, after) && Grown(before, parent, trees) && Lists(Names(trees), before.Keys - after.Keys)
  }

  lemma {:induction false} NothingTaken(m: LiveMap, parent: Object)
    ensures Taken(m, m, parent, [])
  {
  }

  lemma {:induction false} TakeTree(before: LiveMap, mid: LiveMap, after: LiveMap, parent: Object, trees: seq<Node>,
                                    k: string, below: seq<Node>)
    requires FiledByName(mid) && Taken(before, mid, parent, trees) && k in mid && IsControlledBy(mid[k], parent)
    requires Taken(mid - {k}, after, mid[k], below) && NoneControlled(after, mid[k])
    ensures Taken(before, after, parent, trees + [Node(mid[k], below)])
    ensures forall j :: j in after ==> j in mid && j != k && after[j] == mid[j]
  {
    hide IsControlledBy, FullName, Lists, Names;
    assert (mid - {k}).Keys == mid.Keys - {k};
    TakeOne(before, mid, after, k);
    GrownMonotone(mid - {k}, before, mid[k], below);
    TakeNames(before.Keys, mid.Keys, after.Keys, k, trees, Node(mid[k], below));
  }

  /** The live objects by full name, from which the trees are taken. */
  class LiveObjects {
    var m: LiveMap

    constructor (objects: LiveMap)
      ensures m == objects
    {
      m := objects;
    }

    /** Takes everything below the parent out of the map and returns it as trees, whatever the order in which the
        map is ranged over and whatever cycles the ownership has: each object taken is one node, controlled by the
        node above it, and the objects taken are exactly those that an owner chain connects to the parent. */
    method GetChildren(parent: Object) returns (children: seq<Node>)
      requires FiledByName(m)
      modifies this
      ensures FiledByName(m) && Taken(old(m), m, parent, children) && NoneControlled(m, parent)
      ensures forall k :: k in old(m) ==> (k in m <==> !Descends(old(m), parent, k))
      decreases m.Keys
    {
      hide IsControlledBy, Descends, FullName, Taken;
      children := [];
      NothingTaken(m, parent);
      var visited: set<string> := {};
      while m.Keys - visited != {}
        invariant FiledByName(m) && Taken(old(m), m, parent, children) && m.Keys <= old(m).Keys
        invariant forall k :: k in m && k in visited ==> !IsControlledBy(m[k], parent)
        decreases m.Keys - visited
      {
        var k :| k in m.Keys - visited;
        visited := visited + {k};
        var obj := m[k];
        if IsControlledBy(obj, parent) {
          ghost var mid := m;
          m := m - {k};
          var below := GetChildren(obj);
          TakeTree(old(m), mid, m, parent, children, k, below);
          children := children + [Node(obj, below)];
        }
      }
      forall k | k in old(m) ensures k in m <==> !Descends(old(m), parent, k) {
        TakenIsBelow(old(m), m, parent, children, k);
      }
    }
  }
}
