/** The comparison in terms of kinds and names. Full names are only the keys of its maps; kinds have no colon, so they
    tell objects of different kinds or names apart. */
module KindsAndNames {
  import opened Kube
  import opened Ownership
  import opened Comparison

  predicate SameId(a: Object, b: Object) {
    a.kind == b.kind && a.name == b.name
  }

  predicate PlainKinds(os: seq<Object>) {
    forall i :: 0 <= i < |os| ==> ':' !in os[i].kind
  }

  lemma {:induction false} SplitAtColon(a: string, x: string, b: string, y: string)
    requires ':' !in a && ':' !in b && a + ":" + x == b + ":" + y
    ensures a == b && x == y
  {
    var s, t := a + ":" + x, b + ":" + y;
    assert s[|a|] == ':' && t[|b|] == ':';
    assert forall i :: 0 <= i < |a| ==> s[i] == a[i];
    assert forall i :: 0 <= i < |b| ==> t[i] == b[i];
    assert |a| == |b|;
    assert a == s[..|a|] == t[..|b|] == b;
    assert x == s[|a| + 1..] == t[|b| + 1..] == y;
  }

  /** Two objects have the same full name if and only if they have the same kind and the same name. */
  lemma {:induction false} FullNameTells(a: Object, b: Object)
    requires ':' !in a.kind && ':' !in b.kind
    ensures FullName(a) == FullName(b) <==> SameId(a, b)
  {
    if FullName(a) == FullName(b) { SplitAtColon(a.kind, a.name, b.kind, b.name); }
  }

  // ---------------------------------------------------------------------------------------------
  // Deduplication
  // ---------------------------------------------------------------------------------------------

  /** The i-th object is the last with the kind and name of o. */
  ghost predicate LastLike(os: seq<Object>, i: nat, o: Object)
    requires i < |os|
  {
    SameId(os[i], o) && forall j :: i < j < |os| ==> !SameId(os[j], o)
  }

  /** Whether the object has the version that is wanted for its kind and name: that of the last target with them. */
  ghost predicate HasWantedVersion(targets: seq<Object>, o: Object) {
    forall i :: 0 <= i < |targets| && LastLike(targets, i, o) ==> o.api == targets[i].api
  }

  lemma {:induction false} LastByName(os: seq<Object>, name: string) returns (i: nat)
    requires ByName(os, name) != []
    ensures i < |os| && os[i] == ByName(os, name)[|ByName(os, name)| - 1] && FullName(os[i]) == name
    ensures forall j :: i < j < |os| ==> FullName(os[j]) != name
  {
    hide FullName;
    var n := |os| - 1;
    if FullName(os[n]) == name {
      i := n;
    } else {
      i := LastByName(os[..n], name);
      assert forall j :: 0 <= j < n ==> os[..n][j] == os[j];
    }
  }

  /** The version of the target that deduplication looks at is the wanted one. */
  lemma {:induction false} WantedIs(targets: seq<Object>, o: Object)
    requires PlainKinds(targets) && ':' !in o.kind
    ensures var wanted := ByName(targets, FullName(o));
            && (wanted == [] <==> forall i :: 0 <= i < |targets| ==> !SameId(targets[i], o))
            && (HasWantedVersion(targets, o) <==> (wanted != [] ==> o.api == wanted[|wanted| - 1].api))
  {
    hide FullName, ByName;
    var name := FullName(o);
    forall i | 0 <= i < |targets| ensures FullName(targets[i]) == name <==> SameId(targets[i], o) {
      FullNameTells(targets[i], o);
    }
    ByNameMembers(targets, name);
    if ByName(targets, name) != [] {
      var last := LastByName(targets, name);
      assert LastLike(targets, last, o);
      forall i | 0 <= i < |targets| && LastLike(targets, i, o) ensures i == last {
        assert SameId(targets[last], o);
      }
    }
  }

  /** The object is the first live one of its kind and name that has the wanted version. */
  ghost predicate FirstWanted(lives: seq<Object>, targets: seq<Object>, o: Object) {
    && HasWantedVersion(targets, o)
    && exists i :: 0 <= i < |lives| && lives[i] == o
                   && forall j :: 0 <= j < i ==> !(SameId(lives[j], o) && HasWantedVersion(targets, lives[j]))
  }

  /** The first of the list with the version, or the first at all if any will do. */
  lemma {:induction false} FirstByName(os: seq<Object>, name: string, api: Option<ApiVersion>)
    requires ByName(os, name) != [] && (api.Some? ==> FirstOf(ByName(os, name), api.value).Some?)
    ensures var o := if api.Some? then FirstOf(ByName(os, name), api.value).value else ByName(os, name)[0];
            exists i :: 0 <= i < |os| && os[i] == o
                        && forall j :: 0 <= j < i ==>
                             !(FullName(os[j]) == name && (api.Some? ==> os[j].api == api.value))
  {
    hide FullName;
    var n := |os| - 1;
    var before := ByName(os[..n], name);
    assert forall j :: 0 <= j < n ==> os[..n][j] == os[j];
    if before != [] && (api.Some? ==> FirstOf(before, api.value).Some?) {
      FirstByName(os[..n], name, api);
      if api.Some? && FullName(os[n]) == name { FirstOfAppend(before, os[n], api.value); }
    } else {
      ByNameMembers(os[..n], name);
      if api.Some? {
        FirstOfMeaning(before, api.value);
        FirstOfAppend(before, os[n], api.value);
      }
      forall j | 0 <= j < n ensures !(FullName(os[j]) == name && (api.Some? ==> os[j].api == api.value)) {
        assert os[j] in os[..n];
      }
    }
  }

  lemma {:induction false} FirstOfAppend(list: seq<Object>, o: Object, api: ApiVersion)
    ensures FirstOf(list + [o], api) ==
            if FirstOf(list, api).Some? then FirstOf(list, api) else if o.api == api then Some(o) else None
  {
    if list == [] {
      assert list + [o] == [o] && FirstOf([o][1..], api) == None;
    } else {
      assert (list + [o])[1..] == list[1..] + [o];
      FirstOfAppend(list[1..], o, api);
    }
  }

  lemma {:induction false} KeptIsFirst(lives: seq<Object>, targets: seq<Object>, k: string)
    requires PlainKinds(lives) && PlainKinds(targets) && k in Grouped(lives, targets)
    ensures FirstWanted(lives, targets, Grouped(lives, targets)[k])
  {
    hide FullName, ByName, FirstOf, HasWantedVersion;
    var o, wanted := Grouped(lives, targets)[k], ByName(targets, k);
    ChosenMeaning(lives, targets, k);
    ByNameMembers(lives, k);
    WantedIs(targets, o);
    var api := if wanted == [] then None else Some(wanted[|wanted| - 1].api);
    FirstByName(lives, k, api);
    var i :| 0 <= i < |lives| && lives[i] == o
             && forall j :: 0 <= j < i ==> !(FullName(lives[j]) == k && (api.Some? ==> lives[j].api == api.value));
    forall j | 0 <= j < i ensures !(SameId(lives[j], o) && HasWantedVersion(targets, lives[j])) {
      FullNameTells(lives[j], o);
      WantedIs(targets, lives[j]);
    }
  }

  /** What deduplication keeps: of each kind and name at most one, the first live object of the wanted version. It drops
      a live object only for another of the same kind and name, or because none of that kind and name has the wanted
      version. */
  lemma {:induction false} KeptByKindAndName(lives: seq<Object>, targets: seq<Object>)
    requires PlainKinds(lives) && PlainKinds(targets)
    ensures var m := Grouped(lives, targets);
            && (forall k :: k in m ==> FirstWanted(lives, targets, m[k]))
            && (forall j, k :: j in m && k in m && SameId(m[j], m[k]) ==> j == k)
            && (forall o :: o in lives ==>
                  || (exists k :: k in m && SameId(m[k], o))
                  || (forall other :: other in lives && SameId(other, o) ==> !HasWantedVersion(targets, other)))
  {
    hide FullName, Chosen, HasWantedVersion, ByName, FirstWanted;
    var m := Grouped(lives, targets);
    forall k | k in m ensures m[k] in lives && FirstWanted(lives, targets, m[k]) && FullName(m[k]) == k {
      ChosenMeaning(lives, targets, k);
      KeptIsFirst(lives, targets, k);
    }
    forall j, k | j in m && k in m && SameId(m[j], m[k]) ensures j == k { FullNameTells(m[j], m[k]); }
    forall o | o in lives && !(exists k :: k in m && SameId(m[k], o))
      ensures forall other :: other in lives && SameId(other, o) ==> !HasWantedVersion(targets, other)
    {
      DroppedByVersion(lives, targets, o);
    }
  }

  lemma {:induction false} DroppedByVersion(lives: seq<Object>, targets: seq<Object>, o: Object)
    requires PlainKinds(lives) && PlainKinds(targets) && o in lives
    requires forall k :: k in Grouped(lives, targets) ==> !SameId(Grouped(lives, targets)[k], o)
    ensures forall other :: other in lives && SameId(other, o) ==> !HasWantedVersion(targets, other)
  {
    hide FullName, Chosen, HasWantedVersion, ByName;
    var m, name := Grouped(lives, targets), FullName(o);
    ByNameMembers(lives, name);
    ChosenMeaning(lives, targets, name);
    if Chosen(lives, targets, name).Some? {
      assert name in NamesOf(lives) && m[name] == Chosen(lives, targets, name).value;
      FullNameTells(m[name], o);
    }
    forall other | other in lives && SameId(other, o) ensures !HasWantedVersion(targets, other) {
      FullNameTells(other, o);
      WantedIs(targets, other);
    }
  }

  // ---------------------------------------------------------------------------------------------
  // Pairing
  // ---------------------------------------------------------------------------------------------

  /** A target gets the kept live object of its kind and name, if there is one and no earlier target has them too; any
      other target gets what the cluster has under its name, and one without a name gets none. It is an error exactly if
      the cluster has to be asked and cannot answer. */
  lemma {:induction false} PairedByKindAndName(m: LiveMap, targets: seq<Object>, lookup: Object -> Found, i: nat)
    requires FiledByName(m) && (forall k :: k in m ==> ':' !in m[k].kind) && PlainKinds(targets) && i < |targets|
    ensures var first := forall j :: 0 <= j < i ==> !SameId(targets[j], targets[i]);
            && (Fails(m, targets, lookup, i) <==>
                  && (!first || forall k :: k in m ==> !SameId(m[k], targets[i]))
                  && targets[i].name != "" && lookup(targets[i]).Broken?)
            && (forall k :: k in m && SameId(m[k], targets[i]) && first ==> Paired(m, targets, lookup, i) == Some(m[k]))
            && ((!first || forall k :: k in m ==> !SameId(m[k], targets[i])) ==>
                  Paired(m, targets, lookup, i) ==
                  match lookup(targets[i])
                  case Live(o) => if targets[i].name == "" then None else Some(o)
                  case _ => None)
  {
    hide FullName;
    forall j | 0 <= j < |targets|
      ensures FullName(targets[j]) == FullName(targets[i]) <==> SameId(targets[j], targets[i])
    {
      FullNameTells(targets[j], targets[i]);
    }
    forall k | k in m ensures k == FullName(targets[i]) <==> SameId(m[k], targets[i]) {
      FullNameTells(m[k], targets[i]);
    }
    assert FirstOfItsName(targets, i) <==> forall j :: 0 <= j < i ==> !SameId(targets[j], targets[i]) by {
      if !FirstOfItsName(targets, i) {
        var j :| 0 <= j < i && FullName(targets[..i][j]) == FullName(targets[i]);
        assert targets[..i][j] == targets[j];
      }
    }
    if FullName(targets[i]) in m { assert SameId(m[FullName(targets[i])], targets[i]); }
  }

  // ---------------------------------------------------------------------------------------------
  // The whole comparison
  // ---------------------------------------------------------------------------------------------

  /** Where the kept live object o of a complete comparison is: with the target of its kind and name if there is one; on
      its own in the list, once, if nobody owns it. */
  lemma {:induction false} PlaceByKindAndName(labeled: seq<Object>, targets: seq<Object>, lookup: Object -> Found,
                                              r: Result, k: string)
    requires PlainKinds(NonHooks(labeled)) && PlainKinds(targets) && Complete(labeled, targets, lookup, r)
    requires k in Grouped(NonHooks(labeled), targets)
    ensures |targets| <= |r.lives|
    ensures var o := Grouped(NonHooks(labeled), targets)[k];
            if exists i :: 0 <= i < |targets| && SameId(targets[i], o)
            then exists i :: 0 <= i < |targets| && SameId(targets[i], o) && r.lives[i] == Some(o)
            else if o.kind != "Endpoints" && o.controller.None? then
              exists i :: |targets| <= i < |r.lives| && r.lives[i] == Some(o)
            else forall i :: |targets| <= i < |r.lives| ==> r.lives[i] != Some(o)
  {
    hide FullName, Chosen, HasWantedVersion, NonHooks, IsBelow, TreeNames;
    var lives := NonHooks(labeled);
    var m := Grouped(lives, targets);
    var o := m[k];
    KeptByKindAndName(lives, targets);
    GroupedKeyed(lives, targets);
    assert k == FullName(o) && ConservedAt(m, targets, r, k);
    forall i | 0 <= i < |targets| ensures FullName(targets[i]) == k <==> SameId(targets[i], o) {
      FullNameTells(targets[i], o);
    }
    if k in NamesOf(targets) {
      var i :| 0 <= i < |targets| && FullName(targets[i]) == k && r.lives[i] == Some(o);
    } else {
      assert forall i :: 0 <= i < |targets| ==> FullName(targets[i]) != k;
      RootPlace(m, r, |targets|, k);
    }
  }

  lemma {:induction false} RootPlace(m: LiveMap, r: Result, n: nat, k: string)
    requires FiledByName(m) && k in m && n <= |r.lives|
    requires forall i :: n <= i < |r.lives| ==> r.lives[i].Some? && r.lives[i].value in m.Values
    ensures multiset(RootNames(r, n))[k] > 0 <==> exists i :: n <= i < |r.lives| && r.lives[i] == Some(m[k])
  {
    hide FullName;
    var names := RootNames(r, n);
    if multiset(names)[k] > 0 {
      assert k in names;
      var i :| 0 <= i < |names| && names[i] == k;
      var o := r.lives[n + i].value;
      var j :| j in m && m[j] == o;
      assert r.lives[n + i] == Some(m[k]);
    }
    if i :| n <= i < |r.lives| && r.lives[i] == Some(m[k]) {
      assert names[i - n] == k;
      assert k in multiset(names);
    }
  }

  /** The Endpoints of a listed Service, and whatever names a listed resource as its controller, is exactly one node
      of the trees, unless it is itself the target of something. */
  lemma {:induction false} OwnedIsNode(labeled: seq<Object>, targets: seq<Object>, lookup: Object -> Found, r: Result,
                                       k: string, i: nat)
    requires Complete(labeled, targets, lookup, r) && k in Grouped(NonHooks(labeled), targets)
    requires i < |r.lives| && r.lives[i].Some? && k !in NamesOf(targets)
    requires var o, parent := Grouped(NonHooks(labeled), targets)[k], r.lives[i].value;
             if o.kind == "Endpoints" && parent.kind == "Service" then o.name == parent.name
             else o.controller == Some(parent.uid)
    ensures multiset(TreeNames(r.children))[k] == 1
  {
    hide FullName, NamesOf, NonHooks, Grouped, TreeNames, RootNames;
    var m := Grouped(NonHooks(labeled), targets);
    var rest := m - NamesOf(targets);
    assert ConservedAt(m, targets, r, k);
    assert IsControlledBy(m[k], r.lives[i].value) && HasParent(m[k]);
    hide IsControlledBy, HasParent;
    OwnedIsBelow(rest, r.lives, i, k);
  }

  lemma {:induction false} OwnedIsBelow(m: LiveMap, lives: seq<Option<Object>>, i: nat, k: string)
    requires k in m && i < |lives| && lives[i].Some? && IsControlledBy(m[k], lives[i].value)
    ensures IsBelow(m, lives, k)
  {
    hide IsControlledBy;
    assert ChainTo(m, lives[i].value, [k], k);
    assert Descends(m, lives[i].value, k);
  }
}
