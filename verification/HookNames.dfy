/** The names under which hooks are created and recorded. */
module HookNames {
  import opened Kube
  import opened Text
  import opened SyncState
  import opened HookSync

  /** A hook with a name has that name. One without has a name that begins with the one it asks for, and the commit must
      then have at least seven characters. In both cases it is recorded under its kind and the phase it runs in. */
  lemma {:induction false} NameOfHook(op: Operation, revision: string, h: Object, t: HookType)
    ensures var key := KeyFor(op, revision, h, t);
            && (key.None? <==> h.name == "" && |revision| < 7)
            && (key.Some? ==> key.value.kind == h.kind && key.value.typ == t)
            && (h.name != "" ==> key.value.name == h.name)
            && (key.Some? && h.name == "" ==>
                  |key.value.name| > |h.generateName| && key.value.name[..|h.generateName|] == h.generateName)
  {
    hide Decimal, TypeName;
    if h.name == "" && |revision| >= 7 {
      var text := revision[..7] + "-" + TypeName(t) + "-" + Decimal(StartedAt(op));
      LowerAt(text);
    }
  }

  lemma {:induction false} SplitAtDash(a: string, x: string, b: string, y: string)
    requires '-' !in a && '-' !in b && a + "-" + x == b + "-" + y
    ensures a == b && x == y
  {
    var s, t := a + "-" + x, b + "-" + y;
    assert s[|a|] == '-' && t[|b|] == '-';
    assert forall i :: 0 <= i < |a| ==> s[i] == a[i];
    assert forall i :: 0 <= i < |b| ==> t[i] == b[i];
    assert |a| == |b|;
    assert a == s[..|a|] == t[..|b|] == b;
    assert x == s[|a| + 1..] == t[|b| + 1..] == y;
  }

  lemma {:induction false} LowerTypes(t: HookType, u: HookType)
    ensures '-' !in Lower(TypeName(t))
    ensures Lower(TypeName(t)) == Lower(TypeName(u)) ==> t == u
  {
    hide Lower;
    LowerAt(TypeName(t));
    LowerAt(TypeName(u));
    assert '-' !in TypeName(t);
    assert |TypeName(PreSync)| == 7 && |TypeName(PostSync)| == 8 && |TypeName(Sync)| == |TypeName(Skip)| == 4;
    assert TypeName(Sync)[1] != TypeName(Skip)[1];
  }

  lemma {:induction false} LowerParts(commit: string, t: HookType, at: nat)
    ensures Lower(commit + "-" + TypeName(t) + "-" + Decimal(at)) ==
            Lower(commit) + ("-" + (Lower(TypeName(t)) + "-" + Decimal(at)))
    ensures '-' !in Decimal(at)
  {
    hide Lower, Decimal, TypeName;
    LowerAppend(commit + "-" + TypeName(t) + "-", Decimal(at));
    LowerAppend(commit + "-" + TypeName(t), "-");
    LowerAppend(commit + "-", TypeName(t));
    LowerAppend(commit, "-");
    LowerAt("-");
    assert Lower("-") == "-";
    DecimalDigits(at);
    LowerAt(Decimal(at));
    assert Lower(Decimal(at)) == Decimal(at);
  }

  /** A name that is generated is generated again only in the same phase, of an operation that started at the same time,
      for a commit that begins with the same seven characters. */
  lemma {:induction false} GeneratedNamesDiffer(h: Object, a: Operation, x: string, t: HookType, b: Operation,
                                                y: string, u: HookType)
    requires h.name == "" && |x| >= 7 && |y| >= 7
    requires KeyFor(a, x, h, t).value.name == KeyFor(b, y, h, u).value.name
    ensures t == u && StartedAt(a) == StartedAt(b) && Lower(x[..7]) == Lower(y[..7])
  {
    hide Lower, Decimal, TypeName;
    var m, n := StartedAt(a), StartedAt(b);
    LowerParts(x[..7], t, m);
    LowerParts(y[..7], u, n);
    var p := Lower(x[..7]) + ("-" + (Lower(TypeName(t)) + "-" + Decimal(m)));
    var q := Lower(y[..7]) + ("-" + (Lower(TypeName(u)) + "-" + Decimal(n)));
    assert p == (h.generateName + p)[|h.generateName|..] == (h.generateName + q)[|h.generateName|..] == q;
    LowerAt(x[..7]);
    LowerAt(y[..7]);
    assert Lower(x[..7]) == p[..7] == q[..7] == Lower(y[..7]);
    assert Lower(TypeName(t)) + "-" + Decimal(m) == p[8..] == q[8..] == Lower(TypeName(u)) + "-" + Decimal(n);
    LowerTypes(t, u);
    LowerTypes(u, t);
    SplitAtDash(Lower(TypeName(t)), Decimal(m), Lower(TypeName(u)), Decimal(n));
    DecimalInjective(m, n);
  }
}
