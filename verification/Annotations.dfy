/** What annotations say: the lists of hook types and of deletion policies that users write. */
module Annotations {
  import opened Kube

  // ---------------------------------------------------------------------------------------------
  // Lists of words
  // ---------------------------------------------------------------------------------------------

  /** The parts with a separator between each two. */
  function Join(parts: seq<string>, sep: char): string {
    if parts == [] then ""
    else if |parts| == 1 then parts[0]
    else parts[0] + [sep] + Join(parts[1..], sep)
  }

  lemma {:induction false} SplitCons(s: string, sep: char, rest: string)
    requires sep !in s
    ensures Split(s + [sep] + rest, sep) == [s] + Split(rest, sep)
  {
    var whole := s + [sep] + rest;
    if s == "" {
      assert whole[1..] == rest;
    } else {
      assert whole[1..] == s[1..] + [sep] + rest;
      SplitCons(s[1..], sep, rest);
      assert [s[0]] + s[1..] == s;
      assert ([s[1..]] + Split(rest, sep))[1..] == Split(rest, sep);
    }
  }

  /** Splitting gives back parts that were joined. */
  lemma {:induction false} SplitJoined(parts: seq<string>, sep: char)
    requires parts != [] && forall i :: 0 <= i < |parts| ==> sep !in parts[i]
    ensures Split(Join(parts, sep), sep) == parts
  {
    if |parts| == 1 {
      SplitPlain(parts[0], sep);
    } else {
      SplitCons(parts[0], sep, Join(parts[1..], sep));
      SplitJoined(parts[1..], sep);
    }
  }

  ghost predicate Blank(s: string) {
    forall i :: 0 <= i < |s| ==> IsSpace(s[i])
  }

  /** A word, with space around it. */
  datatype Padded = Padded(before: string, word: string, after: string)
  {
    function Text(): string { before + word + after }

    ghost predicate Plain() {
      && Blank(before) && Blank(after) && ',' !in word
      && word != "" && !IsSpace(word[0]) && !IsSpace(word[|word| - 1])
    }
  }

  lemma {:induction false} TrimLeftBlank(a: string, x: string)
    requires Blank(a) && x != "" && !IsSpace(x[0])
    ensures TrimLeft(a + x) == x
  {
    if a == "" {
      assert a + x == x;
    } else {
      assert (a + x)[1..] == a[1..] + x;
      TrimLeftBlank(a[1..], x);
    }
  }

  lemma {:induction false} TrimRightBlank(x: string, b: string)
    requires Blank(b) && x != "" && !IsSpace(x[|x| - 1])
    ensures TrimRight(x + b) == x
  {
    if b == "" {
      assert x + b == x;
    } else {
      assert (x + b)[..|x + b| - 1] == x + b[..|b| - 1];
      TrimRightBlank(x, b[..|b| - 1]);
    }
  }

  lemma {:induction false} TrimsPadding(p: Padded)
    requires p.Plain()
    ensures TrimSpace(p.Text()) == p.word && ',' !in p.Text()
  {
    assert p.Text() == p.before + (p.word + p.after);
    assert (p.word + p.after)[0] == p.word[0];
    TrimLeftBlank(p.before, p.word + p.after);
    TrimRightBlank(p.word, p.after);
  }

  function Texts(items: seq<Padded>): (r: seq<string>)
    ensures |r| == |items| && forall i :: 0 <= i < |items| ==> r[i] == items[i].Text()
  {
    if items == [] then [] else [items[0].Text()] + Texts(items[1..])
  }

  /** A comma-separated list of words has exactly those words, whatever space is around them. */
  lemma {:induction false} ListHasWords(items: seq<Padded>, word: string)
    requires items != [] && forall i :: 0 <= i < |items| ==> items[i].Plain()
    ensures ListHas(Join(Texts(items), ','), word) <==> exists i :: 0 <= i < |items| && items[i].word == word
  {
    hide Split, TrimSpace, Join;
    var parts := Texts(items);
    forall i | 0 <= i < |items| ensures TrimSpace(parts[i]) == items[i].word && ',' !in parts[i] {
      TrimsPadding(items[i]);
    }
    SplitJoined(parts, ',');
    if i :| 0 <= i < |items| && items[i].word == word { assert parts[i] in parts; }
  }

  // ---------------------------------------------------------------------------------------------
  // Hook types and deletion policies
  // ---------------------------------------------------------------------------------------------

  lemma {:induction false} TypeNamesDiffer(t: HookType, u: HookType)
    requires TypeName(t) == TypeName(u)
    ensures t == u
  {
    assert TypeName(t)[1] == TypeName(u)[1];
    assert |TypeName(PreSync)| == 7 && |TypeName(PostSync)| == 8;
  }

  /** An object is a hook of exactly the types that its annotation lists. */
  lemma {:induction false} HookTypesAre(o: Object, items: seq<Padded>, types: seq<HookType>, t: HookType)
    requires |items| == |types| > 0 && Annotation(o, HOOK_ANNOTATION) == Join(Texts(items), ',')
    requires forall i :: 0 <= i < |items| ==> items[i].Plain() && items[i].word == TypeName(types[i])
    ensures IsHookType(o, t) <==> t in types
  {
    hide ListHas, Annotation, Join;
    ListHasWords(items, TypeName(t));
    if i :| 0 <= i < |items| && items[i].word == TypeName(t) { TypeNamesDiffer(types[i], t); }
    if t in types {
      var i :| 0 <= i < |types| && types[i] == t;
      assert items[i].word == TypeName(t);
    }
  }

  /** One type by itself. */
  lemma {:induction false} OneHookType(o: Object, u: HookType, t: HookType)
    requires Annotation(o, HOOK_ANNOTATION) == TypeName(u)
    ensures IsHookType(o, t) <==> t == u
    ensures IsArgoHook(o) <==> u != Skip
    ensures Annotated(o)
  {
    hide ListHas, Annotation;
    var item := Padded("", TypeName(u), "");
    assert item.Text() == TypeName(u);
    assert item.Plain() by { TypeNamePlain(u); }
    assert Texts([item]) == [item.Text()] && Join([item.Text()], ',') == item.Text();
    forall v ensures IsHookType(o, v) <==> v == u { HookTypesAre(o, [item], [u], v); }
  }

  /** An object annotated with the name of one type is a hook of that type and of no other; Skip alone is none. */
  lemma {:induction false} AnnotatedWithOne(o: Object, t: HookType)
    requires "argocd.argoproj.io/hook" in o.annotations
    ensures var text := o.annotations["argocd.argoproj.io/hook"];
            && (text == "PreSync" ==> (IsHookType(o, t) <==> t == PreSync) && IsArgoHook(o))
            && (text == "Sync" ==> (IsHookType(o, t) <==> t == Sync) && IsArgoHook(o))
            && (text == "PostSync" ==> (IsHookType(o, t) <==> t == PostSync) && IsArgoHook(o))
            && (text == "Skip" ==> (IsHookType(o, t) <==> t == Skip) && !IsArgoHook(o) && Annotated(o))
  {
    hide ListHas;
    if u :| Annotation(o, HOOK_ANNOTATION) == TypeName(u) { OneHookType(o, u, t); }
    assert TypeName(PreSync) == "PreSync" && TypeName(Sync) == "Sync" && TypeName(PostSync) == "PostSync"
           && TypeName(Skip) == "Skip";
  }

  /** For instance, with space of different kinds around the names. */
  lemma {:induction false} SpaceDoesNotCount(o: Object, t: HookType)
    requires Annotation(o, HOOK_ANNOTATION) == " PreSync,\tPostSync\n"
    ensures IsHookType(o, t) <==> t == PreSync || t == PostSync
  {
    hide ListHas, Annotation, Texts, Join, IsSpace, Blank;
    var a, b := Padded(" ", "PreSync", ""), Padded("\t", "PostSync", "\n");
    assert a.Plain() && b.Plain() by { NamesPadded(); }
    TwoTexts(a, b);
    assert a.Text() + "," + b.Text() == " PreSync,\tPostSync\n";
    HookTypesAre(o, [a, b], [PreSync, PostSync], t);
  }

  lemma {:induction false} NamesPadded()
    ensures Padded(" ", "PreSync", "").Plain() && Padded("\t", "PostSync", "\n").Plain()
  {
  }

  lemma {:induction false} TwoTexts(a: Padded, b: Padded)
    ensures Join(Texts([a, b]), ',') == a.Text() + "," + b.Text()
  {
    assert [a, b][1..] == [b] && [b][1..] == [];
    assert Texts([a, b]) == [a.Text(), b.Text()];
    assert [a.Text(), b.Text()][1..] == [b.Text()];
  }

  /** A Helm hook is any object with Helm's annotation, unless that lists crd-install. */
  lemma {:induction false} HelmHooksAre(o: Object, items: seq<Padded>)
    requires items != [] && forall i :: 0 <= i < |items| ==> items[i].Plain()
    ensures "helm.sh/hook" !in o.annotations ==> !IsHelmHook(o)
    ensures "helm.sh/hook" in o.annotations && o.annotations["helm.sh/hook"] == Join(Texts(items), ',') ==>
            (IsHelmHook(o) <==> forall i :: 0 <= i < |items| ==> items[i].word != "crd-install")
  {
    hide ListHas, Join;
    ListHasWords(items, "crd-install");
  }

  lemma {:induction false} TypeNamePlain(t: HookType)
    ensures ',' !in TypeName(t) && TypeName(t) != ""
    ensures !IsSpace(TypeName(t)[0]) && !IsSpace(TypeName(t)[|TypeName(t)| - 1])
  {
  }

  /** A hook is deleted when it succeeds, or when it fails, exactly if its annotation lists that policy. */
  lemma {:induction false} PoliciesAre(o: Object, items: seq<Padded>, phase: OperationPhase)
    requires items != [] && Annotation(o, DELETE_POLICY_ANNOTATION) == Join(Texts(items), ',')
    requires forall i :: 0 <= i < |items| ==> items[i].Plain()
    ensures DeletesHook(o, phase) <==>
            exists i :: 0 <= i < |items| && ((items[i].word == "HookSucceeded" && phase.Succeeded?)
                                             || (items[i].word == "HookFailed" && phase.Failed?))
  {
    hide ListHas, Annotation, Join;
    ListHasWords(items, "HookSucceeded");
    ListHasWords(items, "HookFailed");
  }
}
