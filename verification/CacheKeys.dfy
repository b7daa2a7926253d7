/** The keys under which the repository server files its answers. */
module CacheKeys {
  import opened Text

  /** What is asked of a repository, without the repository and the revision. `source` is the application source as
      text, with the repository and the revision blanked out. */
  datatype Ask =
    | Manifest(app: string, space: string, source: string, overrides: string)
    | ListDir(path: string)
    | GetFile(path: string)

  predicate NoBar(s: string) {
    forall i :: 0 <= i < |s| ==> s[i] != '|'
  }

  function Key(fnv: string -> nat, ask: Ask, commit: string): string {
    match ask
    case Manifest(app, space, source, overrides) =>
      "mfst|" + (app + "|" + (commit + "|" + (space + "|" + Decimal(fnv(source + overrides)))))
    case ListDir(path) => "ldir|" + (path + "|" + commit)
    case GetFile(path) => "gfile|" + (path + "|" + commit)
  }

  /** Application labels are Kubernetes names, which have no bar. Paths may have one. */
  predicate Plain(ask: Ask) {
    ask.Manifest? ==> NoBar(ask.app)
  }

  /** The same question, up to the hash of the source and the overrides. */
  predicate Alike(fnv: string -> nat, a: Ask, b: Ask) {
    || a == b
    || (a.Manifest? && b.Manifest? && a.app == b.app && a.space == b.space
        && fnv(a.source + a.overrides) == fnv(b.source + b.overrides))
  }

  lemma {:induction false} SplitFirst(a: string, x: string, b: string, y: string)
    requires NoBar(a) && NoBar(b) && a + "|" + x == b + "|" + y
    ensures a == b && x == y
  {
    var s, t := a + "|" + x, b + "|" + y;
    assert s[|a|] == '|' && t[|b|] == '|';
    assert forall i :: 0 <= i < |a| ==> s[i] == a[i];
    assert forall i :: 0 <= i < |b| ==> t[i] == b[i];
    assert |a| == |b|;
    assert a == s[..|a|] == t[..|b|] == b;
    assert x == s[|a| + 1..] == t[|b| + 1..] == y;
  }

  lemma {:induction false} SplitLast(x: string, a: string, y: string, b: string)
    requires NoBar(a) && NoBar(b) && x + "|" + a == y + "|" + b
    ensures a == b && x == y
  {
    var s, t := x + "|" + a, y + "|" + b;
    assert s[|x|] == '|' && t[|y|] == '|';
    assert forall i :: |x| < i < |s| ==> s[i] == a[i - |x| - 1];
    assert forall i :: |y| < i < |t| ==> t[i] == b[i - |y| - 1];
    assert |x| == |y|;
    assert x == s[..|x|] == t[..|y|] == y;
    assert a == s[|x| + 1..] == t[|y| + 1..] == b;
  }

  /** A key tells what was asked and at which commit. */
  lemma {:induction false} KeyTells(fnv: string -> nat, a: Ask, c: string, b: Ask, d: string)
    requires Plain(a) && Plain(b) && NoBar(c) && NoBar(d) && Key(fnv, a, c) == Key(fnv, b, d)
    ensures c == d && Alike(fnv, a, b)
  {
    hide Decimal;
    var s, t := Key(fnv, a, c), Key(fnv, b, d);
    assert s[0] == t[0];
    match a
    case Manifest(app, space, source, overrides) =>
      var m, n := fnv(source + overrides), fnv(b.source + b.overrides);
      var x, y := space + "|" + Decimal(m), b.space + "|" + Decimal(n);
      assert s[5..] == app + "|" + (c + "|" + x) && t[5..] == b.app + "|" + (d + "|" + y);
      SplitFirst(app, c + "|" + x, b.app, d + "|" + y);
      SplitFirst(c, x, d, y);
      DecimalDigits(m);
      DecimalDigits(n);
      SplitLast(space, Decimal(m), b.space, Decimal(n));
      DecimalInjective(m, n);
    case ListDir(path) =>
      assert s[5..] == path + "|" + c && t[5..] == b.path + "|" + d;
      SplitLast(path, c, b.path, d);
    case GetFile(path) =>
      assert s[6..] == path + "|" + c && t[6..] == b.path + "|" + d;
      SplitLast(path, c, b.path, d);
  }
}
