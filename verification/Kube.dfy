/** Kubernetes objects as Argo CD reads them: a record of the fields that the controller looks at,
    and the lifecycle-hook annotation with the predicates the controller derives from it. */
module Kube {

  datatype Option<+T> = None | Some(value: T)

  datatype ApiVersion = ApiVersion(group: string, version: string)

  /** An object. `controller` is the UID of the controlling owner reference, if there is one, and
      `defines` is the (group, kind) that a CustomResourceDefinition declares. */
  datatype Object = Object(
    api: ApiVersion,
    kind: string,
    name: string,
    generateName: string,
    annotations: map<string, string>,
    uid: string,
    controller: Option<string>,
    defines: Option<(string, string)>)

  datatype HookType = PreSync | Sync | PostSync | Skip

  datatype OperationPhase = Running | Terminating | Failed | Error | Succeeded | Unset
  {
    predicate Completed() { Failed? || Error? || Succeeded? }
  }

  const HOOK_ANNOTATION := "argocd.argoproj.io/hook"
  const DELETE_POLICY_ANNOTATION := "argocd.argoproj.io/hook-delete-policy"
  const HELM_HOOK_ANNOTATION := "helm.sh/hook"

  function TypeName(t: HookType): string {
    match t
    case PreSync => "PreSync"
    case Sync => "Sync"
    case PostSync => "PostSync"
    case Skip => "Skip"
  }

  function Annotation(o: Object, key: string): string {
    if key in o.annotations then o.annotations[key] else ""
  }

  /** The pieces of `s` between separators, as Go's strings.Split gives them. */
  function Split(s: string, sep: char): (parts: seq<string>)
    ensures |parts| > 0
  {
    if s == "" then [""]
    else
      var rest := Split(s[1..], sep);
      if s[0] == sep then [""] + rest else [[s[0]] + rest[0]] + rest[1..]
  }

  lemma {:induction false} SplitPlain(s: string, sep: char)
    requires sep !in s
    ensures Split(s, sep) == [s]
  {
    if s != "" {
      SplitPlain(s[1..], sep);
      assert [s[0]] + s[1..] == s;
    }
  }

  /** White space, as Unicode has it. */
  predicate IsSpace(c: char) {
    || '\t' <= c <= '\r' || c == ' ' || c == 0x85 as char || c == 0xa0 as char || c == 0x1680 as char
    || 0x2000 as char <= c <= 0x200a as char || c == 0x2028 as char || c == 0x2029 as char || c == 0x202f as char
    || c == 0x205f as char || c == 0x3000 as char
  }

  function TrimLeft(s: string): string {
    if s != "" && IsSpace(s[0]) then TrimLeft(s[1..]) else s
  }

  function TrimRight(s: string): string {
    if s != "" && IsSpace(s[|s| - 1]) then TrimRight(s[..|s| - 1]) else s
  }

  function TrimSpace(s: string): string {
    TrimRight(TrimLeft(s))
  }

  /** Whether the comma-separated list holds the item, spaces around items not counting. */
  predicate ListHas(list: string, item: string) {
    exists p :: p in Split(list, ',') && TrimSpace(p) == item
  }

  predicate IsHookType(o: Object, t: HookType) {
    ListHas(Annotation(o, HOOK_ANNOTATION), TypeName(t))
  }

  predicate IsArgoHook(o: Object) {
    IsHookType(o, PreSync) || IsHookType(o, Sync) || IsHookType(o, PostSync)
  }

  predicate IsHelmHook(o: Object) {
    HELM_HOOK_ANNOTATION in o.annotations && !ListHas(o.annotations[HELM_HOOK_ANNOTATION], "crd-install")
  }

  predicate IsHook(o: Object) {
    IsArgoHook(o) || IsHelmHook(o)
  }

  /** Whether the object carries any hook annotation at all, known or not. */
  predicate Annotated(o: Object) {
    Annotation(o, HOOK_ANNOTATION) != ""
  }

  predicate DeletesHook(o: Object, phase: OperationPhase) {
    var policies := Annotation(o, DELETE_POLICY_ANNOTATION);
    || (phase.Succeeded? && ListHas(policies, "HookSucceeded"))
    || (phase.Failed? && ListHas(policies, "HookFailed"))
  }
}
