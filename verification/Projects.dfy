/** Projects, the applications that refer to them, and what an update of a project may take away. */
module Projects {

  const DEFAULT := "default"

  datatype Destination = Destination(server: string, space: string)

  datatype Project = Project(destinations: seq<Destination>, repos: seq<string>)

  datatype App = App(project: string, destination: Destination, repo: string)

  function ProjectOf(a: App): string {
    if a.project == "" then DEFAULT else a.project
  }

  function DestinationKey(d: Destination): string {
    d.server + "/" + d.space
  }

  // ---------------------------------------------------------------------------------------------
  // What an update takes away
  // ---------------------------------------------------------------------------------------------

  ghost predicate ListsDestination(p: Project, key: string) {
    exists i :: 0 <= i < |p.destinations| && DestinationKey(p.destinations[i]) == key
  }

  ghost predicate ListsRepo(p: Project, repo: string) {
    repo in p.repos
  }

  method DestinationsByKey(ds: seq<Destination>) returns (m: map<string, Destination>)
    ensures forall key :: key in m <==> exists i :: 0 <= i < |ds| && DestinationKey(ds[i]) == key
  {
    m := map[];
    for i := 0 to |ds|
      invariant forall key :: key in m <==> exists j :: 0 <= j < i && DestinationKey(ds[j]) == key
    {
      m := m[DestinationKey(ds[i]) := ds[i]];
    }
  }

  method GetRemovedDestination(before: Project, after: Project) returns (removed: map<string, Destination>)
    ensures forall key :: key in removed <==> ListsDestination(before, key) && !ListsDestination(after, key)
  {
    hide DestinationKey;
    var listed := DestinationsByKey(before.destinations);
    var kept := DestinationsByKey(after.destinations);
    removed := map[];
    var todo := listed.Keys;
    while todo != {}
      invariant todo <= listed.Keys
      invariant forall key :: key in removed <==> key in listed && key !in kept && key !in todo
    {
      var key :| key in todo;
      todo := todo - {key};
      if key !in kept {
        removed := removed[key := listed[key]];
      }
    }
  }

  method GetRemovedSources(before: Project, after: Project) returns (removed: set<string>)
    ensures forall repo :: repo in removed <==> ListsRepo(before, repo) && !ListsRepo(after, repo)
  {
    var listed, kept: set<string> := {}, {};
    for i := 0 to |before.repos|
      invariant forall repo :: repo in listed <==> repo in before.repos[..i]
    {
      listed := listed + {before.repos[i]};
    }
    for i := 0 to |after.repos|
      invariant forall repo :: repo in kept <==> repo in after.repos[..i]
    {
      kept := kept + {after.repos[i]};
    }
    removed := {};
    var todo := listed;
    while todo != {}
      invariant todo <= listed
      invariant forall repo :: repo in removed <==> repo in listed && repo !in kept && repo !in todo
    {
      var repo :| repo in todo;
      todo := todo - {repo};
      if repo !in kept {
        removed := removed + {repo};
      }
    }
  }

  /** The update leaves the application what it had: a listed destination or repository that it uses stays listed. */
  ghost predicate Keeps(before: Project, after: Project, a: App) {
    && (ListsDestination(before, DestinationKey(a.destination)) ==>
          ListsDestination(after, DestinationKey(a.destination)))
    && (ListsRepo(before, a.repo) ==> ListsRepo(after, a.repo))
  }

  ghost predicate KeepsAll(name: string, before: Project, after: Project, apps: map<string, App>) {
    forall k :: k in apps && ProjectOf(apps[k]) == name ==> Keeps(before, after, apps[k])
  }

  /** The check of an update: accepted exactly if it leaves every application of the project what it had. */
  method MayUpdate(name: string, before: Project, after: Project, apps: map<string, App>) returns (ok: bool)
    ensures ok <==> KeepsAll(name, before, after, apps)
  {
    hide DestinationKey, ListsDestination, ListsRepo;
    var destinations := GetRemovedDestination(before, after);
    var repos := GetRemovedSources(before, after);
    ok := true;
    var todo := apps.Keys;
    while todo != {}
      invariant todo <= apps.Keys
      invariant ok <==>
        forall k :: k in apps && k !in todo && ProjectOf(apps[k]) == name ==> Keeps(before, after, apps[k])
    {
      var k :| k in todo;
      todo := todo - {k};
      if ProjectOf(apps[k]) == name {
        if DestinationKey(apps[k].destination) in destinations { ok := false; }
        if apps[k].repo in repos { ok := false; }
      }
    }
  }

  /** What an update must not take away, without the keys: the destination and the repository of the application, if
      they were listed. */
  lemma {:induction false} KeepsMeans(before: Project, after: Project, a: App)
    requires '/' !in a.destination.space
    requires forall d :: d in before.destinations || d in after.destinations ==> '/' !in d.space
    ensures Keeps(before, after, a) <==>
            && (a.destination in before.destinations ==> a.destination in after.destinations)
            && (a.repo in before.repos ==> a.repo in after.repos)
  {
    hide DestinationKey;
    ListsMeans(before, a.destination);
    ListsMeans(after, a.destination);
  }

  lemma {:induction false} ListsMeans(p: Project, d: Destination)
    requires '/' !in d.space && forall e :: e in p.destinations ==> '/' !in e.space
    ensures ListsDestination(p, DestinationKey(d)) <==> d in p.destinations
  {
    hide DestinationKey;
    if i :| 0 <= i < |p.destinations| && DestinationKey(p.destinations[i]) == DestinationKey(d) {
      KeyIsDestination(p.destinations[i], d);
    }
  }

  /** Namespaces have no slash, so a key stands for one destination. */
  lemma {:induction false} KeyIsDestination(d: Destination, e: Destination)
    requires '/' !in d.space && '/' !in e.space && DestinationKey(d) == DestinationKey(e)
    ensures d == e
  {
    var s, t := DestinationKey(d), DestinationKey(e);
    assert s[|d.server|] == '/' && t[|e.server|] == '/';
    assert forall i :: |d.server| < i < |s| ==> s[i] == d.space[i - |d.server| - 1];
    assert forall i :: |e.server| < i < |t| ==> t[i] == e.space[i - |e.server| - 1];
    assert |d.server| == |e.server|;
    assert d.server == s[..|d.server|] == t[..|e.server|] == e.server;
    assert d.space == s[|d.server| + 1..] == t[|e.server| + 1..] == e.space;
  }
}
