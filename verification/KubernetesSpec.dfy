/**
 The label index of internal/service/kubernetes_service.go as a value: the apps of each ingress, and
 two indexes derived from them, ix domain and ix app name. What is said of one index is said of both.
 */
module KubernetesSpec {
  import opened Base
  import opened Strings
  import opened Acls

  datatype IngressKey = IngressKey(namespace: string, name: string)

  datatype AppKey = AppKey(key: IngressKey, appName: string)

  datatype IngressApp = IngressApp(domain: string, appName: string, app: App)

  datatype Index = ByDomain | ByName

  type Targets = map<string, AppKey>

  datatype State = State(ingressApps: map<IngressKey, seq<IngressApp>>, domainIndex: Targets, appNameIndex: Targets) {
    function Entries(ix: Index): Targets {
      if ix.ByDomain? then domainIndex else appNameIndex
    }

    function Apps(key: IngressKey): seq<IngressApp> {
      if key in ingressApps then ingressApps[key] else []
    }
  }

  const EMPTY := State(map[], map[], map[])

  function Label(ix: Index, a: IngressApp): string {
    if ix.ByDomain? then a.domain else a.appName
  }

  function Labels(ix: Index, apps: seq<IngressApp>): (labels: set<string>)
    ensures forall x :: x in labels <==> exists a :: a in apps && Label(ix, a) == x
  {
    set a | a in apps :: Label(ix, a)
  }

  lemma LabelsGrow(ix: Index, apps: seq<IngressApp>, a: IngressApp)
    ensures Labels(ix, apps + [a]) == Labels(ix, apps) + {Label(ix, a)}
  {
    assert a in apps + [a];
  }

  // ----- Updates -----

  // The entries written for the apps, in their order; a later app overwrites an earlier one.
  function Write(ix: Index, entries: Targets, key: IngressKey, apps: seq<IngressApp>): Targets {
    if apps == [] then entries
    else
      var last := apps[|apps| - 1];
      Write(ix, entries, key, apps[..|apps| - 1])[Label(ix, last) := AppKey(key, last.appName)]
  }

  // The entries of one index after the apps of an ingress were replaced.
  function Reindexed(ix: Index, s: State, key: IngressKey, apps: seq<IngressApp>): Targets {
    Write(ix, s.Entries(ix) - Labels(ix, s.Apps(key)), key, apps)
  }

  function AddIngressApps(s: State, key: IngressKey, apps: seq<IngressApp>): State {
    State(s.ingressApps[key := apps], Reindexed(ByDomain, s, key, apps), Reindexed(ByName, s, key, apps))
  }

  function RemoveIngress(s: State, key: IngressKey): State {
    State(s.ingressApps - {key}, Reindexed(ByDomain, s, key, []), Reindexed(ByName, s, key, []))
  }

  // An ingress was added, modified or deleted, and now has these apps.
  datatype Event = Update(key: IngressKey, apps: seq<IngressApp>)

  function Next(s: State, e: Event): State {
    if e.apps == [] then RemoveIngress(s, e.key) else AddIngressApps(s, e.key, e.apps)
  }

  function After(s: State, events: seq<Event>): State {
    if events == [] then s else Next(After(s, events[..|events| - 1]), events[|events| - 1])
  }

  // ----- Lookups -----

  // A name entry is followed by name alone, a domain entry by domain and name.
  predicate Fits(ix: Index, x: string, target: AppKey, a: IngressApp) {
    Label(ix, a) == x && (ix.ByDomain? ==> a.appName == target.appName)
  }

  function First(ix: Index, x: string, target: AppKey, apps: seq<IngressApp>): (r: Option<App>)
    ensures r.None? <==> forall a :: a in apps ==> !Fits(ix, x, target, a)
    ensures r.Some? ==> exists a :: a in apps && Fits(ix, x, target, a) && a.app == r.value
  {
    if apps == [] then None
    else if Fits(ix, x, target, apps[0]) then Some(apps[0].app)
    else First(ix, x, target, apps[1..])
  }

  function Lookup(s: State, ix: Index, x: string): Option<App> {
    if x !in s.Entries(ix) then None
    else First(ix, x, s.Entries(ix)[x], s.Apps(s.Entries(ix)[x].key))
  }

  function FirstLabel(domain: string): string {
    Split(domain, '.')[0]
  }

  function GetLabels(started: bool, s: State, domain: string): Option<App> {
    if !started then None
    else
      var app := Lookup(s, ByDomain, domain);
      if app.Some? then app else Lookup(s, ByName, FirstLabel(domain))
  }

  // The part of a domain before its first dot.
  lemma FirstLabelExactly(first: string, rest: string)
    requires '.' !in first
    ensures FirstLabel(first) == first && FirstLabel(first + "." + rest) == first
  {
    SplitPiece(first, '.');
    SplitFirst(first, '.', rest);
    assert first + ['.'] + rest == first + "." + rest;
  }

  // ----- Ingress objects -----

  // hosts and labels are None when they cannot be read.
  datatype Item = Item(key: IngressKey, annotated: bool, hosts: Option<seq<string>>, labels: Option<map<string, App>>)

  predicate Accepted(item: Item, name: string) {
    && item.annotated && item.hosts.Some? && item.labels.Some? && name in item.labels.value
    && var domain := item.labels.value[name].domain;
       domain != "" && (item.hosts.value == [] || domain in item.hosts.value)
  }

  // The apps of an ingress object, in one of the orders a Go map may be read.
  ghost predicate Lists(item: Item, apps: seq<IngressApp>) {
    && (forall a :: a in apps ==>
         Accepted(item, a.appName) && a.app == item.labels.value[a.appName] && a.domain == a.app.domain)
    && (forall name :: Accepted(item, name) ==> exists a :: a in apps && a.appName == name)
    && (forall i, j :: 0 <= i < j < |apps| ==> apps[i].appName != apps[j].appName)
  }
}
