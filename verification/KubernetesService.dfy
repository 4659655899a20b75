/** internal/service/kubernetes_service.go: the three maps of the label index updated in place. */
module KubernetesServices {
  import opened Base
  import opened Acls
  import opened KubernetesSpec

  lemma DeleteOneMore(ix: Index, entries: Targets, apps: seq<IngressApp>, a: IngressApp)
    ensures entries - Labels(ix, apps + [a]) == entries - Labels(ix, apps) - {Label(ix, a)}
  {
    LabelsGrow(ix, apps, a);
  }

  class KubernetesService {
    var started: bool
    var ingressApps: map<IngressKey, seq<IngressApp>>
    var domainIndex: Targets
    var appNameIndex: Targets

    ghost function State(): State
      reads this
    {
      KubernetesSpec.State(ingressApps, domainIndex, appNameIndex)
    }

    constructor ()
      ensures started && State() == EMPTY
    {
      ingressApps, domainIndex, appNameIndex := map[], map[], map[];
      started := true;
    }

    lemma NoLabels()
      ensures domainIndex - Labels(ByDomain, []) == domainIndex && appNameIndex - Labels(ByName, []) == appNameIndex
    {
    }

    // Takes the labels of the apps off both indexes.
    method DeleteLabels(apps: seq<IngressApp>)
      modifies this`domainIndex, this`appNameIndex
      ensures domainIndex == old(domainIndex) - Labels(ByDomain, apps)
      ensures appNameIndex == old(appNameIndex) - Labels(ByName, apps)
    {
      var i := 0;
      NoLabels();
      while i < |apps|
        invariant 0 <= i <= |apps|
        invariant domainIndex == old(domainIndex) - Labels(ByDomain, apps[..i])
        invariant appNameIndex == old(appNameIndex) - Labels(ByName, apps[..i])
      {
        assert apps[..i + 1] == apps[..i] + [apps[i]];
        DeleteOneMore(ByDomain, old(domainIndex), apps[..i], apps[i]);
        DeleteOneMore(ByName, old(appNameIndex), apps[..i], apps[i]);
        domainIndex := domainIndex - {apps[i].domain};
        appNameIndex := appNameIndex - {apps[i].appName};
        i := i + 1;
      }
      assert apps[..i] == apps;
    }

    method WriteLabels(key: IngressKey, apps: seq<IngressApp>)
      modifies this`domainIndex, this`appNameIndex
      ensures domainIndex == Write(ByDomain, old(domainIndex), key, apps)
      ensures appNameIndex == Write(ByName, old(appNameIndex), key, apps)
    {
      var i := 0;
      while i < |apps|
        invariant 0 <= i <= |apps|
        invariant domainIndex == Write(ByDomain, old(domainIndex), key, apps[..i])
        invariant appNameIndex == Write(ByName, old(appNameIndex), key, apps[..i])
      {
        assert apps[..i + 1][..i] == apps[..i];
        var appKey := AppKey(key, apps[i].appName);
        domainIndex := domainIndex[apps[i].domain := appKey];
        appNameIndex := appNameIndex[apps[i].appName := appKey];
        i := i + 1;
      }
      assert apps[..i] == apps;
    }

    method AddIngressApps(key: IngressKey, apps: seq<IngressApp>)
      modifies this
      ensures State() == KubernetesSpec.AddIngressApps(old(State()), key, apps) && started == old(started)
    {
      NoLabels();
      if key in ingressApps {
        DeleteLabels(ingressApps[key]);
      }
      ingressApps := ingressApps[key := apps];
      WriteLabels(key, apps);
    }

    method RemoveIngress(key: IngressKey)
      modifies this
      ensures State() == KubernetesSpec.RemoveIngress(old(State()), key) && started == old(started)
    {
      NoLabels();
      if key in ingressApps {
        DeleteLabels(ingressApps[key]);
      }
      ingressApps := ingressApps - {key};
    }

    method GetByDomain(domain: string) returns (found: Option<App>)
      ensures found == Lookup(State(), ByDomain, domain)
    {
      if domain in domainIndex {
        var appKey := domainIndex[domain];
        if appKey.key in ingressApps {
          var apps, i := ingressApps[appKey.key], 0;
          while i < |apps|
            invariant 0 <= i <= |apps|
            invariant First(ByDomain, domain, appKey, apps) == First(ByDomain, domain, appKey, apps[i..])
          {
            if apps[i].domain == domain && apps[i].appName == appKey.appName {
              return Some(apps[i].app);
            }
            i := i + 1;
          }
        }
      }
      return None;
    }

    method GetByAppName(appName: string) returns (found: Option<App>)
      ensures found == Lookup(State(), ByName, appName)
    {
      if appName in appNameIndex {
        var appKey := appNameIndex[appName];
        if appKey.key in ingressApps {
          var apps, i := ingressApps[appKey.key], 0;
          while i < |apps|
            invariant 0 <= i <= |apps|
            invariant First(ByName, appName, appKey, apps) == First(ByName, appName, appKey, apps[i..])
          {
            if apps[i].appName == appName {
              return Some(apps[i].app);
            }
            i := i + 1;
          }
        }
      }
      return None;
    }

    // The labels are a Go map: they are visited in any order.
    method AcceptedApps(item: Item) returns (apps: seq<IngressApp>)
      requires item.annotated && item.hosts.Some? && item.labels.Some?
      ensures Lists(item, apps)
      ensures forall name :: name in Labels(ByName, apps) <==>
                && name in item.labels.value && item.labels.value[name].domain != ""
                && (item.hosts.value == [] || item.labels.value[name].domain in item.hosts.value)
    {
      apps := [];
      var labels := item.labels.value;
      var unvisited := labels.Keys;
      while unvisited != {}
        invariant unvisited <= labels.Keys
        invariant forall a :: a in apps ==>
                    && a.appName in labels && a.appName !in unvisited && Accepted(item, a.appName)
                    && a.app == labels[a.appName] && a.domain == a.app.domain
        invariant forall name :: Accepted(item, name) && name !in unvisited ==>
                    exists a :: a in apps && a.appName == name
        invariant forall i, j :: 0 <= i < j < |apps| ==> apps[i].appName != apps[j].appName
      {
        var appName :| appName in unvisited;
        unvisited := unvisited - {appName};
        var app := labels[appName];
        if app.domain != "" && (|item.hosts.value| == 0 || app.domain in item.hosts.value) {
          var listed := IngressApp(app.domain, appName, app);
          ghost var before := apps;
          apps := apps + [listed];
          assert listed in apps && forall a :: a in before ==> a in apps;
        }
      }
      forall name
        ensures name in Labels(ByName, apps) <==> Accepted(item, name)
      {
        if Accepted(item, name) {
          var a :| a in apps && a.appName == name;
          assert Label(ByName, a) == name;
        }
      }
    }

    // e is what the object amounts to.
    method UpdateFromItem(item: Item) returns (ghost e: Event)
      modifies this
      ensures e.key == item.key && Lists(item, e.apps)
      ensures State() == Next(old(State()), e) && started == old(started)
    {
      e := Update(item.key, []);
      if !item.annotated || item.hosts.None? || item.labels.None? {
        RemoveIngress(item.key);
        return;
      }
      var apps := AcceptedApps(item);
      e := Update(item.key, apps);
      if |apps| == 0 {
        RemoveIngress(item.key);
      } else {
        AddIngressApps(item.key, apps);
      }
    }

    // items is None when the list cannot be fetched.
    method ResyncGVR(items: Option<seq<Item>>) returns (listed: bool, ghost events: seq<Event>)
      modifies this
      ensures listed <==> items.Some?
      ensures State() == After(old(State()), events) && started == old(started)
      ensures |events| == (if listed then |items.value| else 0)
      ensures forall i :: 0 <= i < |events| ==>
                events[i].key == items.value[i].key && Lists(items.value[i], events[i].apps)
    {
      events := [];
      if items.None? {
        return false, events;
      }
      var i := 0;
      while i < |items.value|
        invariant 0 <= i == |events| <= |items.value|
        invariant State() == After(old(State()), events) && started == old(started)
        invariant forall j :: 0 <= j < i ==>
                    events[j].key == items.value[j].key && Lists(items.value[j], events[j].apps)
      {
        ghost var e := UpdateFromItem(items.value[i]);
        assert (events + [e])[..i] == events;
        events := events + [e];
        i := i + 1;
      }
      listed := true;
    }

    method GetLabels(appDomain: string) returns (found: Option<App>)
      ensures found == KubernetesSpec.GetLabels(started, State(), appDomain)
    {
      if !started {
        return None;
      }
      found := GetByDomain(appDomain);
      if found.Some? {
        return;
      }
      found := GetByAppName(FirstLabel(appDomain));
    }
  }
}
