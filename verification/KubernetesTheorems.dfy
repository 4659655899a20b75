/** When the label index resolves what is stored, and how a resync repairs it. */
module KubernetesTheorems {
  import opened Base
  import opened Acls
  import opened KubernetesSpec

  // ----- What a write does to one entry -----

  lemma {:induction false} WriteEntries(ix: Index, entries: Targets, key: IngressKey, apps: seq<IngressApp>, x: string)
    ensures var written := Write(ix, entries, key, apps);
            if x in Labels(ix, apps) then
              x in written && written[x].key == key && exists a :: a in apps && Fits(ix, x, written[x], a)
            else (x in written <==> x in entries) && (x in entries ==> written[x] == entries[x])
  {
    if apps != [] {
      var init, last := apps[..|apps| - 1], apps[|apps| - 1];
      assert apps == init + [last];
      WriteEntries(ix, entries, key, init, x);
      LabelsGrow(ix, init, last);
      if x == Label(ix, last) {
        assert last in apps && Fits(ix, x, AppKey(key, last.appName), last);
      }
    }
  }

  // The event lists the label; the event takes the label off the index first.
  predicate Claims(ix: Index, e: Event, x: string) {
    x in Labels(ix, e.apps)
  }

  predicate Drops(ix: Index, s: State, e: Event, x: string) {
    x in Labels(ix, s.Apps(e.key))
  }

  lemma NextEntries(ix: Index, s: State, e: Event, x: string)
    ensures var (before, after) := (s.Entries(ix), Next(s, e).Entries(ix));
            if Claims(ix, e, x) then
              x in after && after[x].key == e.key && exists a :: a in e.apps && Fits(ix, x, after[x], a)
            else (x in after <==> x in before && !Drops(ix, s, e, x)) && (x in after ==> after[x] == before[x])
  {
    WriteEntries(ix, s.Entries(ix) - Labels(ix, s.Apps(e.key)), e.key, e.apps, x);
  }

  lemma NextApps(s: State, e: Event, key: IngressKey)
    ensures Next(s, e).Apps(key) == if key == e.key then e.apps else s.Apps(key)
  {
  }

  // ----- An exact account of what resolves -----

  predicate Resolves(s: State, ix: Index, x: string) {
    Lookup(s, ix, x).Some?
  }

  // Whatever is found is stored under the label asked for.
  lemma FoundIsStored(s: State, ix: Index, x: string)
    requires Resolves(s, ix, x)
    ensures exists key, a :: a in s.Apps(key) && Label(ix, a) == x && a.app == Lookup(s, ix, x).value
  {
    var target := s.Entries(ix)[x];
    var a :| a in s.Apps(target.key) && Fits(ix, x, target, a) && a.app == Lookup(s, ix, x).value;
  }

  /** In any state, broken or not, a label resolves after an update exactly when it is claimed, or did and is kept. */
  lemma ResolvesNext(s: State, e: Event, ix: Index, x: string)
    ensures Resolves(Next(s, e), ix, x) <==> Claims(ix, e, x) || (Resolves(s, ix, x) && !Drops(ix, s, e, x))
  {
    NextEntries(ix, s, e, x);
    var t := Next(s, e);
    if x in t.Entries(ix) {
      NextApps(s, e, t.Entries(ix)[x].key);
    }
    if x in s.Entries(ix) {
      NextApps(s, e, s.Entries(ix)[x].key);
    }
  }

  // ----- Which app is found -----

  // The last app of the list that has the label; it is the one that wrote the entry.
  predicate LastWith(ix: Index, apps: seq<IngressApp>, x: string, i: nat) {
    i < |apps| && Label(ix, apps[i]) == x && forall j :: i < j < |apps| ==> Label(ix, apps[j]) != x
  }

  ghost predicate DistinctNames(apps: seq<IngressApp>) {
    forall i, j :: 0 <= i < j < |apps| ==> apps[i].appName != apps[j].appName
  }

  lemma {:induction false} WrittenByLast(ix: Index, entries: Targets, key: IngressKey, apps: seq<IngressApp>, x: string)
    returns (i: nat)
    requires x in Labels(ix, apps)
    ensures LastWith(ix, apps, x, i)
    ensures x in Write(ix, entries, key, apps) && Write(ix, entries, key, apps)[x] == AppKey(key, apps[i].appName)
  {
    var init, last := apps[..|apps| - 1], apps[|apps| - 1];
    assert apps == init + [last];
    LabelsGrow(ix, init, last);
    if Label(ix, last) == x {
      i := |apps| - 1;
    } else {
      i := WrittenByLast(ix, entries, key, init, x);
    }
  }

  lemma {:induction false} FirstIsIt(ix: Index, x: string, target: AppKey, apps: seq<IngressApp>, i: nat)
    requires i < |apps| && Label(ix, apps[i]) == x && apps[i].appName == target.appName && DistinctNames(apps)
    requires ix.ByName? ==> x == target.appName
    ensures First(ix, x, target, apps) == Some(apps[i].app)
  {
    if i > 0 {
      assert apps[0].appName != apps[i].appName;
      assert apps[1..][i - 1] == apps[i];
      FirstIsIt(ix, x, target, apps[1..], i - 1);
    }
  }

  /**
   After an update with distinctly named apps, in any state, a label that it claims leads to the last app that has
   it; a label that it only drops leads nowhere; any other leads where it led.
   */
  lemma LookupNext(s: State, e: Event, ix: Index, x: string)
    requires DistinctNames(e.apps)
    ensures var found := Lookup(Next(s, e), ix, x);
            if Claims(ix, e, x) then exists i: nat :: LastWith(ix, e.apps, x, i) && found == Some(e.apps[i].app)
            else found == if Drops(ix, s, e, x) then None else Lookup(s, ix, x)
  {
    NextEntries(ix, s, e, x);
    var t := Next(s, e);
    if Claims(ix, e, x) {
      var i := WrittenByLast(ix, s.Entries(ix) - Labels(ix, s.Apps(e.key)), e.key, e.apps, x);
      NextApps(s, e, e.key);
      FirstIsIt(ix, x, t.Entries(ix)[x], e.apps, i);
    } else if x in s.Entries(ix) && !Drops(ix, s, e, x) {
      NextApps(s, e, s.Entries(ix)[x].key);
      KeptTarget(s, e, ix, x);
    }
  }

  // An entry of the updated ingress that was neither claimed nor dropped found nothing, and still finds nothing.
  lemma KeptTarget(s: State, e: Event, ix: Index, x: string)
    requires x in s.Entries(ix) && !Claims(ix, e, x) && !Drops(ix, s, e, x)
    ensures var target := s.Entries(ix)[x];
            First(ix, x, target, Next(s, e).Apps(target.key)) == First(ix, x, target, s.Apps(target.key))
  {
    NextApps(s, e, s.Entries(ix)[x].key);
  }

  // ----- Every reachable state -----

  // No entry of an index dangles.
  ghost predicate Sound(s: State, ix: Index) {
    forall x :: x in s.Entries(ix) ==> Resolves(s, ix, x)
  }

  lemma NextSound(s: State, e: Event, ix: Index)
    requires Sound(s, ix)
    ensures Sound(Next(s, e), ix)
  {
    forall x | x in Next(s, e).Entries(ix)
      ensures Resolves(Next(s, e), ix, x)
    {
      NextEntries(ix, s, e, x);
      ResolvesNext(s, e, ix, x);
    }
  }

  /** In every reachable state each index entry leads to a stored app with that domain or name. */
  lemma {:induction false} NothingDangles(events: seq<Event>, ix: Index, x: string)
    ensures var s := After(EMPTY, events);
            Sound(s, ix) && (x in s.Entries(ix) ==>
              exists key, a :: a in s.Apps(key) && Label(ix, a) == x && Lookup(s, ix, x) == Some(a.app))
  {
    if events != [] {
      NothingDangles(events[..|events| - 1], ix, x);
      NextSound(After(EMPTY, events[..|events| - 1]), events[|events| - 1], ix);
    }
    if x in After(EMPTY, events).Entries(ix) {
      FoundIsStored(After(EMPTY, events), ix, x);
    }
  }

  ghost predicate Stored(s: State, ix: Index, x: string) {
    exists key :: x in Labels(ix, s.Apps(key))
  }

  // No two stored ingresses share a domain or an app name.
  ghost predicate Disjoint(s: State) {
    forall ix: Index, j: IngressKey, k: IngressKey, x: string ::
      x in Labels(ix, s.Apps(j)) && x in Labels(ix, s.Apps(k)) ==> j == k
  }

  ghost predicate NeverShared(events: seq<Event>) {
    forall n :: 0 <= n <= |events| ==> Disjoint(After(EMPTY, events[..n]))
  }

  lemma NextComplete(s: State, e: Event, ix: Index, x: string)
    requires Disjoint(s) && (Stored(s, ix, x) ==> Resolves(s, ix, x))
    ensures Stored(Next(s, e), ix, x) ==> Resolves(Next(s, e), ix, x)
  {
    ResolvesNext(s, e, ix, x);
    if Stored(Next(s, e), ix, x) {
      var key :| x in Labels(ix, Next(s, e).Apps(key));
      NextApps(s, e, key);
    }
  }

  /** As long as no two ingresses share a label, a lookup succeeds exactly when a scan of what is stored does. */
  lemma {:induction false} LookupIsScan(events: seq<Event>, ix: Index, x: string)
    requires NeverShared(events)
    ensures var s := After(EMPTY, events);
            Resolves(s, ix, x) <==> Stored(s, ix, x)
  {
    var s := After(EMPTY, events);
    if Resolves(s, ix, x) {
      FoundIsStored(s, ix, x);
    }
    if events == [] {
      assert !Stored(s, ix, x);
    } else {
      var init := events[..|events| - 1];
      forall n | 0 <= n <= |init|
        ensures Disjoint(After(EMPTY, init[..n]))
      {
        assert init[..n] == events[..n];
      }
      LookupIsScan(init, ix, x);
      assert init == events[..|init|];
      NextComplete(After(EMPTY, init), events[|events| - 1], ix, x);
    }
  }

  /** Then GetLabels finds an app with the domain, and failing that one named like its first label. */
  lemma GetLabelsIsScan(events: seq<Event>, domain: string)
    requires NeverShared(events)
    ensures GetLabels(false, After(EMPTY, events), domain) == None
    ensures var s := After(EMPTY, events);
            var found := GetLabels(true, s, domain);
            && (found.Some? <==> Stored(s, ByDomain, domain) || Stored(s, ByName, FirstLabel(domain)))
            && (found.Some? ==>
                 exists key, a :: a in s.Apps(key) && found == Some(a.app) &&
                   if Stored(s, ByDomain, domain) then a.domain == domain else a.appName == FirstLabel(domain))
  {
    var s := After(EMPTY, events);
    LookupIsScan(events, ByDomain, domain);
    LookupIsScan(events, ByName, FirstLabel(domain));
    if Resolves(s, ByDomain, domain) {
      FoundIsStored(s, ByDomain, domain);
      var key, a :| a in s.Apps(key) && Label(ByDomain, a) == domain && a.app == Lookup(s, ByDomain, domain).value;
      assert a.domain == domain;
    } else if Resolves(s, ByName, FirstLabel(domain)) {
      FoundIsStored(s, ByName, FirstLabel(domain));
      var key, a :| a in s.Apps(key) && Label(ByName, a) == FirstLabel(domain)
                    && a.app == Lookup(s, ByName, FirstLabel(domain)).value;
      assert a.appName == FirstLabel(domain);
    }
  }

  // ----- Resync -----

  ghost predicate DistinctKeys(events: seq<Event>) {
    forall i, j :: 0 <= i < j < |events| ==> events[i].key != events[j].key
  }

  lemma {:induction false} AfterApps(s: State, events: seq<Event>, key: IngressKey)
    requires forall e :: e in events ==> e.key != key
    ensures After(s, events).Apps(key) == s.Apps(key)
  {
    if events != [] {
      AfterApps(s, events[..|events| - 1], key);
      NextApps(After(s, events[..|events| - 1]), events[|events| - 1], key);
    }
  }

  lemma {:induction false} PassStores(s: State, events: seq<Event>, i: nat)
    requires DistinctKeys(events) && i < |events|
    ensures After(s, events).Apps(events[i].key) == events[i].apps
  {
    var init, last := events[..|events| - 1], events[|events| - 1];
    NextApps(After(s, init), last, events[i].key);
    if i < |init| {
      PassStores(s, init, i);
    }
  }

  // Some event claims the label, and none after it belongs to an ingress that had the label before the pass.
  ghost predicate ClaimedForGood(s: State, events: seq<Event>, ix: Index, x: string) {
    exists i :: 0 <= i < |events| && Claims(ix, events[i], x)
                && forall j :: i < j < |events| ==> !Drops(ix, s, events[j], x)
  }

  ghost predicate Claimed(events: seq<Event>, ix: Index, x: string) {
    exists i :: 0 <= i < |events| && Claims(ix, events[i], x)
  }

  ghost predicate Untouched(s: State, events: seq<Event>, ix: Index, x: string) {
    Resolves(s, ix, x) && forall e :: e in events ==> !Drops(ix, s, e, x)
  }

  lemma ClaimedForGoodNext(s: State, init: seq<Event>, last: Event, ix: Index, x: string)
    ensures ClaimedForGood(s, init + [last], ix, x) <==>
            Claims(ix, last, x) || (ClaimedForGood(s, init, ix, x) && !Drops(ix, s, last, x))
  {
    var events := init + [last];
    if Claims(ix, last, x) {
      assert Claims(ix, events[|init|], x);
    }
    if ClaimedForGood(s, init, ix, x) && !Drops(ix, s, last, x) {
      var i :| 0 <= i < |init| && Claims(ix, init[i], x) && forall j :: i < j < |init| ==> !Drops(ix, s, init[j], x);
      assert Claims(ix, events[i], x);
    }
    if ClaimedForGood(s, events, ix, x) && !Claims(ix, last, x) {
      var i :| && 0 <= i < |events| && Claims(ix, events[i], x)
               && forall j :: i < j < |events| ==> !Drops(ix, s, events[j], x);
      assert i < |init| && Claims(ix, init[i], x);
      assert !Drops(ix, s, events[|init|], x);
      forall j | i < j < |init|
        ensures !Drops(ix, s, init[j], x)
      {
        assert !Drops(ix, s, events[j], x);
      }
    }
  }

  lemma UntouchedNext(s: State, init: seq<Event>, last: Event, ix: Index, x: string)
    ensures Untouched(s, init + [last], ix, x) <==> Untouched(s, init, ix, x) && !Drops(ix, s, last, x)
  {
    assert last in init + [last];
  }

  lemma PassStep(s: State, init: seq<Event>, last: Event, ix: Index, x: string)
    requires DistinctKeys(init + [last])
    ensures Resolves(Next(After(s, init), last), ix, x) <==>
            Claims(ix, last, x) || (Resolves(After(s, init), ix, x) && !Drops(ix, s, last, x))
  {
    ResolvesNext(After(s, init), last, ix, x);
    forall e | e in init
      ensures e.key != last.key
    {
      var i :| 0 <= i < |init| && init[i] == e;
      assert (init + [last])[i] == e && (init + [last])[|init|] == last;
    }
    AfterApps(s, init, last.key);
  }

  /** After one pass over distinct ingresses, from any state, exactly what is claimed for good or untouched resolves. */
  lemma {:induction false} OnePassExactly(s: State, events: seq<Event>, ix: Index, x: string)
    requires DistinctKeys(events)
    ensures Resolves(After(s, events), ix, x) <==> ClaimedForGood(s, events, ix, x) || Untouched(s, events, ix, x)
  {
    if events != [] {
      var init, last := events[..|events| - 1], events[|events| - 1];
      assert events == init + [last];
      OnePassExactly(s, init, ix, x);
      PassStep(s, init, last, ix, x);
      ClaimedForGoodNext(s, init, last, ix, x);
      UntouchedNext(s, init, last, ix, x);
    }
  }

  // What a label index can see of a list of apps.
  ghost predicate SameLabels(a: seq<IngressApp>, b: seq<IngressApp>) {
    forall ix: Index :: Labels(ix, a) == Labels(ix, b)
  }

  // The ingresses of a list, at their second reading: each claims the labels it is stored with.
  ghost predicate Settled(s: State, events: seq<Event>) {
    forall e :: e in events ==> SameLabels(s.Apps(e.key), e.apps)
  }

  lemma {:induction false} LastClaim(s: State, events: seq<Event>, ix: Index, x: string)
    requires Settled(s, events) && Claimed(events, ix, x)
    ensures ClaimedForGood(s, events, ix, x)
  {
    var init, last := events[..|events| - 1], events[|events| - 1];
    assert events == init + [last];
    assert SameLabels(s.Apps(last.key), last.apps);
    if !Claims(ix, last, x) {
      var i :| 0 <= i < |events| && Claims(ix, events[i], x);
      assert i < |init| && Claims(ix, init[i], x);
      LastClaim(s, init, ix, x);
    }
    ClaimedForGoodNext(s, init, last, ix, x);
  }

  // The same ingresses were read twice, each time in some order of its own.
  ghost predicate SameList(first: seq<Event>, second: seq<Event>) {
    forall e :: e in second ==>
      exists i :: 0 <= i < |first| && first[i].key == e.key && SameLabels(first[i].apps, e.apps)
  }

  lemma FirstPassSettles(s: State, first: seq<Event>, second: seq<Event>)
    requires DistinctKeys(first) && SameList(first, second)
    ensures Settled(After(s, first), second)
  {
    forall e | e in second
      ensures SameLabels(After(s, first).Apps(e.key), e.apps)
    {
      var i :| 0 <= i < |first| && first[i].key == e.key && SameLabels(first[i].apps, e.apps);
      PassStores(s, first, i);
    }
  }

  /**
   Resync heals: from any state of the index, however broken, after a list of ingresses was processed
   twice every domain and app name that one of them claims resolves to a stored app that has it.
   */
  lemma ResyncHeals(s: State, first: seq<Event>, second: seq<Event>, ix: Index, x: string)
    requires DistinctKeys(first) && DistinctKeys(second) && SameList(first, second)
    requires Claimed(second, ix, x)
    ensures var t := After(After(s, first), second);
            && Resolves(t, ix, x)
            && exists key, a :: a in t.Apps(key) && Label(ix, a) == x && Lookup(t, ix, x) == Some(a.app)
  {
    FirstPassSettles(s, first, second);
    LastClaim(After(s, first), second, ix, x);
    OnePassExactly(After(s, first), second, ix, x);
    FoundIsStored(After(After(s, first), second), ix, x);
  }

  // ----- Objects instead of events -----

  lemma ListingLabels(item: Item, a: seq<IngressApp>, b: seq<IngressApp>)
    requires Lists(item, a) && Lists(item, b)
    ensures SameLabels(a, b)
  {
    ListingWithin(item, a, b);
    ListingWithin(item, b, a);
  }

  lemma ListingWithin(item: Item, a: seq<IngressApp>, b: seq<IngressApp>)
    requires Lists(item, a) && Lists(item, b)
    ensures forall ix: Index :: Labels(ix, a) <= Labels(ix, b)
  {
    forall x | x in a
      ensures x in b
    {
      var y :| y in b && y.appName == x.appName;
    }
  }

  ghost predicate Reads(items: seq<Item>, events: seq<Event>) {
    && |events| == |items|
    && forall i :: 0 <= i < |items| ==> events[i].key == items[i].key && Lists(items[i], events[i].apps)
  }

  ghost predicate DistinctItems(items: seq<Item>) {
    forall i, j :: 0 <= i < j < |items| ==> items[i].key != items[j].key
  }

  lemma ReadingsAgree(items: seq<Item>, first: seq<Event>, second: seq<Event>)
    requires DistinctItems(items) && Reads(items, first) && Reads(items, second)
    ensures DistinctKeys(first) && DistinctKeys(second) && SameList(first, second)
  {
    forall e | e in second
      ensures exists k :: 0 <= k < |first| && first[k].key == e.key && SameLabels(first[k].apps, e.apps)
    {
      var k :| 0 <= k < |second| && second[k] == e;
      ListingLabels(items[k], first[k].apps, second[k].apps);
    }
  }

  lemma AcceptedIsClaimed(items: seq<Item>, events: seq<Event>, i: nat, name: string)
    requires Reads(items, events) && i < |items| && Accepted(items[i], name)
    ensures Claimed(events, ByName, name) && Claimed(events, ByDomain, items[i].labels.value[name].domain)
  {
    var a :| a in events[i].apps && a.appName == name;
    assert Label(ByName, a) == name && Label(ByDomain, a) == items[i].labels.value[name].domain;
    assert Claims(ByName, events[i], name) && Claims(ByDomain, events[i], a.domain);
  }

  // The app is labelled with a domain, and the object routes that domain or names no hosts.
  ghost predicate Routes(item: Item, name: string) {
    && item.annotated && item.hosts.Some? && item.labels.Some? && name in item.labels.value
    && item.labels.value[name].domain != ""
    && (item.hosts.value == [] || item.labels.value[name].domain in item.hosts.value)
  }

  /**
   After an object was read, in any state, a label resolves exactly when it is the name or the domain of an app that
   the object routes, or it resolved before and the apps read earlier from this object do not have it.
   */
  lemma ItemResolvesExactly(s: State, item: Item, e: Event, ix: Index, x: string)
    requires e.key == item.key && Lists(item, e.apps)
    ensures Resolves(Next(s, e), ix, x) <==>
              || (exists name :: Routes(item, name) && x == if ix.ByName? then name else item.labels.value[name].domain)
              || (Resolves(s, ix, x) && forall a :: a in s.Apps(item.key) ==> Label(ix, a) != x)
  {
    ResolvesNext(s, e, ix, x);
    if a: IngressApp :| a in e.apps && Label(ix, a) == x {
      assert Routes(item, a.appName);
    }
    if name :| Routes(item, name) && x == if ix.ByName? then name else item.labels.value[name].domain {
      assert Accepted(item, name);
      var a :| a in e.apps && a.appName == name;
      assert Label(ix, a) == x;
    }
  }

  /** The same for the objects of the cluster, whatever the iteration orders of the two readings. */
  lemma ResyncHealsItems(s: State, items: seq<Item>, first: seq<Event>, second: seq<Event>, i: nat, name: string)
    requires DistinctItems(items) && Reads(items, first) && Reads(items, second)
    requires i < |items| && Routes(items[i], name)
    ensures var t := After(After(s, first), second);
            Resolves(t, ByName, name) && Resolves(t, ByDomain, items[i].labels.value[name].domain)
  {
    ReadingsAgree(items, first, second);
    AcceptedIsClaimed(items, second, i, name);
    ResyncHeals(s, first, second, ByName, name);
    ResyncHeals(s, first, second, ByDomain, items[i].labels.value[name].domain);
  }

  // ----- Why twice -----

  // An ingress object without hosts that labels one app with one domain, and the reading of it.
  function Labelled(ingress: string, appName: string, domain: string, app: App): Item {
    Item(IngressKey("ns", ingress), true, Some([]), Some(map[appName := app.(domain := domain)]))
  }

  function Reading(ingress: string, appName: string, domain: string, app: App): Event {
    Update(IngressKey("ns", ingress), [IngressApp(domain, appName, app.(domain := domain))])
  }

  lemma LabelledReads(ingress: string, appName: string, domain: string, app: App)
    requires domain != ""
    ensures var item := Labelled(ingress, appName, domain, app);
            Accepted(item, appName) && Lists(item, Reading(ingress, appName, domain, app).apps)
  {
    var item := Labelled(ingress, appName, domain, app);
    var a := IngressApp(domain, appName, app.(domain := domain));
    assert a in [a];
    assert forall name :: Accepted(item, name) ==> name == appName && a.appName == name;
  }

  /**
   Ingress b gives the domain "d" up to ingress a and takes "e" while nobody watches. One pass over the
   two objects loses "d", although a claims it.
   */
  lemma OnePassIsNotEnough(app: App)
    ensures var reached := After(EMPTY, [Reading("b", "x", "d", app)]);
            var items := [Labelled("a", "y", "d", app), Labelled("b", "x", "e", app)];
            var listed := [Reading("a", "y", "d", app), Reading("b", "x", "e", app)];
            && DistinctItems(items) && Reads(items, listed) && Accepted(items[0], "y")
            && !Resolves(After(reached, listed), ByDomain, "d")
  {
    var before := [Reading("b", "x", "d", app)];
    var listed := [Reading("a", "y", "d", app), Reading("b", "x", "e", app)];
    LabelledReads("a", "y", "d", app);
    LabelledReads("b", "x", "e", app);
    LosesDomain(After(EMPTY, before), listed, app);
    PassStores(EMPTY, before, 0);
  }

  lemma LosesDomain(reached: State, listed: seq<Event>, app: App)
    requires listed == [Reading("a", "y", "d", app), Reading("b", "x", "e", app)]
    ensures reached.Apps(IngressKey("ns", "b")) == Reading("b", "x", "d", app).apps ==>
              !Resolves(After(reached, listed), ByDomain, "d")
  {
    if reached.Apps(IngressKey("ns", "b")) == Reading("b", "x", "d", app).apps {
      assert IngressApp("d", "x", app.(domain := "d")) in reached.Apps(IngressKey("ns", "b"));
      assert Drops(ByDomain, reached, listed[1], "d");
      assert !Claims(ByDomain, listed[1], "d");
      OnePassExactly(reached, listed, ByDomain, "d");
      assert listed[1] in listed;
    }
  }
}
