/**
 NamespacedCachedListers: keeps one running lister per watched namespace and object type.
 */
module ListerPlanner {
  import opened Wrappers
  import opened MeteringTypes
  import opened NamespaceWatcher

  datatype Lister = Lister(namespace: string, kind: Kind)

  type Listers = map<string, seq<Lister>>

  // reflect.Type.String() of the watched object types.
  function TypeString(k: Kind): string {
    match k
    case Pod => "*v1.Pod"
    case Service => "*v1.Service"
    case PersistentVolumeClaim => "*v1.PersistentVolumeClaim"
    case ServiceMonitor => "*v1.ServiceMonitor"
    case MeterDefinitionKind => "*v1beta1.MeterDefinition"
  }

  function CachedListerKey(l: Lister): string {
    l.namespace + "-" + TypeString(l.kind)
  }

  lemma TypeStringInjective(a: Kind, b: Kind)
    requires TypeString(a) == TypeString(b)
    ensures a == b
  {
    assert |TypeString(Pod)| == 7 && |TypeString(Service)| == 11 && |TypeString(PersistentVolumeClaim)| == 25;
    assert |TypeString(ServiceMonitor)| == 18 && |TypeString(MeterDefinitionKind)| == 24;
  }

  // No type string contains '-', so the last '-' of a key tells where its type starts.
  lemma NoDashInType(l: Lister, j: nat)
    requires |l.namespace| < j < |CachedListerKey(l)|
    ensures CachedListerKey(l)[j] != '-'
  {
    assert '-' !in TypeString(l.kind);
    assert CachedListerKey(l)[j] == TypeString(l.kind)[j - |l.namespace| - 1];
  }

  lemma CachedListerKeyInjective(a: Lister, b: Lister)
    requires CachedListerKey(a) == CachedListerKey(b)
    ensures a == b
  {
    var k, i, j := CachedListerKey(a), |a.namespace|, |b.namespace|;
    assert k[i] == '-' && k[j] == '-';
    if i < j {
      NoDashInType(a, j);
    } else if j < i {
      NoDashInType(b, i);
    } else {
      assert k[..i] == a.namespace && k[..j] == b.namespace;
      assert k[i + 1..] == TypeString(a.kind) && k[j + 1..] == TypeString(b.kind);
      TypeStringInjective(a.kind, b.kind);
    }
  }

  // What the reconciliation needs of a key: it names one lister, and it contains a '*', so
  // that it is no namespace.
  ghost predicate ProperKeys(key: Lister -> string) {
    && (forall a, b | key(a) == key(b) :: a == b)
    && forall l :: '*' in key(l)
  }

  lemma CachedListerKeyIsProper()
    ensures ProperKeys(CachedListerKey)
  {
    forall a, b | CachedListerKey(a) == CachedListerKey(b) ensures a == b {
      CachedListerKeyInjective(a, b);
    }
    forall l: Lister ensures '*' in CachedListerKey(l) {
      assert CachedListerKey(l)[|l.namespace| + 1] == TypeString(l.kind)[0];
    }
  }

  predicate Wanted(d: Demand, l: Lister) {
    Asks(d, l.namespace, l.kind)
  }

  ghost predicate WantedKey(key: Lister -> string, d: Demand, k: string) {
    exists l :: Wanted(d, l) && key(l) == k
  }

  ghost predicate Running(key: Lister -> string, ls: Listers, l: Lister) {
    key(l) in ls && l in ls[key(l)]
  }

  // Every key holds at most its own lister; an empty list is what a failed start leaves.
  ghost predicate WellKept(key: Lister -> string, ls: Listers) {
    forall k | k in ls :: '*' in k && (ls[k] == [] || (|ls[k]| == 1 && key(ls[k][0]) == k))
  }

  // The missing listers were started, each once; nothing else changed.
  ghost predicate AllStarted(key: Lister -> string, before: Listers, d: Demand, after: Listers, starts: seq<Lister>) {
    && (forall k :: k in after <==> k in before || WantedKey(key, d, k))
    && (forall k | k in before :: after[k] == before[k])
    && (forall l | Wanted(d, l) && key(l) !in before :: after[key(l)] == [l])
    && NoDup(starts)
    && (forall l :: l in starts <==> Wanted(d, l) && key(l) !in before)
  }

  // The listers of keys nobody wants were stopped, each once, and forgotten.
  ghost predicate UnwantedStopped(
    key: Lister -> string, before: Listers, d: Demand, after: Listers, stops: seq<Lister>)
  {
    && (forall k :: k in after <==> k in before && WantedKey(key, d, k))
    && (forall k | k in after :: after[k] == before[k])
    && NoDup(stops)
    && (forall l :: l in stops <==> Running(key, before, l) && !WantedKey(key, d, key(l)))
  }

  ghost predicate Reconciled(
    key: Lister -> string, before: Listers, d: Demand, after: Listers, starts: seq<Lister>, stops: seq<Lister>)
  {
    && (forall k :: k in after <==> WantedKey(key, d, k))
    && (forall l | Wanted(d, l) :: after[key(l)] == if key(l) in before then before[key(l)] else [l])
    && NoDup(starts) && NoDup(stops)
    && (forall l :: l in starts <==> Wanted(d, l) && key(l) !in before)
    && (forall l :: l in stops <==> Running(key, before, l) && !WantedKey(key, d, key(l)))
  }

  function StoredUnder(ls: Listers, k: string): seq<Lister> {
    if k in ls then ls[k] else []
  }

  datatype StartResult = AlreadyKnown | StartedNow | FailedNow

  class NamespacedCachedListers {
    var listers: Listers
    const makers: set<Kind>
    const key: Lister -> string

    ghost predicate Valid()
      reads this
    {
      ProperKeys(key) && WellKept(key, listers)
    }

    constructor (makers: set<Kind>)
      ensures Valid() && listers == map[] && this.makers == makers && key == CachedListerKey
    {
      this.makers, key := makers, CachedListerKey;
      CachedListerKeyIsProper();
      listers := map[];
    }

    // `starts` says which listers start without an error; `order` is the order in which the
    // demanded listers were looked at, up to the first failure.  Every demanded type has a maker
    // (the source calls it unconditionally), and namespace names never contain '*'.
    method NamespaceChange(demand: Demand, starts: Lister -> bool)
      returns (ok: bool, started: seq<Lister>, stopped: seq<Lister>, ghost order: seq<Lister>)
      requires Valid()
      requires forall l | Wanted(demand, l) :: l.kind in makers && '*' !in l.namespace
      modifies this
      ensures Valid()
      ensures ok <==> forall l | Wanted(demand, l) && key(l) !in old(listers) :: starts(l)
      ensures ok ==> Reconciled(key, old(listers), demand, listers, started, stopped)
      ensures !ok ==> Phase(listers, started, false) == StartAll(key, starts, old(listers), order)
      ensures !ok ==> stopped == [] && (forall k | k in old(listers) :: k in listers && listers[k] == old(listers)[k])
      ensures !ok ==> exists l :: Wanted(demand, l) && !starts(l) && key(l) in listers && listers[key(l)] == []
    {
      stopped := [];
      ok, started, order := StartMissing(demand, starts);
      StartAllEnters(key, starts, old(listers), demand, order);
      if !ok {
        return;
      }
      ghost var between := listers;
      stopped := StopUnwanted(demand);
      assert AllStarted(key, old(listers), demand, between, started);
      CombinePhases(key, old(listers), demand, between, listers, started, stopped);
    }

    // `order` is the order in which the demanded listers were looked at.
    method StartMissing(demand: Demand, starts: Lister -> bool)
      returns (ok: bool, started: seq<Lister>, ghost order: seq<Lister>)
      requires Valid()
      requires forall l | Wanted(demand, l) :: l.kind in makers && '*' !in l.namespace
      modifies this
      ensures Valid()
      ensures Phase(listers, started, ok) == StartAll(key, starts, old(listers), order)
      ensures forall l :: l in order ==> Wanted(demand, l)
      ensures ok ==> forall l :: Wanted(demand, l) ==> l in order
    {
      started, ok, order := [], true, [];
      var todo := demand.Keys;
      while todo != {}
        invariant Valid() && todo <= demand.Keys
        invariant ok && Phase(listers, started, ok) == StartAll(key, starts, old(listers), order)
        invariant forall l :: l in order <==> Wanted(demand, l) && l.namespace !in todo
      {
        var ns :| ns in todo;
        todo := todo - {ns};
        var types := demand[ns];
        for j := 0 to |types|
          invariant Valid()
          invariant ok && Phase(listers, started, ok) == StartAll(key, starts, old(listers), order)
          invariant forall l :: l in order <==>
            Wanted(demand, l) && l.namespace !in todo && (l.namespace == ns ==> l.kind in types[..j])
        {
          var lister := Lister(ns, types[j]);
          assert Wanted(demand, lister);
          ok, started := StartNext(lister, starts, started, old(listers), order);
          order := order + [lister];
          if !ok {
            return;
          }
        }
      }
    }

    method StartNext(
      lister: Lister, starts: Lister -> bool, before: seq<Lister>, ghost first: Listers, ghost order: seq<Lister>)
      returns (ok: bool, started: seq<Lister>)
      requires Valid() && '*' !in lister.namespace
      requires Phase(listers, before, true) == StartAll(key, starts, first, order)
      modifies this
      ensures Valid() && Phase(listers, started, ok) == StartAll(key, starts, first, order + [lister])
    {
      StartAllSnoc(key, starts, first, order, lister);
      var r := StartOne(lister, starts);
      ok, started := r != FailedNow, if r == StartedNow then before + [lister] else before;
    }

    // One round of the loop: nothing to do for a known key; otherwise the key is entered
    // first and filled once the lister has started.
    method StartOne(lister: Lister, starts: Lister -> bool) returns (r: StartResult)
      requires Valid() && '*' !in lister.namespace
      modifies this
      ensures Valid()
      ensures r == if key(lister) in old(listers) then AlreadyKnown
                   else if starts(lister) then StartedNow else FailedNow
      ensures listers == match r
        case AlreadyKnown => old(listers)
        case StartedNow => old(listers)[key(lister) := [lister]]
        case FailedNow => old(listers)[key(lister) := []]
    {
      var name := key(lister);
      if name in listers {
        return AlreadyKnown;
      }
      listers := listers[name := []];
      if !starts(lister) {
        return FailedNow;
      }
      // the source appends to the list stored under the bare namespace, which no key equals
      var base := StoredUnder(listers, lister.namespace);
      assert base + [lister] == [lister];
      listers := listers[name := base + [lister]];
      assert listers == old(listers)[name := [lister]];
      return StartedNow;
    }

    method StopUnwanted(demand: Demand) returns (stopped: seq<Lister>)
      requires Valid()
      modifies this
      ensures Valid() && UnwantedStopped(key, old(listers), demand, listers, stopped)
    {
      stopped := [];
      var toDelete: set<string> := {};
      var todo := listers.Keys;
      while todo != {}
        invariant todo <= listers.Keys && listers == old(listers)
        invariant forall k :: k in toDelete <==> k in listers && k !in todo && !WantedKey(key, demand, k)
        invariant NoDup(stopped)
        invariant forall l :: l in stopped <==> Running(key, listers, l) && key(l) in toDelete
      {
        var name :| name in todo;
        todo := todo - {name};
        var found := IsDemandedKey(key, demand, name);
        if !found {
          assert forall l :: l in listers[name] ==> l !in stopped && key(l) == name;
          stopped := stopped + listers[name];
          toDelete := toDelete + {name};
        }
      }
      listers := listers - toDelete;
    }
  }

  method IsDemandedKey(key: Lister -> string, demand: Demand, name: string) returns (found: bool)
    ensures found <==> WantedKey(key, demand, name)
  {
    found := false;
    var todo := demand.Keys;
    while todo != {}
      invariant todo <= demand.Keys
      invariant found ==> WantedKey(key, demand, name)
      invariant !found ==> forall l | Wanted(demand, l) && l.namespace !in todo :: key(l) != name
    {
      var ns :| ns in todo;
      todo := todo - {ns};
      for j := 0 to |demand[ns]|
        invariant found ==> WantedKey(key, demand, name)
        invariant !found ==> forall l |
          Wanted(demand, l) && l.namespace !in todo && (l.namespace == ns ==> l.kind in demand[ns][..j]) ::
          key(l) != name
      {
        var lister := Lister(ns, demand[ns][j]);
        assert Wanted(demand, lister);
        assert demand[ns][..j + 1] == demand[ns][..j] + [demand[ns][j]];
        if key(lister) == name {
          assert key(lister) == name;
          found := true;
          break;
        }
      }
      assert demand[ns][..|demand[ns]|] == demand[ns];
    }
  }

  /* ---- starting in order, up to the first failure ---- */

  datatype Phase = Phase(listers: Listers, started: seq<Lister>, ok: bool)

  function StartAll(key: Lister -> string, starts: Lister -> bool, before: Listers, order: seq<Lister>): Phase
    decreases |order|
  {
    if order == [] then Phase(before, [], true)
    else
      var l, p := order[|order| - 1], StartAll(key, starts, before, order[..|order| - 1]);
      if !p.ok || key(l) in p.listers then p
      else if starts(l) then Phase(p.listers[key(l) := [l]], p.started + [l], true)
      else Phase(p.listers[key(l) := []], p.started, false)
  }

  lemma StartAllSnoc(key: Lister -> string, starts: Lister -> bool, before: Listers, order: seq<Lister>, l: Lister)
    ensures var p := StartAll(key, starts, before, order);
      StartAll(key, starts, before, order + [l]) ==
        if !p.ok || key(l) in p.listers then p
        else if starts(l) then Phase(p.listers[key(l) := [l]], p.started + [l], true)
        else Phase(p.listers[key(l) := []], p.started, false)
  {
    assert (order + [l])[..|order|] == order;
  }

  // Keys known before keep their listers, and only demanded keys come in.
  lemma {:induction false} StartAllKeeps(
    key: Lister -> string, starts: Lister -> bool, before: Listers, order: seq<Lister>, k: string)
    ensures var p := StartAll(key, starts, before, order);
      && (k in before ==> k in p.listers && p.listers[k] == before[k])
      && (k in p.listers ==> k in before || exists l :: l in order && key(l) == k)
    decreases |order|
  {
    if order != [] {
      var init, last := order[..|order| - 1], order[|order| - 1];
      StartAllKeeps(key, starts, before, init, k);
      assert last in order && forall l :: l in init ==> l in order;
    }
  }

  // A lister is started at most once, and its start succeeded.
  lemma {:induction false} StartAllStarts(
    key: Lister -> string, starts: Lister -> bool, before: Listers, order: seq<Lister>, l: Lister)
    ensures var p := StartAll(key, starts, before, order);
      && NoDup(p.started)
      && (l in p.started ==> l in order && starts(l) && key(l) !in before && key(l) in p.listers)
    decreases |order|
  {
    if order != [] {
      var init, last := order[..|order| - 1], order[|order| - 1];
      StartAllStarts(key, starts, before, init, l);
      StartAllStarts(key, starts, before, init, last);
      StartAllKeeps(key, starts, before, init, key(l));
      var p := StartAll(key, starts, before, init);
      assert order == init + [last];
      assert key(last) !in p.listers ==> last !in p.started;
    }
  }

  // Without a failure every lister met on the way is there, and was started if it was missing.
  lemma {:induction false} StartAllFills(
    key: Lister -> string, starts: Lister -> bool, before: Listers, order: seq<Lister>, l: Lister)
    requires ProperKeys(key) && StartAll(key, starts, before, order).ok && l in order
    ensures var p := StartAll(key, starts, before, order);
      && key(l) in p.listers
      && (key(l) !in before ==> p.listers[key(l)] == [l] && l in p.started && starts(l))
    decreases |order|
  {
    var init, last := order[..|order| - 1], order[|order| - 1];
    assert order == init + [last];
    if l in init {
      StartAllFills(key, starts, before, init, l);
    } else if key(l) !in before {
      StartAllComesFrom(key, starts, before, init, l);
    }
  }

  lemma {:induction false} StartAllComesFrom(
    key: Lister -> string, starts: Lister -> bool, before: Listers, order: seq<Lister>, l: Lister)
    requires ProperKeys(key) && l !in order && key(l) !in before
    ensures key(l) !in StartAll(key, starts, before, order).listers
  {
    StartAllKeeps(key, starts, before, order, key(l));
  }

  // The first failure is a demanded lister whose key is left behind empty.
  lemma {:induction false} StartAllFails(
    key: Lister -> string, starts: Lister -> bool, before: Listers, order: seq<Lister>) returns (l: Lister)
    requires !StartAll(key, starts, before, order).ok
    ensures var p := StartAll(key, starts, before, order);
      l in order && !starts(l) && key(l) !in before && key(l) in p.listers && p.listers[key(l)] == []
    decreases |order|
  {
    var init, last := order[..|order| - 1], order[|order| - 1];
    assert order == init + [last];
    if StartAll(key, starts, before, init).ok {
      l := last;
      StartAllKeeps(key, starts, before, init, key(l));
    } else {
      l := StartAllFails(key, starts, before, init);
    }
  }

  lemma StartAllEnters(
    key: Lister -> string, starts: Lister -> bool, before: Listers, d: Demand, order: seq<Lister>)
    requires ProperKeys(key) && forall l | l in order :: Wanted(d, l)
    ensures var p := StartAll(key, starts, before, order);
      forall k | k in before :: k in p.listers && p.listers[k] == before[k]
    ensures var p := StartAll(key, starts, before, order);
      p.ok && (forall l | Wanted(d, l) :: l in order) ==>
        AllStarted(key, before, d, p.listers, p.started) && forall l | Wanted(d, l) && key(l) !in before :: starts(l)
    ensures var p := StartAll(key, starts, before, order);
      !p.ok ==> exists l ::
        Wanted(d, l) && !starts(l) && key(l) !in before && key(l) in p.listers && p.listers[key(l)] == []
  {
    var p := StartAll(key, starts, before, order);
    forall k ensures k in before ==> k in p.listers && p.listers[k] == before[k]
      ensures k in p.listers ==> k in before || exists l :: l in order && key(l) == k
    {
      StartAllKeeps(key, starts, before, order, k);
    }
    if !p.ok {
      var l := StartAllFails(key, starts, before, order);
    } else if forall l | Wanted(d, l) :: l in order {
      forall l ensures NoDup(p.started) && (l in p.started ==> l in order && key(l) !in before) {
        StartAllStarts(key, starts, before, order, l);
      }
      forall l | Wanted(d, l)
        ensures key(l) in p.listers && (key(l) !in before ==> p.listers[key(l)] == [l] && l in p.started && starts(l))
      {
        StartAllFills(key, starts, before, order, l);
      }
      assert NoDup(p.started) by {
        StartAllStarts(key, starts, before, order, Lister("", Pod));
      }
    }
  }

  lemma CombinePhases(
    key: Lister -> string, before: Listers, d: Demand, between: Listers, after: Listers,
    starts: seq<Lister>, stops: seq<Lister>)
    requires AllStarted(key, before, d, between, starts) && UnwantedStopped(key, between, d, after, stops)
    ensures Reconciled(key, before, d, after, starts, stops)
  {
    forall l ensures l in stops <==> Running(key, before, l) && !WantedKey(key, d, key(l)) {
      assert !WantedKey(key, d, key(l)) ==> (Running(key, between, l) <==> Running(key, before, l));
    }
  }

  // A second reconciliation with the same demand starts nothing, stops nothing and changes
  // nothing.
  lemma ReconcileIsIdempotent(key: Lister -> string, before: Listers, d: Demand, after: Listers, again: Listers,
    starts: seq<Lister>, stops: seq<Lister>, starts2: seq<Lister>, stops2: seq<Lister>)
    requires Reconciled(key, before, d, after, starts, stops) && Reconciled(key, after, d, again, starts2, stops2)
    ensures again == after && starts2 == [] && stops2 == []
  {
    forall k | k in after ensures again[k] == after[k] {
      var l :| Wanted(d, l) && key(l) == k;
    }
    NoMembers(starts2);
    NoMembers(stops2);
  }

  // Started are exactly the listers that run now and did not, stopped exactly those that did and
  // do not any more.
  lemma StartedAndStopped(
    key: Lister -> string, before: Listers, d: Demand, after: Listers, starts: seq<Lister>, stops: seq<Lister>,
    l: Lister)
    requires ProperKeys(key) && WellKept(key, before) && Reconciled(key, before, d, after, starts, stops)
    ensures l in starts <==> Running(key, after, l) && !Running(key, before, l)
    ensures l in stops <==> Running(key, before, l) && !Running(key, after, l)
  {
    if Running(key, after, l) {
      var w :| Wanted(d, w) && key(w) == key(l);
    }
    if Running(key, before, l) && WantedKey(key, d, key(l)) {
      var w :| Wanted(d, w) && key(w) == key(l);
      assert after[key(w)] == before[key(w)];
    }
  }

  // After a successful reconciliation a wanted lister runs exactly unless an earlier start
  // of it failed and left its key behind empty.
  lemma WantedRunsIff(
    key: Lister -> string, before: Listers, d: Demand, after: Listers, starts: seq<Lister>, stops: seq<Lister>,
    l: Lister)
    requires ProperKeys(key) && WellKept(key, before) && Reconciled(key, before, d, after, starts, stops)
    requires Wanted(d, l)
    ensures Running(key, after, l) <==> !(key(l) in before && before[key(l)] == [])
    ensures Running(key, after, l) ==> after[key(l)] == [l]
  {
    assert key(l) in before ==> before[key(l)] == [] || key(before[key(l)][0]) == key(l);
  }

  // A first call whose only start fails leaves the key behind, so the retry finds it present,
  // succeeds and starts nothing: the lister never runs.
  lemma RetryAfterFailedStart(
    key: Lister -> string, l: Lister, starts: Lister -> bool, after: Listers, started: seq<Lister>, stops: seq<Lister>)
    requires !starts(l)
    requires Reconciled(
      key, StartAll(key, starts, map[], [l]).listers, map[l.namespace := [l.kind]], after, started, stops)
    ensures !StartAll(key, starts, map[], [l]).ok
    ensures started == [] && stops == [] && after == map[key(l) := []] && !Running(key, after, l)
  {
    var d := map[l.namespace := [l.kind]];
    assert [l][..0] == [];
    assert StartAll(key, starts, map[], [l]) == Phase(map[key(l) := []], [], false);
    assert Wanted(d, l);
    forall x | Wanted(d, x) ensures x == l {
    }
    NoMembers(started);
    NoMembers(stops);
  }
}
