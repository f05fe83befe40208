/** From a definition's filters to the running listers: nothing it can match goes unwatched. */
module WatchCoverage {
  import opened Wrappers
  import opened MeteringTypes
  import opened NamespaceWatcher
  import opened LookupFilter
  import opened Dictionary
  import opened ListerPlanner

  // An object is seen by a lister of its type in its namespace or in all namespaces.
  ghost predicate Watched(key: Lister -> string, ls: Listers, obj: Object) {
    || Running(key, ls, Lister(obj.key.namespace, obj.key.kind))
    || Running(key, ls, Lister(NAMESPACE_ALL, obj.key.kind))
  }

  // A definition registered at some point and not removed since.
  ghost predicate Registered(history: seq<Change>, at: nat, def: DefKey, demand: Demand) {
    && at < |history| && history[at] == Change.Add(def, demand)
    && forall i | at < i < |history| :: history[i] != Remove(def)
  }

  // What was asked for at the registration is still asked for, whatever came before and after.
  lemma {:induction false} RegisteredDemandIsKept(history: seq<Change>, at: nat, def: DefKey, demand: Demand)
    requires Registered(history, at, def, demand)
    ensures DemandSince(history, def).Some? && Pairs(demand) <= DemandSince(history, def).value
    decreases |history|
  {
    if at < |history| - 1 {
      var init := history[..|history| - 1];
      assert init[at] == history[at] && forall i | at < i < |init| :: init[i] == history[i];
      RegisteredDemandIsKept(init, at, def, demand);
    }
  }

  // A definition is registered with what its filters ask for, the watcher remembers its history,
  // the merged demand is listed, and the listing is reconciled.  Then every object the definition
  // matches is watched, as long as no wanted key was left empty by an earlier failed start.
  lemma MatchedObjectIsWatched(
    groups: seq<Group>, demand: Demand, history: seq<Change>, at: nat, all: map<DefKey, Demand>, def: DefKey,
    listing: Demand, key: Lister -> string, before: Listers, after: Listers,
    starts: seq<Lister>, stops: seq<Lister>, obj: Object)
    requires WellFormed(groups) && IsDemandOf(groups, demand)
    requires Registered(history, at, def, demand) && Remembers(history, all)
    requires IsListing(all, listing)
    requires ProperKeys(key) && WellKept(key, before) && Reconciled(key, before, listing, after, starts, stops)
    requires forall l | Wanted(listing, l) && key(l) in before :: before[key(l)] != []
    requires DefinitionAnswer(groups, obj).Matched?
    ensures Watched(key, after, obj)
  {
    var ns, t := obj.key.namespace, obj.key.kind;
    MatchImpliesDemand(groups, obj, demand);
    RegisteredDemandIsKept(history, at, def, demand);
    assert DemandSince(history, def) == if def in all then Some(Pairs(all[def])) else None;
    if Asks(demand, ns, t) {
      assert (ns, t) in Pairs(demand) && Asks(all[def], ns, t);
    } else {
      assert (NAMESPACE_ALL, t) in Pairs(demand) && Asks(all[def], NAMESPACE_ALL, t);
    }
    CollapseIsExact(all, listing, ns, t);
    var l := if Asks(listing, ns, t) then Lister(ns, t) else Lister(NAMESPACE_ALL, t);
    assert Wanted(listing, l);
    WantedRunsIff(key, before, listing, after, starts, stops, l);
  }

  // Nothing is watched without somebody asking: a running lister's scope is demanded by some
  // definition, and no two running listers cover the same type in the same namespace.
  lemma WatchedIsDemanded(
    all: map<DefKey, Demand>, listing: Demand, key: Lister -> string, before: Listers, after: Listers,
    starts: seq<Lister>, stops: seq<Lister>, l: Lister)
    requires IsListing(all, listing)
    requires ProperKeys(key) && WellKept(key, before) && Reconciled(key, before, listing, after, starts, stops)
    requires Running(key, after, l)
    ensures Demanded(all, l.namespace, l.kind)
    ensures l.namespace != NAMESPACE_ALL ==> !Running(key, after, Lister(NAMESPACE_ALL, l.kind))
  {
    var w :| Wanted(listing, w) && key(w) == key(l);
    assert Listed(all, l.namespace, l.kind);
    assert Asks(listing, NAMESPACE_ALL, l.kind) <==> Listed(all, NAMESPACE_ALL, l.kind);
  }
}
