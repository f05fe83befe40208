/**
 The namespaces and object types the definitions ask to be watched, merged over all
 definitions and collapsed under "all namespaces".  Go map iteration order is arbitrary, so
 every list built here may come out in any order.
 */
module NamespaceWatcher {
  import opened Wrappers
  import opened MeteringTypes

  type Demand = map<string, seq<Kind>>

  const NAMESPACE_ALL := ""

  datatype Change = Add(def: DefKey, demand: Demand) | Remove(def: DefKey)

  predicate Asks(d: Demand, ns: string, t: Kind) {
    ns in d && t in d[ns]
  }

  function Pairs(d: Demand): set<(string, Kind)> {
    set ns, t | ns in d && t in d[ns] :: (ns, t)
  }

  ghost predicate Demanded(all: map<DefKey, Demand>, ns: string, t: Kind) {
    exists d :: d in all && Asks(all[d], ns, t)
  }

  // A type is listed under a namespace if some definition asks for it there, unless it is
  // asked for everywhere.
  ghost predicate Listed(all: map<DefKey, Demand>, ns: string, t: Kind) {
    Demanded(all, ns, t) && (ns != NAMESPACE_ALL ==> !Demanded(all, NAMESPACE_ALL, t))
  }

  ghost predicate IsListing(all: map<DefKey, Demand>, r: Demand) {
    forall ns, t :: Asks(r, ns, t) <==> Listed(all, ns, t)
  }

  lemma DemandedByFields(all: map<DefKey, Demand>, ns: string, t: Kind)
    ensures Demanded(all, ns, t) <==> exists d :: d in all && ns in all[d] && t in all[d][ns]
  {
    if d :| d in all && ns in all[d] && t in all[d][ns] {
      assert Asks(all[d], ns, t);
    }
  }

  // On the fields: some definition has the type under the namespace, and none under "", unless
  // that is the namespace.
  ghost predicate ListedByFields(all: map<DefKey, Demand>, ns: string, t: Kind) {
    && (exists d :: d in all && ns in all[d] && t in all[d][ns])
    && (ns == "" || !exists d :: d in all && "" in all[d] && t in all[d][""])
  }

  lemma ListingByFields(all: map<DefKey, Demand>, r: Demand)
    requires IsListing(all, r)
    ensures forall ns, t :: ListedByFields(all, ns, t) <==> ns in r && t in r[ns]
  {
    forall ns, t ensures ListedByFields(all, ns, t) <==> ns in r && t in r[ns] {
      assert Asks(r, ns, t) <==> Listed(all, ns, t);
      DemandedByFields(all, ns, t);
      DemandedByFields(all, "", t);
    }
  }

  // Everything asked for a definition since it was last removed, and whether it is known.
  function DemandSince(history: seq<Change>, def: DefKey): Option<set<(string, Kind)>> {
    if history == [] then None
    else
      var last, before := history[|history| - 1], DemandSince(history[..|history| - 1], def);
      if last.def != def then before
      else if last.Remove? then None
      else Some((if before.Some? then before.value else {}) + Pairs(last.demand))
  }

  // The stored demand is what the history asks for.
  ghost predicate Remembers(history: seq<Change>, all: map<DefKey, Demand>) {
    forall d :: DemandSince(history, d) == if d in all then Some(Pairs(all[d])) else None
  }

  method MergeTypeSlice(a: seq<Kind>, b: seq<Kind>) returns (merged: seq<Kind>)
    ensures forall t :: t in merged <==> t in a || t in b
    ensures NoDup(merged)
  {
    var types: set<Kind> := {};
    for i := 0 to |a|
      invariant forall t :: t in types <==> t in a[..i]
    {
      types := types + {a[i]};
    }
    for i := 0 to |b|
      invariant forall t :: t in types <==> t in a || t in b[..i]
    {
      types := types + {b[i]};
    }
    merged := [];
    var todo := types;
    while todo != {}
      invariant todo <= types && NoDup(merged)
      invariant forall t :: t in merged <==> t in types - todo
    {
      var t :| t in todo;
      todo := todo - {t};
      assert t !in merged;
      merged := merged + [t];
    }
  }

  method FilterTypeSlice(a: seq<Kind>, filters: seq<Kind>) returns (filtered: seq<Kind>)
    ensures forall t :: t in filtered <==> t in a && t !in filters
    ensures NoDup(filtered)
  {
    var types: set<Kind> := {};
    for i := 0 to |a|
      invariant forall t :: t in types <==> t in a[..i] && t !in filters
    {
      var found := false;
      for j := 0 to |filters|
        invariant !found && a[i] !in filters[..j]
      {
        if a[i] == filters[j] {
          found := true;
          break;
        }
      }
      if found {
        continue;
      }
      types := types + {a[i]};
    }
    filtered := [];
    var todo := types;
    while todo != {}
      invariant todo <= types && NoDup(filtered)
      invariant forall t :: t in filtered <==> t in types - todo
    {
      var t :| t in todo;
      todo := todo - {t};
      assert t !in filtered;
      filtered := filtered + [t];
    }
  }

  method MergeMap(a: Demand, b: Demand) returns (r: Demand)
    ensures r.Keys == a.Keys + b.Keys
    ensures forall ns, t :: Asks(r, ns, t) <==> Asks(a, ns, t) || Asks(b, ns, t)
    ensures Pairs(r) == Pairs(a) + Pairs(b)
  {
    r := a;
    var todo := b.Keys;
    while todo != {}
      invariant todo <= b.Keys
      invariant r.Keys == a.Keys + (b.Keys - todo)
      invariant forall ns, t :: Asks(r, ns, t) <==> Asks(a, ns, t) || (ns !in todo && Asks(b, ns, t))
    {
      var name :| name in todo;
      todo := todo - {name};
      if name in r {
        var merged := MergeTypeSlice(r[name], b[name]);
        r := r[name := merged];
      } else {
        r := r[name := b[name]];
      }
    }
    forall p ensures p in Pairs(r) <==> p in Pairs(a) + Pairs(b) {
      assert p in Pairs(r) <==> Asks(r, p.0, p.1);
      assert p in Pairs(a) <==> Asks(a, p.0, p.1);
      assert p in Pairs(b) <==> Asks(b, p.0, p.1);
    }
  }

  class NamespaceWatcher {
    var namespaces: map<DefKey, Demand>
    ghost var history: seq<Change>

    ghost predicate Valid()
      reads this
    {
      Remembers(history, namespaces)
    }

    constructor ()
      ensures Valid() && namespaces == map[] && history == []
    {
      namespaces, history := map[], [];
    }

    method ListNamespaces() returns (r: Demand)
      ensures IsListing(namespaces, r)
      ensures forall ns, t :: ListedByFields(namespaces, ns, t) <==> ns in r && t in r[ns]
    {
      r := map[];
      var todo := namespaces.Keys;
      while todo != {}
        invariant todo <= namespaces.Keys
        invariant forall ns, t :: Asks(r, ns, t) <==>
          exists d :: d in namespaces.Keys - todo && Asks(namespaces[d], ns, t)
      {
        var d :| d in todo;
        todo := todo - {d};
        r := MergeMap(r, namespaces[d]);
      }
      assert forall ns, t :: Asks(r, ns, t) <==> Demanded(namespaces, ns, t);
      if NAMESPACE_ALL in r {
        r := Collapse(r);
      }
      ListingByFields(namespaces, r);
    }

    method AddNamespace(def: DefKey, demand: Demand) returns (alert: bool)
      requires Valid()
      modifies this
      ensures Valid() && history == old(history) + [Add(def, demand)]
      ensures forall d | d != def :: Lookup(namespaces, d) == old(Lookup(namespaces, d))
      ensures def in namespaces
      ensures Pairs(namespaces[def])
        == Pairs(demand) + if def in old(namespaces) then Pairs(old(namespaces)[def]) else {}
      ensures old(Lookup(namespaces, def)) == Some(demand) ==> !alert && namespaces == old(namespaces)
      ensures !alert ==> forall ns, t :: Listed(namespaces, ns, t) <==> Listed(old(namespaces), ns, t)
    {
      history := history + [Add(def, demand)];
      assert history[..|history| - 1] == old(history);
      var before := ListNamespaces();
      if def !in namespaces {
        namespaces := namespaces[def := demand];
        ghost var nothing: set<(string, Kind)> := {};
        assert nothing + Pairs(demand) == Pairs(demand);
        var after := ListNamespaces();
        alert := before != after;
        assert forall ns, t :: Asks(before, ns, t) <==> Listed(old(namespaces), ns, t);
        return;
      }
      if namespaces[def] != demand {
        var merged := MergeMap(namespaces[def], demand);
        namespaces := namespaces[def := merged];
        var after := ListNamespaces();
        alert := before != after;
        assert forall ns, t :: Asks(before, ns, t) <==> Listed(old(namespaces), ns, t);
        return;
      }
      assert Pairs(namespaces[def]) + Pairs(demand) == Pairs(namespaces[def]);
      alert := false;
    }

    method RemoveNamespace(def: DefKey) returns (alert: bool)
      requires Valid()
      modifies this
      ensures Valid() && history == old(history) + [Remove(def)]
      ensures namespaces == old(namespaces) - {def}
      ensures !alert ==> forall ns, t :: Listed(namespaces, ns, t) <==> Listed(old(namespaces), ns, t)
    {
      history := history + [Remove(def)];
      assert history[..|history| - 1] == old(history);
      var before := ListNamespaces();
      namespaces := namespaces - {def};
      var after := ListNamespaces();
      alert := before != after;
      assert forall ns, t :: Asks(before, ns, t) <==> Listed(old(namespaces), ns, t);
    }
  }

  // Drops from every specific namespace what is already asked for in all of them.
  method Collapse(nses: Demand) returns (filtered: Demand)
    requires NAMESPACE_ALL in nses
    ensures forall ns, t :: Asks(filtered, ns, t) <==>
      Asks(nses, ns, t) && (ns != NAMESPACE_ALL ==> t !in nses[NAMESPACE_ALL])
  {
    var filterTypes := nses[NAMESPACE_ALL];
    filtered := map[];
    var todo := nses.Keys;
    while todo != {}
      invariant todo <= nses.Keys
      invariant forall ns, t :: Asks(filtered, ns, t) <==>
        ns !in todo && Asks(nses, ns, t) && (ns != NAMESPACE_ALL ==> t !in filterTypes)
      invariant forall ns :: ns in filtered ==> ns !in todo
    {
      var ns :| ns in todo;
      todo := todo - {ns};
      if ns == NAMESPACE_ALL {
        filtered := filtered[ns := nses[ns]];
        continue;
      }
      var result := FilterTypeSlice(nses[ns], filterTypes);
      if |result| != 0 {
        filtered := filtered[ns := result];
      }
    }
  }

  // A listing covers a type in a namespace, directly or through all namespaces.
  predicate Covers(r: Demand, ns: string, t: Kind) {
    Asks(r, ns, t) || Asks(r, NAMESPACE_ALL, t)
  }

  // Collapsing loses no demand and adds none, and lists nothing twice.
  lemma CollapseIsExact(all: map<DefKey, Demand>, r: Demand, ns: string, t: Kind)
    requires IsListing(all, r)
    ensures Covers(r, ns, t) <==> Demanded(all, ns, t) || Demanded(all, NAMESPACE_ALL, t)
    ensures ns != NAMESPACE_ALL ==> !(Asks(r, ns, t) && Asks(r, NAMESPACE_ALL, t))
  {
    assert Asks(r, ns, t) <==> Listed(all, ns, t);
    assert Asks(r, NAMESPACE_ALL, t) <==> Listed(all, NAMESPACE_ALL, t);
  }
}
