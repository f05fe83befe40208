/**
 MeterDefinitionDictionary: the definitions currently on the cluster, the search for the
 definitions an object matches, and the changes that drive re-matching and the scraped
 definition metrics.
 */
module Dictionary {
  import opened Wrappers
  import opened DeltaFifo
  import opened MeteringTypes
  import opened PrometheusData
  import VP = ViewPipeline

  // What a definition's filter answers for an object at one moment.
  datatype MatchOutcome = Matched | Unmatched | AccessDenied | Failed

  type Oracle = (Definition, Object) -> MatchOutcome

  datatype MatchError = FilterFailed

  type DictStore = VP.Store<DefKey, Definition>

  datatype Operation = Add(def: Definition) | Update(def: Definition) | Delete(def: Definition)

  predicate Acts(st: DictStore, op: Operation) {
    op.Update? && op.def.key in st.index ==> st.index[op.def.key].generation != op.def.generation
  }

  function Written(op: Operation): VP.Write<DefKey, Definition> {
    VP.Write(op.def.key, if op.Delete? then None else Some(op.def))
  }

  function Emission(st: DictStore, op: Operation): Option<Delta<Definition>> {
    match op
    case Add(d) => Some(Delta(Added, d))
    case Update(d) => Some(Delta(Updated, d))
    case Delete(d) =>
      if d.key !in st.index && d.key !in st.fifo.items then None else Some(Delta(Deleted, d))
  }

  function Perform(st: DictStore, op: Operation): DictStore {
    if Acts(st, op) then VP.Perform(st, Written(op), Emission(st, op)) else st
  }

  function Keyed(list: seq<Definition>): seq<(DefKey, Definition)> {
    seq(|list|, i requires 0 <= i < |list| => (list[i].key, list[i]))
  }

  function IndexOf(list: seq<Definition>): map<DefKey, Definition> {
    if list == [] then map[]
    else IndexOf(list[..|list| - 1])[list[|list| - 1].key := list[|list| - 1]]
  }

  function PerformReplace(st: DictStore, list: seq<Definition>): DictStore {
    VP.Store(IndexOf(list), DeltaFifo.Replace(st.fifo, Keyed(list)))
  }

  class MeterDefinitionDictionary {
    var cache: map<DefKey, Definition>
    var delta: Fifo<DefKey, Definition>

    ghost predicate Valid()
      reads this
    {
      forall k | k in cache :: cache[k].key == k
    }

    function State(): DictStore
      reads this
    {
      VP.Store(cache, delta)
    }

    constructor ()
      ensures Valid() && State() == VP.Store(map[], Empty())
    {
      cache, delta := map[], Empty();
    }

    // The definitions in no particular order, each once.
    method List() returns (defs: seq<Definition>)
      requires Valid()
      ensures NoDup(defs)
      ensures forall d :: d in defs <==> d.key in cache && cache[d.key] == d
    {
      defs := [];
      var todo := cache.Keys;
      while todo != {}
        invariant todo <= cache.Keys
        invariant NoDup(defs)
        invariant forall d :: d in defs <==> d.key in cache.Keys - todo && cache[d.key] == d
      {
        var k :| k in todo;
        todo := todo - {k};
        defs := defs + [cache[k]];
      }
    }

    // Every matching definition once; an access problem skips a definition, any other error
    // gives up.
    method FindObjectMatches(obj: Object, oracle: Oracle) returns (r: Result<seq<Definition>, MatchError>)
      requires Valid()
      ensures r.Err? <==> exists k | k in cache :: oracle(cache[k], obj).Failed?
      ensures r.Ok? ==> NoDup(r.value)
      ensures r.Ok? ==> forall d :: d in r.value <==> d.key in cache && cache[d.key] == d && oracle(d, obj).Matched?
    {
      var filters := List();
      var results := [];
      for i := 0 to |filters|
        invariant forall d | d in filters[..i] :: !oracle(d, obj).Failed?
        invariant NoDup(results)
        invariant forall d :: d in results <==> d in filters[..i] && oracle(d, obj).Matched?
      {
        assert filters[i] !in filters[..i];
        assert filters[..i + 1] == filters[..i] + [filters[i]];
        match oracle(filters[i], obj)
        case Failed =>
          assert filters[i] in filters;
          return Err(FilterFailed);
        case AccessDenied =>
          continue;
        case Matched =>
          results := results + [filters[i]];
        case Unmatched =>
      }
      assert filters[..|filters|] == filters;
      forall k | k in cache ensures !oracle(cache[k], obj).Failed? {
        assert cache[k] in filters;
      }
      return Ok(results);
    }

    // `accepts` says whether the filter factory can build a filter for the definition.
    method Add(def: Definition, accepts: Definition -> bool) returns (ok: bool)
      requires Valid()
      modifies this
      ensures Valid() && ok == accepts(def)
      ensures State() == if ok then Perform(old(State()), Operation.Add(def)) else old(State())
      ensures !ok ==> cache == old(cache) && delta == old(delta)
      ensures ok ==> cache == old(cache)[def.key := def]
      ensures ok ==> var q := Queued(delta, def.key); q != [] && q[|q| - 1] == Delta(Added, def)
      ensures forall k | k != def.key :: Queued(delta, k) == old(Queued(delta, k))
    {
      if !accepts(def) {
        return false;
      }
      EnqueuedIsLast(delta, def.key, Delta(Added, def));
      delta := Enqueue(delta, def.key, Delta(Added, def));
      cache := cache[def.key := def];
      return true;
    }

    method Update(def: Definition, accepts: Definition -> bool) returns (ok: bool)
      requires Valid()
      modifies this
      ensures Valid() && ok == accepts(def)
      ensures State() == if ok then Perform(old(State()), Operation.Update(def)) else old(State())
      ensures !ok || (def.key in old(cache) && old(cache)[def.key].generation == def.generation) ==>
        cache == old(cache) && delta == old(delta)
      ensures ok && !(def.key in old(cache) && old(cache)[def.key].generation == def.generation) ==>
        && cache == old(cache)[def.key := def]
        && var q := Queued(delta, def.key);
           q != [] && q[|q| - 1] == Delta(Updated, def)
      ensures ok ==> def.key in cache && cache[def.key].generation == def.generation
      ensures forall k | k != def.key :: Queued(delta, k) == old(Queued(delta, k))
    {
      if !accepts(def) {
        return false;
      }
      if def.key in cache && cache[def.key].generation == def.generation {
        return true;
      }
      EnqueuedIsLast(delta, def.key, Delta(Updated, def));
      delta := Enqueue(delta, def.key, Delta(Updated, def));
      cache := cache[def.key := def];
      return true;
    }

    method Delete(def: Definition, accepts: Definition -> bool) returns (ok: bool)
      requires Valid()
      modifies this
      ensures Valid() && ok == accepts(def)
      ensures State() == if ok then Perform(old(State()), Operation.Delete(def)) else old(State())
      ensures !ok ==> cache == old(cache) && delta == old(delta)
      ensures ok ==> cache == old(cache) - {def.key}
      ensures ok && def.key !in old(cache) && def.key !in old(delta.items) ==> delta == old(delta)
      ensures ok && (def.key in old(cache) || def.key in old(delta.items)) ==>
        var q := Queued(delta, def.key); q != [] && q[|q| - 1] == Delta(Deleted, def)
      ensures forall k | k != def.key :: Queued(delta, k) == old(Queued(delta, k))
    {
      if !accepts(def) {
        return false;
      }
      EnqueuedIsLast(delta, def.key, Delta(Deleted, def));
      delta := DeltaFifo.Delete(delta, def.key in cache, def.key, def);
      cache := cache - {def.key};
      assert cache == Assign(old(cache), def.key, None);
      return true;
    }

    method Replace(list: seq<Definition>, accepts: Definition -> bool) returns (ok: bool)
      requires Valid()
      modifies this
      ensures Valid() && (ok <==> forall d | d in list :: accepts(d))
      ensures State() == if ok then PerformReplace(old(State()), list) else old(State())
      ensures !ok ==> cache == old(cache) && delta == old(delta)
      ensures ok ==> forall k :: k in cache <==> exists i :: 0 <= i < |list| && list[i].key == k
      ensures ok ==> forall i | 0 <= i < |list| && IsLast(list, i) ::
        && cache[list[i].key] == list[i]
        && var q := Queued(delta, list[i].key);
           q != [] && q[|q| - 1] == Delta(Sync, list[i])
    {
      for i := 0 to |list|
        invariant forall d | d in list[..i] :: accepts(d)
      {
        if !accepts(list[i]) {
          assert list[i] in list;
          return false;
        }
        assert list[..i + 1] == list[..i] + [list[i]];
      }
      assert list[..|list|] == list;
      IndexOfLookup(list);
      forall i | 0 <= i < |list| && IsLast(list, i)
        ensures list[i].key in IndexOf(list) && IndexOf(list)[list[i].key] == list[i]
        ensures var q := Queued(DeltaFifo.Replace(delta, Keyed(list)), list[i].key);
          q != [] && q[|q| - 1] == Delta(Sync, list[i])
      {
        LastListedWins(delta, list, i);
      }
      forall k ensures k in IndexOf(list) <==> exists i :: 0 <= i < |list| && list[i].key == k {
        assert forall i | 0 <= i < |list| :: list[i] in list;
      }
      cache := IndexOf(list);
      delta := DeltaFifo.Replace(delta, Keyed(list));
      return true;
    }
  }

  lemma {:induction false} IndexOfLookup(list: seq<Definition>)
    ensures forall k :: k in IndexOf(list) <==> exists d :: d in list && d.key == k
    ensures forall k | k in IndexOf(list) :: IndexOf(list)[k].key == k && IndexOf(list)[k] in list
  {
    if list != [] {
      var init, last := list[..|list| - 1], list[|list| - 1];
      IndexOfLookup(init);
      assert list == init + [last];
      assert last in list;
    }
  }

  // No later entry of the list has the same key.
  predicate IsLast(list: seq<Definition>, i: nat) {
    i < |list| && forall j | i < j < |list| :: list[j].key != list[i].key
  }

  lemma {:induction false} IndexedLast(list: seq<Definition>, i: nat)
    requires IsLast(list, i)
    ensures list[i].key in IndexOf(list) && IndexOf(list)[list[i].key] == list[i]
    decreases |list|
  {
    var n := |list| - 1;
    if i < n {
      assert IsLast(list[..n], i);
      IndexedLast(list[..n], i);
    }
  }

  lemma {:induction false} SyncedLast(f: Fifo<DefKey, Definition>, list: seq<Definition>, i: nat)
    requires IsLast(list, i)
    ensures var q := Queued(SyncAll(f, Keyed(list)), list[i].key); q != [] && q[|q| - 1] == Delta(Sync, list[i])
    decreases |list|
  {
    var n := |list| - 1;
    SyncAllSnoc(f, list);
    EnqueuedIsLast(SyncAll(f, Keyed(list[..n])), list[n].key, Delta(Sync, list[n]));
    if i < n {
      assert IsLast(list[..n], i) && list[n].key != list[i].key;
      SyncedLast(f, list[..n], i);
    }
  }

  lemma BuryKeepsListed<K(!new), V>(f: Fifo<K, V>, list: seq<(K, V)>, i: nat)
    requires i < |list|
    ensures Queued(Bury(f, Listed(list)), list[i].0) == Queued(f, list[i].0)
  {
    assert list[i].0 in Listed(list);
  }

  // A listed definition is stored as listed last, and its Sync is the last change queued for it.
  lemma LastListedWins(f: Fifo<DefKey, Definition>, list: seq<Definition>, i: nat)
    requires IsLast(list, i)
    ensures list[i].key in IndexOf(list) && IndexOf(list)[list[i].key] == list[i]
    ensures var q := Queued(DeltaFifo.Replace(f, Keyed(list)), list[i].key);
      q != [] && q[|q| - 1] == Delta(Sync, list[i])
  {
    IndexedLast(list, i);
    SyncedLast(f, list, i);
    BuryKeepsListed(SyncAll(f, Keyed(list)), Keyed(list), i);
  }

  /* ---- the definition view ---- */

  function Rendering(generate: Generator): VP.Rendering<DefKey, Definition, Families> {
    DefinitionRendering(generate)
  }

  type DefMachine = VP.Machine<DefKey, Definition, Families>

  // The emission of a whole operation, as the first half of its two steps.
  function EmitOf(st: DictStore, op: Operation): VP.Step<DefKey, Definition> {
    VP.Emit(Written(op), Emission(st, op))
  }

  lemma DictionaryOperationsAreHarmless(generate: Generator, m: DefMachine, op: Operation)
    requires m.commit.None?
    ensures VP.Enabled(Rendering(generate), m, EmitOf(m.store, op))
    ensures VP.Harmless(Rendering(generate), m, Written(op), Emission(m.store, op))
  {
  }

  /* ---- Replace: exactly when it keeps the view ---- */

  lemma SyncAllSnoc(f: Fifo<DefKey, Definition>, list: seq<Definition>)
    requires list != []
    ensures var last := list[|list| - 1];
      SyncAll(f, Keyed(list)) == Enqueue(SyncAll(f, Keyed(list[..|list| - 1])), last.key, Delta(Sync, last))
  {
    assert Keyed(list)[..|list| - 1] == Keyed(list[..|list| - 1]);
  }

  lemma {:induction false} SyncAllOk(generate: Generator, f: Fifo<DefKey, Definition>, list: seq<Definition>)
    requires VP.FifoOk(Rendering(generate), f)
    ensures VP.FifoOk(Rendering(generate), SyncAll(f, Keyed(list)))
    decreases |list|
  {
    if list != [] {
      var init, last := list[..|list| - 1], list[|list| - 1];
      SyncAllOk(generate, f, init);
      SyncAllSnoc(f, list);
      VP.EnqueueOk(Rendering(generate), SyncAll(f, Keyed(init)), last.key, Delta(Sync, last));
    }
  }

  lemma {:induction false} SyncAllReplay(
    generate: Generator, f: Fifo<DefKey, Definition>, list: seq<Definition>, k: DefKey,
    before: seq<Delta<Definition>>, slot: Option<Families>)
    requires VP.FifoOk(Rendering(generate), f)
    ensures VP.Replay(Rendering(generate), before + Queued(SyncAll(f, Keyed(list)), k), slot)
      == if k in IndexOf(list) then Some(generate(AsObject(IndexOf(list)[k]), []))
         else VP.Replay(Rendering(generate), before + Queued(f, k), slot)
    decreases |list|
  {
    if list != [] {
      var init, last := list[..|list| - 1], list[|list| - 1];
      var g, d := SyncAll(f, Keyed(init)), Delta(Sync, last);
      SyncAllReplay(generate, f, init, k, before, slot);
      SyncAllSnoc(f, list);
      SyncAllOk(generate, f, init);
      assert IndexOf(list) == IndexOf(init)[last.key := last];
      if k == last.key {
        VP.ReplayEnqueue(Rendering(generate), g, k, d, before, slot);
      } else {
        assert Queued(SyncAll(f, Keyed(list)), k) == Queued(g, k) by {
          EnqueuedIsLast(g, last.key, d);
        }
      }
    }
  }

  lemma BuryReplay(
    generate: Generator, f: Fifo<DefKey, Definition>, listed: set<DefKey>, k: DefKey,
    before: seq<Delta<Definition>>, slot: Option<Families>)
    ensures VP.Replay(Rendering(generate), before + Queued(Bury(f, listed), k), slot)
         == VP.Replay(Rendering(generate), before + Queued(f, k), slot)
  {
    var r := Rendering(generate);
    var ds := Queued(f, k);
    if k in f.items && k !in listed && ds != [] {
      var t := Delta(Tombstone, ds[|ds| - 1].obj);
      var s := VP.Replay(r, before, slot);
      VP.ReplayAppend(r, before, Dedup(ds + [t]), slot);
      VP.ReplayDedup(r, ds + [t], s);
      VP.ReplayAppend(r, ds, [t], s);
      VP.ReplayAppend(r, before, ds, slot);
      assert VP.Replay(r, [t], VP.Replay(r, ds, s)) == VP.Replay(r, ds, s);
    }
  }

  lemma BuryOk(generate: Generator, f: Fifo<DefKey, Definition>, listed: set<DefKey>)
    requires VP.FifoOk(Rendering(generate), f)
    ensures VP.FifoOk(Rendering(generate), Bury(f, listed))
  {
    var r, g := Rendering(generate), Bury(f, listed);
    assert forall d: Definition :: r.keyOf(d) == d.key;
    forall k | k in g.items ensures g.items[k] != [] && forall d | d in g.items[k] :: d.obj.key == k {
      BuryOneOk(f, listed, k);
    }
  }

  lemma BuryOneOk(f: Fifo<DefKey, Definition>, listed: set<DefKey>, k: DefKey)
    requires k in f.items && f.items[k] != [] && forall d | d in Queued(f, k) :: d.obj.key == k
    ensures Bury(f, listed).items[k] != [] && forall d | d in Bury(f, listed).items[k] :: d.obj.key == k
  {
    var ds := f.items[k];
    assert ds == Queued(f, k) && ds[|ds| - 1] in ds;
    var more := ds + [Delta(Tombstone, ds[|ds| - 1].obj)];
    assert forall d | d in more :: d.obj.key == k;
    forall d | d in Dedup(more) ensures d.obj.key == k {
      assert d in more;
    }
  }

  // What Replace makes of one key.
  lemma ReplaceReplay(generate: Generator, p: nat, m: DefMachine, list: seq<Definition>, k: DefKey)
    requires VP.Inv(Rendering(generate), p, m) && m.commit.None?
    ensures var n := m.(store := PerformReplace(m.store, list));
      VP.Replay(Rendering(generate), VP.Pending(Rendering(generate), n, p, k), VP.Slot(n.cache, k))
        == if k in IndexOf(list) then Some(generate(AsObject(IndexOf(list)[k]), []))
           else VP.ViewOf(Rendering(generate), Lookup(m.store.index, k))
  {
    var r := Rendering(generate);
    var n := m.(store := PerformReplace(m.store, list));
    assert VP.InFlight(n, p) == VP.InFlight(m, p);
    var before := VP.ForKey(r, VP.InFlight(m, p), k);
    SyncAllReplay(generate, m.store.fifo, list, k, before, VP.Slot(m.cache, k));
    BuryReplay(generate, SyncAll(m.store.fifo, Keyed(list)), Listed(Keyed(list)), k, before, VP.Slot(m.cache, k));
    assert VP.Replay(r, VP.Pending(r, m, p, k), VP.Slot(m.cache, k))
        == VP.ViewOf(r, Lookup(VP.EffectiveIndex(m), k));
  }

  lemma ReplaceKeepsFifo(generate: Generator, p: nat, m: DefMachine, list: seq<Definition>)
    requires VP.Inv(Rendering(generate), p, m)
    ensures VP.FifoOk(Rendering(generate), PerformReplace(m.store, list).fifo)
  {
    SyncAllOk(generate, m.store.fifo, list);
    BuryOk(generate, SyncAll(m.store.fifo, Keyed(list)), Listed(Keyed(list)));
  }

  // Replace overwrites the dictionary before it queues changes, so a definition missing from
  // the list is never retracted: the view stays right exactly when nothing is dropped.
  lemma ReplaceAgreesIff(generate: Generator, p: nat, m: DefMachine, list: seq<Definition>)
    requires VP.Inv(Rendering(generate), p, m) && m.commit.None?
    ensures VP.Inv(Rendering(generate), p, m.(store := PerformReplace(m.store, list)))
      <==> forall k | k in m.store.index :: exists d :: d in list && d.key == k
  {
    var r := Rendering(generate);
    var n := m.(store := PerformReplace(m.store, list));
    ReplaceKeepsFifo(generate, p, m, list);
    assert VP.SameSequence(n) by {
      assert n.listeners == m.listeners && n.sent == m.sent && n.sending == m.sending && n.turn == m.turn;
    }
    assert VP.EffectiveIndex(n) == IndexOf(list);
    forall k ensures VP.Replay(r, VP.Pending(r, n, p, k), VP.Slot(n.cache, k)) == VP.ViewOf(r, Lookup(IndexOf(list), k))
      <==> (k in m.store.index ==> k in IndexOf(list))
    {
      ReplaceReplay(generate, p, m, list, k);
    }
    assert VP.Agreement(r, p, n) <==> forall k | k in m.store.index :: k in IndexOf(list);
    IndexOfLookup(list);
  }

  /* ---- whole runs ---- */

  // The machine, and the contents a Replace has already written but not yet queued.
  datatype DictSystem = DictSystem(m: DefMachine, replacing: Option<seq<Definition>>)

  // A Replace writes the contents first and queues the changes later, under the lock that keeps
  // other dictionary calls out; pops and deliveries may run in between.
  datatype DictStep =
    | Pipeline(step: VP.Step<DefKey, Definition>)
    | BeginReplace(list: seq<Definition>)
    | FinishReplace

  function Contents(s: DictSystem): map<DefKey, Definition> {
    if s.replacing.Some? then IndexOf(s.replacing.value) else s.m.store.index
  }

  ghost predicate Enabled(generate: Generator, s: DictSystem, step: DictStep) {
    match step
    case Pipeline(step) =>
      && VP.Enabled(Rendering(generate), s.m, step)
      && (step.Emit? ==> s.replacing.None? && exists op :: step == EmitOf(s.m.store, op))
    case BeginReplace(_) => s.replacing.None? && s.m.commit.None?
    case FinishReplace => s.replacing.Some?
  }

  ghost function Next(generate: Generator, p: nat, s: DictSystem, step: DictStep): DictSystem
    requires Enabled(generate, s, step)
  {
    match step
    case Pipeline(step) => s.(m := VP.Next(Rendering(generate), p, s.m, step))
    case BeginReplace(list) => s.(replacing := Some(list))
    case FinishReplace => DictSystem(s.m.(store := PerformReplace(s.m.store, s.replacing.value)), None)
  }

  ghost predicate IsDictionaryRun(generate: Generator, p: nat, states: seq<DictSystem>, steps: seq<DictStep>) {
    && |states| == |steps| + 1
    && p < |states[0].m.listeners| && states[0] == DictSystem(VP.Initial(|states[0].m.listeners|), None)
    && forall i | 0 <= i < |steps| ::
         Enabled(generate, states[i], steps[i]) && states[i + 1] == Next(generate, p, states[i], steps[i])
  }

  ghost predicate RunInv(generate: Generator, p: nat, s: DictSystem) {
    VP.Inv(Rendering(generate), p, s.m) && (s.replacing.Some? ==> s.m.commit.None?)
  }

  // The Replace being finished lists every definition it replaces.
  ghost predicate DropsNothing(s: DictSystem, step: DictStep) {
    step.FinishReplace? && s.replacing.Some? ==>
      forall k | k in s.m.store.index :: exists d :: d in s.replacing.value && d.key == k
  }

  lemma StepKeepsViewIff(generate: Generator, p: nat, s: DictSystem, step: DictStep)
    requires RunInv(generate, p, s) && Enabled(generate, s, step)
    ensures RunInv(generate, p, Next(generate, p, s, step)) <==> DropsNothing(s, step)
  {
    match step
    case Pipeline(step) =>
      if step.Emit? {
        var op :| step == EmitOf(s.m.store, op);
        DictionaryOperationsAreHarmless(generate, s.m, op);
      }
      VP.StepKeepsInv(Rendering(generate), p, s.m, step);
    case BeginReplace(_) =>
    case FinishReplace => ReplaceAgreesIff(generate, p, s.m, s.replacing.value);
  }

  lemma {:induction false} RunKeepsView(
    generate: Generator, p: nat, states: seq<DictSystem>, steps: seq<DictStep>, i: nat)
    requires IsDictionaryRun(generate, p, states, steps) && i < |states|
    requires forall j | 0 <= j < i :: DropsNothing(states[j], steps[j])
    ensures RunInv(generate, p, states[i])
  {
    if i == 0 {
      VP.InitialInv<DefKey, Definition, Families>(Rendering(generate), p, |states[0].m.listeners|);
    } else {
      RunKeepsView(generate, p, states, steps, i - 1);
      assert Enabled(generate, states[i - 1], steps[i - 1])
          && states[i] == Next(generate, p, states[i - 1], steps[i - 1]);
      StepKeepsViewIff(generate, p, states[i - 1], steps[i - 1]);
    }
  }

  // Over every run of dictionary calls, Replace among them, pops and deliveries: while no Replace
  // drops a definition, the scraped definitions plus the changes on their way are what the
  // dictionary last queued; drained and with no Replace under way they are its contents.
  lemma DefinitionViewAgrees(
    generate: Generator, p: nat, states: seq<DictSystem>, steps: seq<DictStep>, i: nat)
    requires IsDictionaryRun(generate, p, states, steps) && i < |states|
    requires forall j | 0 <= j < i :: DropsNothing(states[j], steps[j])
    ensures VP.Inv(Rendering(generate), p, states[i].m)
    ensures VP.Drained(states[i].m, p) && states[i].replacing.None? ==>
      states[i].m.cache == map k | k in Contents(states[i]) :: generate(AsObject(Contents(states[i])[k]), [])
  {
    RunKeepsView(generate, p, states, steps, i);
    if VP.Drained(states[i].m, p) {
      VP.DrainedCacheIsTheView(Rendering(generate), p, states[i].m);
    }
  }

  // And only then: a run agrees at every state exactly when no Replace of it drops anything.
  lemma DefinitionViewAgreesIff(generate: Generator, p: nat, states: seq<DictSystem>, steps: seq<DictStep>)
    requires IsDictionaryRun(generate, p, states, steps)
    ensures (forall i | 0 <= i < |states| :: RunInv(generate, p, states[i]))
      <==> (forall i | 0 <= i < |steps| :: DropsNothing(states[i], steps[i]))
  {
    if forall i | 0 <= i < |states| :: RunInv(generate, p, states[i]) {
      forall i | 0 <= i < |steps| ensures DropsNothing(states[i], steps[i]) {
        assert Enabled(generate, states[i], steps[i]) && states[i + 1] == Next(generate, p, states[i], steps[i]);
        assert RunInv(generate, p, states[i]) && RunInv(generate, p, states[i + 1]);
        StepKeepsViewIff(generate, p, states[i], steps[i]);
      }
    }
    if forall i | 0 <= i < |steps| :: DropsNothing(states[i], steps[i]) {
      forall i | 0 <= i < |states| ensures RunInv(generate, p, states[i]) {
        RunKeepsView(generate, p, states, steps, i);
      }
    }
  }

  // A dictionary with one delivered definition, replaced by an empty list: the definition is
  // gone, but its metrics stay in the drained cache.
  lemma ReplaceKeepsDroppedMetrics(generate: Generator, d: Definition) returns (m: DefMachine, n: DefMachine)
    ensures VP.Inv(Rendering(generate), 0, m) && VP.Drained(m, 0)
    ensures n == m.(store := PerformReplace(m.store, []))
    ensures VP.Drained(n, 0) && n.store.index == map[]
    ensures d.key in n.cache && n.cache[d.key] == generate(AsObject(d), [])
  {
    var r := Rendering(generate);
    var add := Delta(Added, d);
    var m0 := VP.Initial<DefKey, Definition, Families>(1);
    VP.InitialInv<DefKey, Definition, Families>(r, 0, 1);
    DictionaryOperationsAreHarmless(generate, m0, Operation.Add(d));
    var emit := EmitOf(m0.store, Operation.Add(d));
    VP.StepKeepsInv(r, 0, m0, emit);
    var m1 := VP.Next(r, 0, m0, emit);
    VP.StepKeepsInv(r, 0, m1, VP.Commit);
    var m2 := VP.Next(r, 0, m1, VP.Commit);
    VP.StepKeepsInv(r, 0, m2, VP.PopKey);
    var m3 := VP.Next(r, 0, m2, VP.PopKey);
    assert m3.sending == [add];
    VP.StepKeepsInv(r, 0, m3, VP.Send);
    var m4 := VP.Next(r, 0, m3, VP.Send);
    VP.StepKeepsInv(r, 0, m4, VP.Handle(0));
    m := VP.Next(r, 0, m4, VP.Handle(0));
    n := m.(store := PerformReplace(m.store, []));
  }
}
