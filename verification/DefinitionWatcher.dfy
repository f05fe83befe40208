/**
 MeterDefinitionRemovalWatcher: changes of definitions drive re-matching in the object store
 and the namespaces asked to be watched.  The system below takes the smallest steps the locks
 allow: an object is matched before the store lock is taken and written under it, a re-match of
 many objects holds that lock and looks each of them up in whatever the dictionary holds by
 then, and dictionary calls and pops of definition changes may run anywhere in between.
 */
module DefinitionWatcher {
  import opened Wrappers
  import opened DeltaFifo
  import opened MeteringTypes
  import opened Dictionary
  import opened ObjectStore
  import opened ObjectView
  import opened LookupFilter
  import NW = NamespaceWatcher
  import VP = ViewPipeline

  // Which objects a change re-matches: the objects naming a deleted definition, or those in
  // the namespace of an added, updated or synced one.
  function Affected(d: Delta<Definition>): Option<IndexQuery> {
    match d.typ
    case Deleted => Some(ByDefinition(d.obj.key))
    case Added => Some(ByNamespace(d.obj.key.namespace))
    case Updated => Some(ByNamespace(d.obj.key.namespace))
    case Sync => Some(ByNamespace(d.obj.key.namespace))
    case Replaced => None
    case Tombstone => None
  }

  // Handling `d` re-matches the affected objects, or the first of them if a look-up fails.
  ghost predicate Handles(
    d: Delta<Definition>, index: map<ObjKey, Entry>, objs: seq<Object>, ops: seq<StoreOp>, ok: bool,
    dict: map<DefKey, Definition>, oracle: Oracle)
  {
    match Affected(d)
    case None => objs == [] && ops == []
    case Some(q) => Enumerates(objs, index, e => Selects(q, e)) && IsRematch(objs, ops, ok, dict, oracle)
  }

  class MeterDefinitionRemovalWatcher {
    const store: MeterDefinitionStore
    const nsWatcher: NW.NamespaceWatcher

    constructor (store: MeterDefinitionStore, nsWatcher: NW.NamespaceWatcher)
      ensures this.store == store && this.nsWatcher == nsWatcher
    {
      this.store, this.nsWatcher := store, nsWatcher;
    }

    // `filters` are the filter groups of a definition.
    method Process(d: Delta<Definition>, filters: Definition -> seq<Group>, oracle: Oracle)
      returns (ok: bool, alert: bool, ghost objs: seq<Object>, ghost ops: seq<StoreOp>)
      requires store.Valid() && nsWatcher.Valid()
      modifies store, nsWatcher
      ensures store.Valid() && nsWatcher.Valid()
      ensures d.typ.Deleted? ==> nsWatcher.history == old(nsWatcher.history) + [NW.Remove(d.obj.key)]
      ensures d.typ.Added? || d.typ.Updated? || d.typ.Sync? ==>
        exists demand :: IsDemandOf(filters(d.obj), demand)
          && nsWatcher.history == old(nsWatcher.history) + [NW.Add(d.obj.key, demand)]
      ensures d.typ.Replaced? || d.typ.Tombstone? ==>
        && ok == d.typ.Replaced? && objs == [] && ops == [] && nsWatcher.history == old(nsWatcher.history)
      ensures !alert ==> forall ns, t ::
        NW.Listed(nsWatcher.namespaces, ns, t) <==> NW.Listed(old(nsWatcher.namespaces), ns, t)
      ensures store.State() == RunAll(old(store.State()), ops)
      ensures Handles(d, old(store.index), objs, ops, ok, store.dictionary.cache, oracle)
      ensures NoDup(objs) && forall o | o in objs :: o.key in old(store.index) && old(store.index)[o.key].obj == o
      ensures Selected(d, old(store.index), objs)
      ensures ok ==> Exact(d, store.index, store.dictionary.cache, oracle)
    {
      objs, ops, alert := [], [], false;
      match d.typ {
        case Deleted =>
          alert := nsWatcher.RemoveNamespace(d.obj.key);
          ok, objs, ops := Sync(ByDefinition(d.obj.key), oracle);
        case Replaced => ok := true;
        case Tombstone => ok := false;
        case _ =>
          var demand := GetNamespaces(filters(d.obj));
          alert := nsWatcher.AddNamespace(d.obj.key, demand);
          ok, objs, ops := Sync(ByNamespace(d.obj.key.namespace), oracle);
      }
      HandledAreSelected(d, old(store.index), objs, ops, ok, store.dictionary.cache, oracle);
      if ok {
        HandledIsExact(d, old(store.State()), objs, ops, store.dictionary.cache, oracle);
      }
    }

    method Sync(q: IndexQuery, oracle: Oracle) returns (ok: bool, ghost objs: seq<Object>, ghost ops: seq<StoreOp>)
      requires store.Valid()
      modifies store
      ensures store.Valid() && store.State() == RunAll(old(store.State()), ops)
      ensures Enumerates(objs, old(store.index), e => Selects(q, e))
      ensures IsRematch(objs, ops, ok, store.dictionary.cache, oracle)
    {
      ok, ops := store.SyncByIndex(q, oracle);
      objs :| Enumerates(objs, old(store.index), e => Selects(q, e))
        && IsRematch(objs, ops, ok, store.dictionary.cache, oracle);
    }
  }

  // Which objects are re-matched, by the type of the change.
  ghost predicate Selected(d: Delta<Definition>, index: map<ObjKey, Entry>, objs: seq<Object>) {
    && (d.typ.Deleted? ==> forall k | k in index ::
          index[k].obj in objs <==> exists x :: x in index[k].defs && x.key == d.obj.key)
    && (d.typ.Added? || d.typ.Updated? || d.typ.Sync? ==> forall k | k in index ::
          index[k].obj in objs <==> k.namespace == d.obj.key.namespace)
  }

  lemma HandledAreSelected(
    d: Delta<Definition>, index: map<ObjKey, Entry>, objs: seq<Object>, ops: seq<StoreOp>, ok: bool,
    dict: map<DefKey, Definition>, oracle: Oracle)
    requires KeyedByObject(index) && Handles(d, index, objs, ops, ok, dict, oracle)
    ensures NoDup(objs) && forall o | o in objs :: o.key in index && index[o.key].obj == o
    ensures Selected(d, index, objs)
  {
    forall k | k in index
      ensures d.obj.key in DefKeys(index[k].defs) <==> exists x :: x in index[k].defs && x.key == d.obj.key
    {
    }
  }

  // What an error-free handling leaves: no reference to a deleted definition that is not back, and
  // exactly the current matches in the namespace of an added, updated or synced one.
  ghost predicate Exact(
    d: Delta<Definition>, after: map<ObjKey, Entry>, dict: map<DefKey, Definition>, oracle: Oracle)
  {
    && (d.typ.Deleted? && d.obj.key !in dict ==>
          forall k, x | k in after && x in after[k].defs :: x.key != d.obj.key)
    && (d.typ.Added? || d.typ.Updated? || d.typ.Sync? ==>
          forall k | k in after && k.namespace == d.obj.key.namespace ::
            IsMatch(dict, oracle, after[k].obj, after[k].defs))
  }

  lemma HandledIsExact(
    d: Delta<Definition>, st: ObjStore, objs: seq<Object>, ops: seq<StoreOp>, dict: map<DefKey, Definition>,
    oracle: Oracle)
    requires KeyedByObject(st.index) && Handles(d, st.index, objs, ops, true, dict, oracle)
    ensures Exact(d, RunAll(st, ops).index, dict, oracle)
  {
    var after := RunAll(st, ops).index;
    if d.typ.Deleted? {
      HandledDeletionIsForgotten(d, st, objs, ops, dict, oracle);
      forall k, x | d.obj.key !in dict && k in after && x in after[k].defs ensures x.key != d.obj.key {
        assert x.key in DefKeys(after[k].defs);
        assert Refers(after, k, x.key);
      }
    } else if d.typ.Added? || d.typ.Updated? || d.typ.Sync? {
      forall k | k in after && k.namespace == d.obj.key.namespace
        ensures IsMatch(dict, oracle, after[k].obj, after[k].defs)
      {
        RematchIsExact(st, objs, |objs|, ops, dict, oracle, k);
        HandledChangeRematchesNamespace(d, st, objs, ops, dict, oracle, k);
      }
    }
  }

  /* ---- the system ---- */

  // A re-match under way, holding the store lock: the definition whose deletion it handles, the
  // objects still to be written, and what the look-up of the first one returned.
  datatype Rematching = Rematching(
    deleted: Option<DefKey>, remaining: seq<Object>, found: Option<seq<Definition>>)

  datatype System = System(
    dict: DictStore,
    inFlight: seq<Delta<Definition>>,
    objects: ObjStore,
    looked: seq<StoreOp>,              // Adds and Updates that are matched but not yet written
    rematching: Option<Rematching>)

  datatype Step =
    | DictionaryCall(op: Operation)
    | DictionaryReplace(list: seq<Definition>)
    | PopDefinition
    | LookUp(write: StoreOp, oracle: Oracle)
    | Write(who: nat)
    | DeleteObject(obj: Object)
    | BeginHandling(objs: seq<Object>)
    | BeginResync(objs: seq<Object>)
    | LookUpNext(defs: seq<Definition>, oracle: Oracle)
    | WriteNext
    | FailNext(oracle: Oracle)
    | EndRematch

  ghost predicate Enabled(s: System, step: Step) {
    match step
    case DictionaryCall(_) => true
    case DictionaryReplace(_) => true
    case PopDefinition => s.dict.fifo.order != []
    case LookUp(op, oracle) => (op.AddObj? || op.UpdateObj?) && IsMatch(s.dict.index, oracle, op.obj, op.defs)
    case Write(i) => i < |s.looked| && s.rematching.None?
    case DeleteObject(_) => s.rematching.None?
    case BeginHandling(objs) =>
      s.rematching.None? && s.inFlight != [] && IsAffected(s.inFlight[0], s.objects.index, objs)
    case BeginResync(objs) => s.rematching.None? && Enumerates(objs, s.objects.index, _ => true)
    case LookUpNext(defs, oracle) =>
      && s.rematching.Some? && s.rematching.value.remaining != [] && s.rematching.value.found.None?
      && IsMatch(s.dict.index, oracle, s.rematching.value.remaining[0], defs)
    case WriteNext =>
      s.rematching.Some? && s.rematching.value.remaining != [] && s.rematching.value.found.Some?
    case FailNext(oracle) =>
      && s.rematching.Some? && s.rematching.value.remaining != [] && s.rematching.value.found.None?
      && exists k :: k in s.dict.index && oracle(s.dict.index[k], s.rematching.value.remaining[0]).Failed?
    case EndRematch => s.rematching.Some? && s.rematching.value.remaining == []
  }

  ghost predicate IsAffected(d: Delta<Definition>, index: map<ObjKey, Entry>, objs: seq<Object>) {
    match Affected(d)
    case None => objs == []
    case Some(q) => Enumerates(objs, index, e => Selects(q, e))
  }

  function DeletedBy(d: Delta<Definition>): Option<DefKey> {
    if d.typ.Deleted? then Some(d.obj.key) else None
  }

  ghost function Next(s: System, step: Step): System
    requires Enabled(s, step)
  {
    match step
    case DictionaryCall(op) => s.(dict := Dictionary.Perform(s.dict, op))
    case DictionaryReplace(list) => s.(dict := PerformReplace(s.dict, list))
    case PopDefinition =>
      s.(dict := s.dict.(fifo := Pop(s.dict.fifo)),
         inFlight := s.inFlight + Queued(s.dict.fifo, s.dict.fifo.order[0]))
    case LookUp(op, _) => s.(looked := s.looked + [op])
    case Write(i) => s.(looked := s.looked[..i] + s.looked[i + 1..], objects := Run(s.objects, s.looked[i]))
    case DeleteObject(obj) => s.(objects := Run(s.objects, DeleteObj(obj)))
    case BeginHandling(objs) =>
      s.(inFlight := s.inFlight[1..], rematching := Some(Rematching(DeletedBy(s.inFlight[0]), objs, None)))
    case BeginResync(objs) => s.(rematching := Some(Rematching(None, objs, None)))
    case LookUpNext(defs, _) => s.(rematching := Some(s.rematching.value.(found := Some(defs))))
    case WriteNext =>
      var r := s.rematching.value;
      s.(objects := Run(s.objects, Rematch(r.remaining[0], r.found.value)),
         rematching := Some(r.(remaining := r.remaining[1..], found := None)))
    case FailNext(_) => s.(rematching := None)
    case EndRematch => s.(rematching := None)
  }

  ghost predicate IsPath(states: seq<System>, steps: seq<Step>) {
    && |states| == |steps| + 1
    && forall i | 0 <= i < |steps| :: Enabled(states[i], steps[i]) && states[i + 1] == Next(states[i], steps[i])
  }

  function Initial(): System {
    System(VP.Store(map[], Empty()), [], VP.Store(map[], Empty()), [], None)
  }

  ghost predicate IsRun(states: seq<System>, steps: seq<Step>) {
    IsPath(states, steps) && states[0] == Initial()
  }

  /* ---- no dangling definitions ---- */

  ghost predicate DeletionIn(ds: seq<Delta<Definition>>, k: DefKey) {
    exists d :: d in ds && d.typ.Deleted? && d.obj.key == k
  }

  ghost predicate DeletionPending(s: System, k: DefKey) {
    DeletionIn(s.inFlight, k) || DeletionIn(Queued(s.dict.fifo, k), k)
  }

  ghost predicate Refers(index: map<ObjKey, Entry>, o: ObjKey, k: DefKey) {
    o in index && k in DefKeys(index[o].defs)
  }

  // The deletion of k is being handled and will get to the object.
  ghost predicate BeingForgotten(s: System, o: ObjKey, k: DefKey)
    requires o in s.objects.index
  {
    s.rematching.Some? && s.rematching.value.deleted == Some(k)
    && s.objects.index[o].obj in s.rematching.value.remaining
  }

  ghost predicate Known(s: System, k: DefKey) {
    k in s.dict.index || DeletionPending(s, k)
  }

  ghost predicate NoDangling(s: System) {
    forall o, k | Refers(s.objects.index, o, k) :: Known(s, k) || BeingForgotten(s, o, k)
  }

  // Objects still to be written are indexed as they were selected.
  ghost predicate RematchOk(r: Rematching, index: map<ObjKey, Entry>) {
    && NoDup(r.remaining)
    && (forall o | o in r.remaining :: o.key in index && index[o.key].obj == o)
    && (forall o | o in r.remaining && r.deleted.Some? :: Refers(index, o.key, r.deleted.value))
  }

  ghost predicate Shape(s: System) {
    && DeltaFifo.Valid(s.dict.fifo)
    && (forall k, d :: d in Queued(s.dict.fifo, k) ==> d.obj.key == k)
    && (forall k | k in s.dict.index :: s.dict.index[k].key == k)
    && KeyedByObject(s.objects.index)
    && (s.rematching.Some? ==> RematchOk(s.rematching.value, s.objects.index))
  }

  ghost predicate Inv(s: System) {
    Shape(s) && NoDangling(s)
  }

  // Collapsing deletions never loses the last one.
  lemma DedupKeepsDeletion(ds: seq<Delta<Definition>>, k: DefKey)
    requires DeletionIn(ds, k) && forall d | d in ds :: d.obj.key == k
    ensures DeletionIn(Dedup(ds), k)
  {
    var n := |ds|;
    if n >= 2 && IsDelete(ds[n - 2]) && IsDelete(ds[n - 1]) {
      var d :| d in ds && d.typ.Deleted? && d.obj.key == k;
      var i :| 0 <= i < n && ds[i] == d;
      if ds[n - 1].typ.Tombstone? {
        assert Dedup(ds)[i] == d;
      } else {
        assert ds[n - 1] in ds && Dedup(ds)[n - 2] == ds[n - 1];
      }
    }
  }

  lemma EnqueueKeepsDeletion(f: Fifo<DefKey, Definition>, j: DefKey, e: Delta<Definition>, k: DefKey)
    requires DeltaFifo.Valid(f) && e.obj.key == j && forall d | d in Queued(f, k) :: d.obj.key == k
    requires DeletionIn(Queued(f, k), k) || (e.typ.Deleted? && j == k)
    ensures DeletionIn(Queued(Enqueue(f, j, e), k), k)
  {
    EnqueueValid(f, j, e);
    if j == k {
      var q := Queued(f, k) + [e];
      assert e in q && forall d :: d in Queued(f, k) ==> d in q;
      DedupKeepsDeletion(q, k);
    }
  }

  lemma WriteNextKeepsShape(s: System)
    requires Shape(s) && Enabled(s, WriteNext)
    ensures Shape(Next(s, WriteNext))
  {
    var r, n := s.rematching.value, Next(s, WriteNext);
    var rest := r.remaining[1..];
    forall o | o in rest
      ensures o.key in n.objects.index && n.objects.index[o.key] == s.objects.index[o.key] && o in r.remaining
    {
      var i :| 0 <= i < |rest| && rest[i] == o;
      assert r.remaining[i + 1] == o && r.remaining[0] != o;
      assert r.remaining[0] in r.remaining && o in r.remaining;
    }
  }

  lemma StepKeepsShape(s: System, step: Step)
    requires Shape(s) && Enabled(s, step)
    ensures Shape(Next(s, step))
  {
    match step
    case DictionaryCall(op) =>
      if Acts(s.dict, op) && Emission(s.dict, op).Some? {
        var e := Emission(s.dict, op).value;
        EnqueueValid(s.dict.fifo, op.def.key, e);
        EnqueueAll(s.dict.fifo, op.def.key, e, (k: DefKey, d: Delta<Definition>) => d.obj.key == k);
      }
    case DictionaryReplace(list) => ReplaceDeletions(s, list, DefKey("", ""));
    case PopDefinition =>
      PopValid(s.dict.fifo);
      forall k, d | d in Queued(Pop(s.dict.fifo), k) ensures d.obj.key == k {
        assert d in Queued(s.dict.fifo, k);
      }
    case WriteNext => WriteNextKeepsShape(s);
    case _ =>
  }

  lemma {:induction false} SyncAllDeletions(f: Fifo<DefKey, Definition>, list: seq<Definition>, k: DefKey)
    requires DeltaFifo.Valid(f)
    ensures DeltaFifo.Valid(SyncAll(f, Keyed(list)))
    ensures DeletionIn(Queued(SyncAll(f, Keyed(list)), k), k) <==> DeletionIn(Queued(f, k), k)
    decreases |list|
  {
    if list != [] {
      var init, last := list[..|list| - 1], list[|list| - 1];
      var g, e := SyncAll(f, Keyed(init)), Delta(Sync, last);
      SyncAllDeletions(f, init, k);
      SyncAllSnoc(f, list);
      EnqueueValid(g, last.key, e);
      if k == last.key {
        assert Queued(Enqueue(g, k, e), k) == Queued(g, k) + [e];
      }
    }
  }

  lemma BuryDeletions(f: Fifo<DefKey, Definition>, listed: set<DefKey>, k: DefKey)
    requires forall d | d in Queued(f, k) :: d.obj.key == k
    ensures DeletionIn(Queued(Bury(f, listed), k), k) <==> DeletionIn(Queued(f, k), k)
  {
    var ds := Queued(f, k);
    if k in f.items && k !in listed && ds != [] {
      assert ds[|ds| - 1] in ds;
      var more := ds + [Delta(Tombstone, ds[|ds| - 1].obj)];
      assert Queued(Bury(f, listed), k) == Dedup(more);
      assert forall d :: d in more <==> d in ds || d == Delta(Tombstone, ds[|ds| - 1].obj);
      if DeletionIn(ds, k) {
        DedupKeepsDeletion(more, k);
      }
      assert forall d :: d in Dedup(more) ==> d in more;
    }
  }

  // Replace leaves the pending deletions as they are.
  lemma ReplaceDeletions(s: System, list: seq<Definition>, k: DefKey)
    requires Shape(s)
    ensures DeletionPending(Next(s, DictionaryReplace(list)), k) <==> DeletionPending(s, k)
    ensures Shape(Next(s, DictionaryReplace(list)))
  {
    var generate: Generator := (o, defs) => [];
    var f := SyncAll(s.dict.fifo, Keyed(list));
    SyncAllOk(generate, s.dict.fifo, list);
    SyncAllDeletions(s.dict.fifo, list, k);
    BuryOk(generate, f, Listed(Keyed(list)));
    BuryDeletions(f, Listed(Keyed(list)), k);
    IndexOfLookup(list);
  }

  /* ---- exactly which steps keep it ---- */

  // Replace may drop no definition an object refers to, unless its deletion is pending or under
  // way for that object; a re-match handling a deletion may fail only if the definition is back or
  // deleted once more; and what is written may have been deleted since its look-up only if that
  // deletion is still to be handled.  Every other step is safe as it is.
  ghost predicate Safe(s: System, step: Step) {
    match step
    case DictionaryReplace(list) =>
      forall o, k | Refers(s.objects.index, o, k) && k in s.dict.index ::
        k in DefKeys(list) || DeletionPending(s, k) || BeingForgotten(s, o, k)
    case FailNext(_) =>
      s.rematching.Some? && s.rematching.value.deleted.Some? ==> Known(s, s.rematching.value.deleted.value)
    case Write(i) =>
      i < |s.looked| && ActsOn(s.objects, s.looked[i]) && !s.looked[i].DeleteObj? ==>
        forall k | k in DefKeys(s.looked[i].defs) :: Known(s, k)
    case WriteNext =>
      s.rematching.Some? && s.rematching.value.found.Some? ==>
        forall k | k in DefKeys(s.rematching.value.found.value) :: Known(s, k)
    case _ => true
  }

  // Only Replace and taking up a deletion can make a definition unknown.
  lemma KnownIsKept(s: System, step: Step, k: DefKey)
    requires Shape(s) && Enabled(s, step) && Known(s, k)
    requires !step.DictionaryReplace? && !step.BeginHandling?
    ensures Known(Next(s, step), k)
  {
    var n := Next(s, step);
    match step
    case DictionaryCall(op) =>
      if Acts(s.dict, op) && Emission(s.dict, op).Some? {
        var e := Emission(s.dict, op).value;
        EnqueueValid(s.dict.fifo, op.def.key, e);
        if k !in n.dict.index && !DeletionIn(s.inFlight, k) {
          EnqueueKeepsDeletion(s.dict.fifo, op.def.key, e, k);
        }
      }
    case PopDefinition =>
      PopValid(s.dict.fifo);
      if k !in s.dict.index {
        var d :| (d in s.inFlight || d in Queued(s.dict.fifo, k)) && d.typ.Deleted? && d.obj.key == k;
        assert d in n.inFlight || d in Queued(n.dict.fifo, k);
      }
    case _ =>
  }

  lemma DictionaryStepKeepsInv(s: System, step: Step)
    requires Inv(s) && Enabled(s, step) && (step.DictionaryCall? || step.PopDefinition?)
    ensures Inv(Next(s, step))
  {
    var n := Next(s, step);
    StepKeepsShape(s, step);
    forall o, k | Refers(n.objects.index, o, k) ensures Known(n, k) || BeingForgotten(n, o, k) {
      assert Known(s, k) || BeingForgotten(s, o, k);
      if Known(s, k) {
        KnownIsKept(s, step, k);
      }
    }
  }

  lemma ReplaceKeepsInvIff(s: System, list: seq<Definition>)
    requires Inv(s)
    ensures Inv(Next(s, DictionaryReplace(list))) <==> Safe(s, DictionaryReplace(list))
  {
    var n := Next(s, DictionaryReplace(list));
    forall k ensures DeletionPending(n, k) <==> DeletionPending(s, k) {
      ReplaceDeletions(s, list, k);
    }
    ReplaceDeletions(s, list, DefKey("", ""));
    IndexOfLookup(list);
    assert forall k :: k in n.dict.index <==> k in DefKeys(list);
    assert forall o, k | Refers(s.objects.index, o, k) :: BeingForgotten(n, o, k) == BeingForgotten(s, o, k);
    assert forall o, k | Refers(s.objects.index, o, k) :: Known(s, k) || BeingForgotten(s, o, k);
  }

  // One object written with what an earlier look-up found.
  lemma WriteKeepsInvIff(s: System, i: nat)
    requires Inv(s) && Enabled(s, Write(i))
    ensures Inv(Next(s, Write(i))) <==> Safe(s, Write(i))
  {
    var op, n := s.looked[i], Next(s, Write(i));
    StepKeepsShape(s, Write(i));
    assert forall k :: Known(n, k) == Known(s, k);
    if ActsOn(s.objects, op) && !op.DeleteObj? {
      assert n.objects.index == s.objects.index[op.obj.key := Entry(op.obj, op.defs)];
      forall k | k in DefKeys(op.defs) ensures Refers(n.objects.index, op.obj.key, k) {
      }
    }
    forall o, k | Refers(n.objects.index, o, k) && !Known(n, k)
      ensures ActsOn(s.objects, op) && !op.DeleteObj? && k in DefKeys(op.defs)
    {
      assert Refers(s.objects.index, o, k) ==> Known(s, k) || BeingForgotten(s, o, k);
    }
  }

  lemma WriteNextKeepsInvIff(s: System)
    requires Inv(s) && Enabled(s, WriteNext)
    ensures Inv(Next(s, WriteNext)) <==> Safe(s, WriteNext)
  {
    var r, n := s.rematching.value, Next(s, WriteNext);
    var first, defs := r.remaining[0], r.found.value;
    StepKeepsShape(s, WriteNext);
    assert first in r.remaining;
    assert n.objects.index == s.objects.index[first.key := Entry(first, defs)];
    assert forall k :: Known(n, k) == Known(s, k);
    assert first !in r.remaining[1..] by {
      assert forall j | 0 <= j < |r.remaining[1..]| :: r.remaining[1..][j] == r.remaining[j + 1];
    }
    forall k | k in DefKeys(defs)
      ensures Refers(n.objects.index, first.key, k) && !BeingForgotten(n, first.key, k)
    {
    }
    forall o, k | Refers(n.objects.index, o, k) && o != first.key ensures Known(n, k) || BeingForgotten(n, o, k) {
      assert Refers(s.objects.index, o, k);
      assert Known(s, k) || BeingForgotten(s, o, k);
      if BeingForgotten(s, o, k) {
        var x := s.objects.index[o].obj;
        assert x.key == o && x != first;
        var j :| 0 <= j < |r.remaining| && r.remaining[j] == x;
        assert r.remaining[1..][j - 1] == x;
      }
    }
  }

  lemma FailKeepsInvIff(s: System, oracle: Oracle)
    requires Inv(s) && Enabled(s, FailNext(oracle))
    ensures Inv(Next(s, FailNext(oracle))) <==> Safe(s, FailNext(oracle))
  {
    var r, n := s.rematching.value, Next(s, FailNext(oracle));
    assert forall k :: Known(n, k) == Known(s, k);
    var first := r.remaining[0];
    assert first in r.remaining;
    if r.deleted.Some? {
      assert Refers(n.objects.index, first.key, r.deleted.value);
      assert !BeingForgotten(n, first.key, r.deleted.value);
    }
    forall o, k | Refers(n.objects.index, o, k) && !Known(n, k) ensures r.deleted == Some(k) {
      assert Known(s, k) || BeingForgotten(s, o, k);
    }
  }

  lemma BeginKeepsInv(s: System, objs: seq<Object>)
    requires Inv(s) && Enabled(s, BeginHandling(objs))
    ensures Inv(Next(s, BeginHandling(objs)))
  {
    var d, n := s.inFlight[0], Next(s, BeginHandling(objs));
    assert s.inFlight == [d] + s.inFlight[1..];
    StepKeepsShape(s, BeginHandling(objs));
    forall o, k | Refers(n.objects.index, o, k) ensures Known(n, k) || BeingForgotten(n, o, k) {
      assert Known(s, k);
      if !Known(n, k) {
        var e :| e in s.inFlight && e.typ.Deleted? && e.obj.key == k;
        assert e == d;
        assert Selects(ByDefinition(k), s.objects.index[o]);
      }
    }
  }

  // Steps that write nothing and account for every reference as before.
  lemma QuietStepKeepsInv(s: System, step: Step)
    requires Inv(s) && Enabled(s, step)
    requires step.LookUp? || step.BeginResync? || step.LookUpNext? || step.EndRematch? || step.DeleteObject?
    ensures Inv(Next(s, step))
  {
    var n := Next(s, step);
    StepKeepsShape(s, step);
    assert forall k :: Known(n, k) == Known(s, k);
    forall o, k | Refers(n.objects.index, o, k) ensures Known(n, k) || BeingForgotten(n, o, k) {
      assert Refers(s.objects.index, o, k) && s.objects.index[o] == n.objects.index[o];
      assert Known(s, k) || BeingForgotten(s, o, k);
    }
  }

  // A step keeps the invariant exactly when it is safe.
  lemma StepKeepsInvIff(s: System, step: Step)
    requires Inv(s) && Enabled(s, step)
    ensures Inv(Next(s, step)) <==> Safe(s, step)
  {
    match step
    case DictionaryCall(_) => DictionaryStepKeepsInv(s, step);
    case DictionaryReplace(list) => ReplaceKeepsInvIff(s, list);
    case PopDefinition => DictionaryStepKeepsInv(s, step);
    case Write(i) => WriteKeepsInvIff(s, i);
    case WriteNext => WriteNextKeepsInvIff(s);
    case FailNext(oracle) => FailKeepsInvIff(s, oracle);
    case BeginHandling(objs) => BeginKeepsInv(s, objs);
    case _ => QuietStepKeepsInv(s, step);
  }

  /* ---- whole runs ---- */

  ghost predicate References(index: map<ObjKey, Entry>, k: DefKey) {
    exists o :: Refers(index, o, k)
  }

  ghost predicate Settled(s: System) {
    s.dict.fifo.order == [] && s.inFlight == [] && s.rematching.None?
  }

  // While every step so far was safe, a definition an object refers to is in the dictionary or
  // its deletion is still to be handled, and present once nothing is left to be handled.
  lemma {:induction false} NeverDangling(states: seq<System>, steps: seq<Step>, i: nat)
    requires IsRun(states, steps) && i < |states|
    requires forall j | 0 <= j < i :: Safe(states[j], steps[j])
    ensures Inv(states[i])
    ensures Settled(states[i]) ==> forall k | References(states[i].objects.index, k) :: k in states[i].dict.index
  {
    if i > 0 {
      NeverDangling(states, steps, i - 1);
      assert Enabled(states[i - 1], steps[i - 1]) && states[i] == Next(states[i - 1], steps[i - 1]);
      StepKeepsInvIff(states[i - 1], steps[i - 1]);
    }
    if Settled(states[i]) {
      forall k | References(states[i].objects.index, k) ensures k in states[i].dict.index {
        var o :| Refers(states[i].objects.index, o, k);
        assert Known(states[i], k);
        assert Queued(states[i].dict.fifo, k) == [];
      }
    }
  }

  lemma {:induction false} RunKeepsShape(states: seq<System>, steps: seq<Step>, i: nat)
    requires IsRun(states, steps) && i < |states|
    ensures Shape(states[i])
  {
    if i > 0 {
      RunKeepsShape(states, steps, i - 1);
      assert Enabled(states[i - 1], steps[i - 1]) && states[i] == Next(states[i - 1], steps[i - 1]);
      StepKeepsShape(states[i - 1], steps[i - 1]);
    }
  }

  // The first unsafe step of a run leaves a dangling reference at once, so a run never has one
  // exactly when all its steps are safe.
  lemma NeverDanglesIff(states: seq<System>, steps: seq<Step>)
    requires IsRun(states, steps)
    ensures (forall i | 0 <= i < |states| :: NoDangling(states[i]))
      <==> (forall i | 0 <= i < |steps| :: Safe(states[i], steps[i]))
  {
    forall i | 0 <= i < |states| ensures Shape(states[i]) {
      RunKeepsShape(states, steps, i);
    }
    if forall i | 0 <= i < |states| :: NoDangling(states[i]) {
      forall i | 0 <= i < |steps| ensures Safe(states[i], steps[i]) {
        assert Enabled(states[i], steps[i]) && states[i + 1] == Next(states[i], steps[i]);
        assert NoDangling(states[i]) && NoDangling(states[i + 1]);
        StepKeepsInvIff(states[i], steps[i]);
      }
    }
    if forall i | 0 <= i < |steps| :: Safe(states[i], steps[i]) {
      forall i | 0 <= i < |states| ensures NoDangling(states[i]) {
        NeverDangling(states, steps, i);
      }
    }
  }

  ghost predicate FoundIsKnown(s: System) {
    s.rematching.Some? && s.rematching.value.found.Some? ==>
      forall k | k in DefKeys(s.rematching.value.found.value) :: Known(s, k)
  }

  // A re-match holds the store lock from its look-ups to its writes, so no deletion is handled in
  // between: without a Replace all its writes are safe.
  lemma {:induction false} RematchWritesAreSafe(states: seq<System>, steps: seq<Step>, i: nat)
    requires IsRun(states, steps) && i < |states|
    requires forall j | 0 <= j < i :: !steps[j].DictionaryReplace?
    ensures FoundIsKnown(states[i])
    ensures i < |steps| && steps[i].WriteNext? ==> Safe(states[i], steps[i])
  {
    if i > 0 {
      var s, step := states[i - 1], steps[i - 1];
      RematchWritesAreSafe(states, steps, i - 1);
      RunKeepsShape(states, steps, i - 1);
      assert Enabled(s, step) && states[i] == Next(s, step);
      if !step.BeginHandling? && !step.LookUpNext? {
        forall k | Known(s, k) ensures Known(states[i], k) {
          KnownIsKept(s, step, k);
        }
      }
    }
  }

  /* ---- one handling, with the dictionary left alone ---- */

  // The entry of k after the first n of the objects were re-matched.
  ghost predicate ExactUpTo(
    index: map<ObjKey, Entry>, after: map<ObjKey, Entry>, objs: seq<Object>, n: nat, dict: map<DefKey, Definition>,
    oracle: Oracle, k: ObjKey)
    requires n <= |objs|
  {
    k in index ==>
      && k in after
      && if index[k].obj in objs[..n]
         then after[k].obj == index[k].obj && IsMatch(dict, oracle, index[k].obj, after[k].defs)
         else after[k] == index[k]
  }

  lemma RematchedNext(
    index: map<ObjKey, Entry>, before: map<ObjKey, Entry>, objs: seq<Object>, n: nat, defs: seq<Definition>,
    dict: map<DefKey, Definition>, oracle: Oracle, k: ObjKey)
    requires KeyedByObject(index) && 0 < n <= |objs| && ExactUpTo(index, before, objs, n - 1, dict, oracle, k)
    requires var o := objs[n - 1]; o.key in index && index[o.key].obj == o && IsMatch(dict, oracle, o, defs)
    ensures var o := objs[n - 1]; ExactUpTo(index, before[o.key := Entry(o, defs)], objs, n, dict, oracle, k)
  {
    var o := objs[n - 1];
    assert objs[..n] == objs[..n - 1] + [o];
    if k in index && k != o.key {
      assert index[k].obj != o;
    }
  }

  // An error-free SyncByIndex leaves in every selected entry exactly the current matches, and
  // every other entry as it was.
  lemma {:induction false} RematchIsExact(
    st: ObjStore, objs: seq<Object>, n: nat, ops: seq<StoreOp>, dict: map<DefKey, Definition>, oracle: Oracle,
    k: ObjKey)
    requires KeyedByObject(st.index) && n <= |objs|
    requires forall o | o in objs :: o.key in st.index && st.index[o.key].obj == o
    requires LookedUpAgain(objs, ops, dict, oracle) && |ops| == n
    ensures RunAll(st, ops).index.Keys == st.index.Keys
    ensures ExactUpTo(st.index, RunAll(st, ops).index, objs, n, dict, oracle, k)
    decreases n
  {
    if n > 0 {
      var init, last := ops[..n - 1], ops[n - 1];
      RematchIsExact(st, objs, n - 1, init, dict, oracle, k);
      assert last == Rematch(objs[n - 1], last.defs) && objs[n - 1] in objs;
      RematchedNext(st.index, RunAll(st, init).index, objs, n, last.defs, dict, oracle, k);
    }
  }

  // Handling a deletion without error leaves no reference, unless the definition is back.
  lemma HandledDeletionIsForgotten(
    d: Delta<Definition>, st: ObjStore, objs: seq<Object>, ops: seq<StoreOp>, dict: map<DefKey, Definition>,
    oracle: Oracle)
    requires KeyedByObject(st.index) && d.typ.Deleted? && Handles(d, st.index, objs, ops, true, dict, oracle)
    ensures References(RunAll(st, ops).index, d.obj.key) ==> d.obj.key in dict
  {
    var k, after := d.obj.key, RunAll(st, ops).index;
    if References(after, k) {
      var o :| Refers(after, o, k);
      RematchIsExact(st, objs, |objs|, ops, dict, oracle, o);
      assert objs[..|objs|] == objs;
      if st.index[o].obj in objs {
        var x :| x in after[o].defs && x.key == k;
      }
    }
  }

  // Handling an added, updated or synced definition re-matches its own namespace and nothing
  // else: an object there refers to exactly its current matches, any other is left as it was.
  lemma HandledChangeRematchesNamespace(
    d: Delta<Definition>, st: ObjStore, objs: seq<Object>, ops: seq<StoreOp>, dict: map<DefKey, Definition>,
    oracle: Oracle, k: ObjKey)
    requires KeyedByObject(st.index) && Handles(d, st.index, objs, ops, true, dict, oracle)
    requires (d.typ.Added? || d.typ.Updated? || d.typ.Sync?) && k in st.index
    ensures var after := RunAll(st, ops).index;
      && k in after
      && if k.namespace == d.obj.key.namespace
         then after[k].obj == st.index[k].obj && IsMatch(dict, oracle, st.index[k].obj, after[k].defs)
         else after[k] == st.index[k]
  {
    RematchIsExact(st, objs, |objs|, ops, dict, oracle, k);
    assert objs[..|objs|] == objs;
  }

  /* ---- the watcher's call is a path of the system ---- */

  lemma ExtendPath(states: seq<System>, steps: seq<Step>, step: Step, next: System)
    requires IsPath(states, steps) && Enabled(states[|steps|], step) && Next(states[|steps|], step) == next
    ensures IsPath(states + [next], steps + [step])
  {
  }

  function Midway(s: System, objs: seq<Object>, ops: seq<StoreOp>): System
    requires s.inFlight != [] && |ops| <= |objs|
  {
    s.(inFlight := s.inFlight[1..], objects := RunAll(s.objects, ops),
       rematching := Some(Rematching(DeletedBy(s.inFlight[0]), objs[|ops|..], None)))
  }

  lemma {:induction false} RematchesAsSteps(s: System, objs: seq<Object>, ops: seq<StoreOp>, oracle: Oracle)
    returns (states: seq<System>, steps: seq<Step>)
    requires Enabled(s, BeginHandling(objs)) && LookedUpAgain(objs, ops, s.dict.index, oracle)
    ensures IsPath(states, steps) && states[0] == s && states[|steps|] == Midway(s, objs, ops)
    decreases |ops|
  {
    if ops == [] {
      states, steps := [s, Midway(s, objs, [])], [BeginHandling(objs)];
      assert objs[0..] == objs;
    } else {
      var n := |ops| - 1;
      var init, last := ops[..n], ops[n];
      states, steps := RematchesAsSteps(s, objs, init, oracle);
      var m := Midway(s, objs, init);
      var looked := m.(rematching := Some(m.rematching.value.(found := Some(last.defs))));
      assert objs[n..][0] == objs[n] && objs[n..][1..] == objs[n + 1..];
      ExtendPath(states, steps, LookUpNext(last.defs, oracle), looked);
      states, steps := states + [looked], steps + [LookUpNext(last.defs, oracle)];
      assert last == Rematch(objs[n], last.defs);
      ExtendPath(states, steps, WriteNext, Midway(s, objs, ops));
      states, steps := states + [Midway(s, objs, ops)], steps + [WriteNext];
    }
  }

  // What one call of the watcher does to the store is one such path, with no step of others in
  // between: it begins, looks up and writes each object, and ends or fails.
  lemma HandlingAsSteps(s: System, objs: seq<Object>, ops: seq<StoreOp>, ok: bool, oracle: Oracle)
    returns (states: seq<System>, steps: seq<Step>)
    requires s.rematching.None? && s.inFlight != []
    requires Handles(s.inFlight[0], s.objects.index, objs, ops, ok, s.dict.index, oracle)
    ensures IsPath(states, steps) && states[0] == s
    ensures states[|steps|] == s.(inFlight := s.inFlight[1..], objects := RunAll(s.objects, ops))
  {
    states, steps := RematchesAsSteps(s, objs, ops, oracle);
    var m, done := Midway(s, objs, ops), s.(inFlight := s.inFlight[1..], objects := RunAll(s.objects, ops));
    var last := if |ops| == |objs| then EndRematch else FailNext(oracle);
    if |ops| < |objs| {
      assert objs[|ops|..][0] == objs[|ops|];
    }
    ExtendPath(states, steps, last, done);
    states, steps := states + [done], steps + [last];
  }

  /* ---- runs that reach a dangling reference ---- */

  // No Replace, and no look-up error.
  predicate Ordinary(step: Step) {
    !step.DictionaryReplace? && !step.FailNext?
  }

  lemma EnqueueFirst(k: DefKey, d: Delta<Definition>)
    ensures Enqueue(Empty(), k, d) == Fifo([k], map[k := [d]])
  {
    assert Queued(Empty<DefKey, Definition>(), k) + [d] == [d];
  }

  lemma ExtendRun(states: seq<System>, steps: seq<Step>, step: Step)
    returns (states': seq<System>, steps': seq<Step>)
    requires IsRun(states, steps) && Enabled(states[|steps|], step)
    ensures IsRun(states', steps') && steps' == steps + [step]
    ensures states' == states + [Next(states[|steps|], step)]
  {
    ExtendPath(states, steps, step, Next(states[|steps|], step));
    states', steps' := states + [Next(states[|steps|], step)], steps + [step];
  }

  // A dictionary call whose change is popped and taken up at once; objs are those it affects.
  lemma CallAndBegin(states: seq<System>, steps: seq<Step>, op: Operation, objs: seq<Object>)
    returns (states': seq<System>, steps': seq<Step>)
    requires IsRun(states, steps) && (forall step | step in steps :: Ordinary(step)) && Settled(states[|steps|])
    requires states[|steps|].dict.fifo == Empty() && Acts(states[|steps|].dict, op)
    requires Emission(states[|steps|].dict, op).Some?
    requires IsAffected(Emission(states[|steps|].dict, op).value, states[|steps|].objects.index, objs)
    ensures IsRun(states', steps') && (forall step | step in steps' :: Ordinary(step))
    ensures var s, d := states[|steps|], Emission(states[|steps|].dict, op).value;
      states'[|steps'|] == s.(dict := VP.Store(Dictionary.Perform(s.dict, op).index, Empty()),
                              rematching := Some(Rematching(DeletedBy(d), objs, None)))
  {
    var s := states[|steps|];
    var d := Emission(s.dict, op).value;
    EnqueueFirst(op.def.key, d);
    states', steps' := ExtendRun(states, steps, DictionaryCall(op));
    var s1 := Next(s, DictionaryCall(op));
    assert s1.dict.fifo == Fifo([op.def.key], map[op.def.key := [d]]);
    states', steps' := ExtendRun(states', steps', PopDefinition);
    var s2 := Next(s1, PopDefinition);
    assert s2.inFlight == [d] && s2.dict.fifo == Empty();
    states', steps' := ExtendRun(states', steps', BeginHandling(objs));
    assert [d][1..] == [];
  }

  // Definitions are added and handled while there is no object.
  lemma AddAndHandle(states: seq<System>, steps: seq<Step>, d: Definition)
    returns (states': seq<System>, steps': seq<Step>)
    requires IsRun(states, steps) && (forall step | step in steps :: Ordinary(step)) && Settled(states[|steps|])
    requires states[|steps|].dict.fifo == Empty() && states[|steps|].objects.index == map[]
    ensures IsRun(states', steps') && (forall step | step in steps' :: Ordinary(step))
    ensures var s := states[|steps|];
      states'[|steps'|] == s.(dict := VP.Store(s.dict.index[d.key := d], Empty()))
  {
    states', steps' := CallAndBegin(states, steps, Operation.Add(d), []);
    states', steps' := ExtendRun(states', steps', EndRematch);
  }

  // An object is looked up that d matches and no other definition does.
  lemma LookUpMatched(states: seq<System>, steps: seq<Step>, d: Definition, o: Object)
    returns (states': seq<System>, steps': seq<Step>)
    requires IsRun(states, steps) && (forall step | step in steps :: Ordinary(step))
    requires d.key in states[|steps|].dict.index && states[|steps|].dict.index[d.key] == d
    ensures IsRun(states', steps') && (forall step | step in steps' :: Ordinary(step))
    ensures states'[|steps'|] == states[|steps|].(looked := states[|steps|].looked + [AddObj(o, [d])])
  {
    var s := states[|steps|];
    var oracle: Oracle := (x, obj) => if x == d then Matched else Unmatched;
    RunKeepsShape(states, steps, |steps|);
    assert IsMatch(s.dict.index, oracle, o, [d]);
    states', steps' := ExtendRun(states, steps, LookUp(AddObj(o, [d]), oracle));
  }

  // And written.
  lemma AddMatched(states: seq<System>, steps: seq<Step>, d: Definition, o: Object)
    returns (states': seq<System>, steps': seq<Step>)
    requires IsRun(states, steps) && (forall step | step in steps :: Ordinary(step))
    requires d.key in states[|steps|].dict.index && states[|steps|].dict.index[d.key] == d
    requires states[|steps|].looked == [] && states[|steps|].rematching.None?
    ensures IsRun(states', steps') && (forall step | step in steps' :: Ordinary(step))
    ensures var s := states[|steps|];
      states'[|steps'|] == s.(objects := Run(s.objects, AddObj(o, [d])))
  {
    var s := states[|steps|];
    states', steps' := LookUpMatched(states, steps, d, o);
    assert s.looked + [AddObj(o, [d])] == [AddObj(o, [d])];
    states', steps' := ExtendRun(states', steps', Write(0));
    assert [AddObj(o, [d])][..0] + [AddObj(o, [d])][1..] == [];
  }

  ghost predicate Dangles(s: System, k: DefKey) {
    References(s.objects.index, k) && k !in s.dict.index && Settled(s) && s.looked == []
  }

  // The filter of `other` fails while the deletion of d is handled: the change is used up and
  // the object keeps naming d.
  lemma FailedHandlingDangles(d: Definition, other: Definition, o: Object)
    returns (states: seq<System>, steps: seq<Step>)
    requires d.key != other.key
    ensures IsRun(states, steps) && Dangles(states[|steps|], d.key)
    ensures steps != [] && forall step | step in steps[..|steps| - 1] :: Ordinary(step)
    ensures steps[|steps| - 1].FailNext?
  {
    states, steps := [Initial()], [];
    states, steps := AddAndHandle(states, steps, d);
    states, steps := AddAndHandle(states, steps, other);
    states, steps := AddMatched(states, steps, d, o);
    var s := states[|steps|];
    assert s.objects.index == map[o.key := Entry(o, [d])];
    states, steps := CallAndBegin(states, steps, Operation.Delete(d), [o]);
    assert other.key in states[|steps|].dict.index;
    states, steps := ExtendRun(states, steps, FailNext((x, obj) => Failed));
    assert Refers(states[|steps|].objects.index, o.key, d.key);
  }

  // Replace with an empty list drops the definition an object names, and queues nothing for it.
  lemma ReplaceDangles(d: Definition, o: Object) returns (states: seq<System>, steps: seq<Step>)
    ensures IsRun(states, steps) && Dangles(states[|steps|], d.key)
    ensures steps != [] && forall step | step in steps[..|steps| - 1] :: Ordinary(step)
    ensures steps[|steps| - 1] == DictionaryReplace([])
  {
    states, steps := [Initial()], [];
    states, steps := AddAndHandle(states, steps, d);
    states, steps := AddMatched(states, steps, d, o);
    states, steps := ExtendRun(states, steps, DictionaryReplace([]));
    assert Refers(states[|steps|].objects.index, o.key, d.key);
  }

  // An object matched before the deletion of d is handled and written after it, with neither a
  // Replace nor an error.
  lemma LateWriteDangles(d: Definition, o: Object) returns (states: seq<System>, steps: seq<Step>)
    ensures IsRun(states, steps) && Dangles(states[|steps|], d.key)
    ensures forall step | step in steps :: Ordinary(step)
  {
    states, steps := [Initial()], [];
    states, steps := AddAndHandle(states, steps, d);
    states, steps := LookUpMatched(states, steps, d, o);
    states, steps := CallAndBegin(states, steps, Operation.Delete(d), []);
    states, steps := ExtendRun(states, steps, EndRematch);
    states, steps := ExtendRun(states, steps, Write(0));
    assert Refers(states[|steps|].objects.index, o.key, d.key);
  }
}
