/**
 MeterDefinitionStore: every watched object with the definitions that matched it when it was
 last looked at, and the changes that keep the scraped object metrics up to date.
 */
module ObjectStore {
  import opened Wrappers
  import opened DeltaFifo
  import opened MeteringTypes
  import opened PrometheusData
  import opened Dictionary
  import VP = ViewPipeline

  type ObjStore = VP.Store<ObjKey, Entry>

  // One object going through the store, with the definitions its look-up returned.
  // Rematch is the loop body of Resync and SyncByIndex.
  datatype StoreOp =
    | AddObj(obj: Object, defs: seq<Definition>)
    | UpdateObj(obj: Object, defs: seq<Definition>)
    | Rematch(obj: Object, defs: seq<Definition>)
    | DeleteObj(obj: Object)

  predicate ActsOn(st: ObjStore, op: StoreOp) {
    match op
    case AddObj(_, _) => true
    case UpdateObj(o, _) => o.key in st.index && st.index[o.key].obj.generation != o.generation
    case Rematch(o, _) => o.key in st.index
    case DeleteObj(o) => o.key in st.index
  }

  function WrittenBy(op: StoreOp): VP.Write<ObjKey, Entry> {
    VP.Write(op.obj.key, if op.DeleteObj? then None else Some(Entry(op.obj, op.defs)))
  }

  // A bare Add of an unmatched object emits nothing; an Update or a re-match retracts.
  function EmittedBy(st: ObjStore, op: StoreOp): Option<Delta<Entry>>
    requires ActsOn(st, op)
  {
    match op
    case DeleteObj(o) => Some(Delta(Deleted, st.index[o.key]))
    case _ =>
      var e := Entry(op.obj, op.defs);
      if op.defs != [] then Some(Delta(Added, e))
      else if op.AddObj? then None
      else Some(Delta(Deleted, e))
  }

  function Run(st: ObjStore, op: StoreOp): ObjStore {
    if ActsOn(st, op) then VP.Perform(st, WrittenBy(op), EmittedBy(st, op)) else st
  }

  function RunAll(st: ObjStore, ops: seq<StoreOp>): ObjStore
    decreases |ops|
  {
    if ops == [] then st else Run(RunAll(st, ops[..|ops| - 1]), ops[|ops| - 1])
  }

  datatype IndexQuery = ByNamespace(namespace: string) | ByDefinition(def: DefKey)

  predicate Selects(q: IndexQuery, e: Entry) {
    match q
    case ByNamespace(ns) => e.obj.key.namespace == ns
    case ByDefinition(d) => d in DefKeys(e.defs)
  }

  // `defs` is what a look-up of `obj` in the dictionary returned.
  ghost predicate IsMatch(dict: map<DefKey, Definition>, oracle: Oracle, obj: Object, defs: seq<Definition>) {
    && NoDup(defs)
    && (forall d :: d in defs <==> d.key in dict && dict[d.key] == d && oracle(d, obj).Matched?)
    && forall k | k in dict :: !oracle(dict[k], obj).Failed?
  }

  ghost predicate KeyedByObject(index: map<ObjKey, Entry>) {
    forall k | k in index :: index[k].obj.key == k
  }

  // The entry of an object is now the object with exactly its matches, and the last change of its
  // key says so: Added if there is a match, Deleted if there is none.
  ghost predicate Rewritten(
    before: map<ObjKey, Entry>, index: map<ObjKey, Entry>, delta: Fifo<ObjKey, Entry>,
    dict: map<DefKey, Definition>, oracle: Oracle, obj: Object)
  {
    && obj.key in index && index[obj.key].obj == obj && index == before[obj.key := index[obj.key]]
    && (forall d :: d in index[obj.key].defs <==> d.key in dict && dict[d.key] == d && oracle(d, obj).Matched?)
    && var q := Queued(delta, obj.key);
       q != [] && q[|q| - 1] == Delta(if index[obj.key].defs == [] then Deleted else Added, index[obj.key])
  }

  class MeterDefinitionStore {
    const dictionary: MeterDefinitionDictionary
    var index: map<ObjKey, Entry>
    var delta: Fifo<ObjKey, Entry>

    ghost predicate Valid()
      reads this, dictionary
    {
      dictionary.Valid() && KeyedByObject(index)
    }

    function State(): ObjStore
      reads this
    {
      VP.Store(index, delta)
    }

    constructor (dictionary: MeterDefinitionDictionary)
      requires dictionary.Valid()
      ensures Valid() && this.dictionary == dictionary && State() == VP.Store(map[], Empty())
    {
      this.dictionary := dictionary;
      index, delta := map[], Empty();
    }

    method FindMatches(obj: Object, oracle: Oracle) returns (r: Result<seq<Definition>, MatchError>)
      requires Valid()
      ensures r.Ok? ==> IsMatch(dictionary.cache, oracle, obj, r.value)
      ensures r.Err? <==> exists k | k in dictionary.cache :: oracle(dictionary.cache[k], obj).Failed?
    {
      r := dictionary.FindObjectMatches(obj, oracle);
    }

    // On success `op` is the operation performed; a failed look-up changes nothing.
    method Add(obj: Object, oracle: Oracle) returns (ok: bool, ghost op: StoreOp)
      requires Valid()
      modifies this
      ensures Valid()
      ensures ok <==> forall k | k in dictionary.cache :: !oracle(dictionary.cache[k], obj).Failed?
      ensures ok ==> op.AddObj? && op.obj == obj && IsMatch(dictionary.cache, oracle, obj, op.defs)
      ensures State() == if ok then Run(old(State()), op) else old(State())
      ensures !ok ==> index == old(index) && delta == old(delta)
      ensures ok ==> obj.key in index && index[obj.key].obj == obj && index == old(index)[obj.key := index[obj.key]]
      ensures ok ==> forall d :: d in index[obj.key].defs <==>
        d.key in dictionary.cache && dictionary.cache[d.key] == d && oracle(d, obj).Matched?
      ensures ok && index[obj.key].defs == [] ==> delta == old(delta)
      ensures ok && index[obj.key].defs != [] ==>
        var q := Queued(delta, obj.key); q != [] && q[|q| - 1] == Delta(Added, index[obj.key])
      ensures forall k | k != obj.key :: Queued(delta, k) == old(Queued(delta, k))
    {
      var r := FindMatches(obj, oracle);
      op := AddObj(obj, []);
      if r.Err? {
        return false, op;
      }
      op := AddObj(obj, r.value);
      if r.value != [] {
        EnqueuedIsLast(delta, obj.key, Delta(Added, Entry(obj, r.value)));
        delta := Enqueue(delta, obj.key, Delta(Added, Entry(obj, r.value)));
      }
      index := index[obj.key := Entry(obj, r.value)];
      return true, op;
    }

    method Update(obj: Object, oracle: Oracle) returns (ok: bool, ghost op: StoreOp)
      requires Valid()
      modifies this
      ensures Valid()
      ensures ok <==> forall k | k in dictionary.cache :: !oracle(dictionary.cache[k], obj).Failed?
      ensures ok ==> op.UpdateObj? && op.obj == obj && IsMatch(dictionary.cache, oracle, obj, op.defs)
      ensures State() == if ok then Run(old(State()), op) else old(State())
      ensures !ok || obj.key !in old(index) || old(index)[obj.key].obj.generation == obj.generation ==>
        index == old(index) && delta == old(delta)
      ensures ok && obj.key in old(index) && old(index)[obj.key].obj.generation != obj.generation ==>
        Rewritten(old(index), index, delta, dictionary.cache, oracle, obj)
      ensures forall k | k != obj.key :: Queued(delta, k) == old(Queued(delta, k))
    {
      var r := FindMatches(obj, oracle);
      op := UpdateObj(obj, []);
      if r.Err? {
        return false, op;
      }
      op := UpdateObj(obj, r.value);
      if obj.key in index {
        if obj.generation == index[obj.key].obj.generation {
          return true, op;
        }
        var entry := Entry(obj, r.value);
        if r.value != [] {
          EnqueuedIsLast(delta, obj.key, Delta(Added, entry));
          delta := Enqueue(delta, obj.key, Delta(Added, entry));
        } else {
          EnqueuedIsLast(delta, obj.key, Delta(Deleted, entry));
          delta := DeltaFifo.Delete(delta, true, obj.key, entry);
        }
        index := index[obj.key := entry];
      }
      return true, op;
    }

    method Delete(obj: Object)
      requires Valid()
      modifies this
      ensures Valid()
      ensures State() == Run(old(State()), DeleteObj(obj))
      ensures obj.key !in old(index) ==> index == old(index) && delta == old(delta)
      ensures obj.key in old(index) ==>
        && index == old(index) - {obj.key}
        && var q := Queued(delta, obj.key);
           q != [] && q[|q| - 1] == Delta(Deleted, old(index)[obj.key])
      ensures forall k | k != obj.key :: Queued(delta, k) == old(Queued(delta, k))
    {
      if obj.key in index {
        EnqueuedIsLast(delta, obj.key, Delta(Deleted, index[obj.key]));
        delta := DeltaFifo.Delete(delta, true, obj.key, index[obj.key]);
        index := index - {obj.key};
        assert index == Assign(old(index), obj.key, None);
      }
    }

    // Deletes an object and adds it again; after a failed look-up it stays deleted.
    method ReAdd(obj: Object, oracle: Oracle) returns (ok: bool, ghost op: StoreOp)
      requires Valid()
      modifies this
      ensures Valid()
      ensures ok <==> forall k | k in dictionary.cache :: !oracle(dictionary.cache[k], obj).Failed?
      ensures ok ==> op.AddObj? && op.obj == obj && IsMatch(dictionary.cache, oracle, obj, op.defs)
      ensures State() == (if ok then Run(Run(old(State()), DeleteObj(obj)), op) else Run(old(State()), DeleteObj(obj)))
    {
      Delete(obj);
      ok, op := Add(obj, oracle);
    }

    // Every listed object is deleted and added again; the first failed look-up stops the
    // loop after the deletion.  Objects outside the list are not touched.
    method Replace(list: seq<Object>, oracle: Oracle) returns (ok: bool, ghost ops: seq<StoreOp>)
      requires Valid()
      modifies this
      ensures Valid()
      ensures State() == RunAll(old(State()), ops)
      ensures IsReplace(list, ops, ok, dictionary.cache, oracle)
    {
      ops := [];
      for i := 0 to |list|
        invariant Valid() && State() == RunAll(old(State()), ops)
        invariant dictionary.cache == old(dictionary.cache)
        invariant |ops| == 2 * i && ReAdded(list, ops, dictionary.cache, oracle)
      {
        ghost var delete := DeleteObj(list[i]);
        RunAllSnoc(old(State()), ops, delete);
        ReAddedSnoc(list, ops, delete, dictionary.cache, oracle);
        var added, op := ReAdd(list[i], oracle);
        ops := ops + [delete];
        if !added {
          return false, ops;
        }
        RunAllSnoc(old(State()), ops, op);
        ReAddedSnoc(list, ops, op, dictionary.cache, oracle);
        ops := ops + [op];
      }
      return true, ops;
    }

    // The selected entries in no particular order, each once.
    method ByIndex(keep: Entry -> bool) returns (objs: seq<Object>)
      requires Valid()
      ensures NoDup(objs)
      ensures forall o :: o in objs <==> o.key in index && index[o.key].obj == o && keep(index[o.key])
    {
      objs := [];
      var todo := index.Keys;
      while todo != {}
        invariant todo <= index.Keys
        invariant NoDup(objs)
        invariant forall o :: o in objs <==> o.key in index.Keys - todo && index[o.key].obj == o && keep(index[o.key])
      {
        var k :| k in todo;
        todo := todo - {k};
        if keep(index[k]) {
          objs := objs + [index[k].obj];
        }
      }
    }

    // Looks one indexed object up again and stores the outcome, retracting it if unmatched.
    method RematchOne(obj: Object, oracle: Oracle) returns (ok: bool, ghost op: StoreOp)
      requires Valid() && obj.key in index
      modifies this
      ensures Valid() && index.Keys == old(index.Keys)
      ensures ok <==> forall k | k in dictionary.cache :: !oracle(dictionary.cache[k], obj).Failed?
      ensures ok ==> op.Rematch? && op.obj == obj && IsMatch(dictionary.cache, oracle, obj, op.defs)
      ensures State() == if ok then Run(old(State()), op) else old(State())
      ensures !ok ==> index == old(index) && delta == old(delta)
      ensures ok ==> Rewritten(old(index), index, delta, dictionary.cache, oracle, obj)
      ensures forall k | k != obj.key :: Queued(delta, k) == old(Queued(delta, k))
    {
      var r := FindMatches(obj, oracle);
      op := Rematch(obj, []);
      if r.Err? {
        return false, op;
      }
      op := Rematch(obj, r.value);
      var entry := Entry(obj, r.value);
      if r.value != [] {
        EnqueuedIsLast(delta, obj.key, Delta(Added, entry));
        delta := Enqueue(delta, obj.key, Delta(Added, entry));
      } else {
        EnqueuedIsLast(delta, obj.key, Delta(Deleted, entry));
        delta := DeltaFifo.Delete(delta, true, obj.key, entry);
      }
      index := index[obj.key := entry];
      return true, op;
    }

    // Looks the given indexed objects up again, one after the other.
    method RematchAll(objs: seq<Object>, oracle: Oracle) returns (ok: bool, ghost ops: seq<StoreOp>)
      requires Valid() && forall o | o in objs :: o.key in index
      modifies this
      ensures Valid() && dictionary.cache == old(dictionary.cache)
      ensures State() == RunAll(old(State()), ops)
      ensures IsRematch(objs, ops, ok, dictionary.cache, oracle)
    {
      ops := [];
      for i := 0 to |objs|
        invariant Valid() && State() == RunAll(old(State()), ops)
        invariant dictionary.cache == old(dictionary.cache)
        invariant index.Keys == old(index.Keys)
        invariant |ops| == i && LookedUpAgain(objs, ops, dictionary.cache, oracle)
      {
        assert objs[i] in objs;
        var rematched, op := RematchOne(objs[i], oracle);
        if !rematched {
          return false, ops;
        }
        RunAllSnoc(old(State()), ops, op);
        ops := ops + [op];
      }
      return true, ops;
    }

    method Resync(oracle: Oracle) returns (ok: bool, ghost ops: seq<StoreOp>)
      requires Valid()
      modifies this
      ensures Valid() && State() == RunAll(old(State()), ops)
      ensures exists objs ::
        Enumerates(objs, old(index), _ => true) && IsRematch(objs, ops, ok, dictionary.cache, oracle)
    {
      var objs := ByIndex(_ => true);
      assert Enumerates(objs, index, _ => true);
      ok, ops := RematchAll(objs, oracle);
    }

    method SyncByIndex(q: IndexQuery, oracle: Oracle) returns (ok: bool, ghost ops: seq<StoreOp>)
      requires Valid()
      modifies this
      ensures Valid() && State() == RunAll(old(State()), ops)
      ensures exists objs ::
        Enumerates(objs, old(index), e => Selects(q, e)) && IsRematch(objs, ops, ok, dictionary.cache, oracle)
    {
      var objs := ByIndex(e => Selects(q, e));
      assert Enumerates(objs, index, e => Selects(q, e));
      ok, ops := RematchAll(objs, oracle);
    }
  }

  ghost predicate Enumerates(objs: seq<Object>, index: map<ObjKey, Entry>, keep: Entry -> bool) {
    && NoDup(objs)
    && forall o :: o in objs <==> o.key in index && index[o.key].obj == o && keep(index[o.key])
  }

  lemma RunAllSnoc(st: ObjStore, ops: seq<StoreOp>, op: StoreOp)
    ensures RunAll(st, ops + [op]) == Run(RunAll(st, ops), op)
  {
    assert (ops + [op])[..|ops|] == ops;
  }

  ghost predicate LookedUpAgain(objs: seq<Object>, ops: seq<StoreOp>, dict: map<DefKey, Definition>, oracle: Oracle)
  {
    && |ops| <= |objs|
    && forall i | 0 <= i < |ops| ::
         ops[i].Rematch? && ops[i].obj == objs[i] && IsMatch(dict, oracle, objs[i], ops[i].defs)
  }

  // `ops` re-matches the objects in order, all of them if ok, else up to the failed look-up.
  ghost predicate IsRematch(
    objs: seq<Object>, ops: seq<StoreOp>, ok: bool, dict: map<DefKey, Definition>, oracle: Oracle)
  {
    && LookedUpAgain(objs, ops, dict, oracle)
    && if ok then |ops| == |objs|
       else |ops| < |objs| && exists k | k in dict :: oracle(dict[k], objs[|ops|]).Failed?
  }

  ghost predicate ReAdded(list: seq<Object>, ops: seq<StoreOp>, dict: map<DefKey, Definition>, oracle: Oracle)
  {
    && |ops| <= 2 * |list|
    && forall i | 0 <= i < |ops| ::
         if i % 2 == 0 then ops[i] == DeleteObj(list[i / 2])
         else ops[i].AddObj? && ops[i].obj == list[i / 2] && IsMatch(dict, oracle, list[i / 2], ops[i].defs)
  }

  // `ops` deletes and re-adds the objects in order; a failed look-up leaves the last one deleted.
  ghost predicate IsReplace(
    list: seq<Object>, ops: seq<StoreOp>, ok: bool, dict: map<DefKey, Definition>, oracle: Oracle)
  {
    && ReAdded(list, ops, dict, oracle)
    && if ok then |ops| == 2 * |list|
       else |ops| % 2 == 1 && exists k | k in dict :: oracle(dict[k], list[|ops| / 2]).Failed?
  }

  lemma ReAddedSnoc(
    list: seq<Object>, ops: seq<StoreOp>, op: StoreOp, dict: map<DefKey, Definition>, oracle: Oracle)
    requires ReAdded(list, ops, dict, oracle) && |ops| < 2 * |list|
    requires var o := list[|ops| / 2];
      if |ops| % 2 == 0 then op == DeleteObj(o)
      else op.AddObj? && op.obj == o && IsMatch(dict, oracle, o, op.defs)
    ensures ReAdded(list, ops + [op], dict, oracle)
  {
    var more := ops + [op];
    forall i | 0 <= i < |more|
      ensures if i % 2 == 0 then more[i] == DeleteObj(list[i / 2])
        else more[i].AddObj? && more[i].obj == list[i / 2] && IsMatch(dict, oracle, list[i / 2], more[i].defs)
    {
      if i < |ops| {
        assert more[i] == ops[i];
      }
    }
  }
}
