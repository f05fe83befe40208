/**
 The queue of changes behind both stores: a FIFO of keys, and for every queued key the list
 of changes not yet popped.  The queue itself is client-go's DeltaFIFO, which the repository
 uses but does not contain; this is its documented behaviour on values.
 */
module DeltaFifo {
  import opened Wrappers

  // Tombstone is a Deleted change whose object is wrapped in DeletedFinalStateUnknown.
  datatype DeltaType = Added | Updated | Deleted | Sync | Replaced | Tombstone

  datatype Delta<+V> = Delta(typ: DeltaType, obj: V)

  datatype Fifo<K, V> = Fifo(order: seq<K>, items: map<K, seq<Delta<V>>>)

  ghost predicate Valid<K(!new), V>(f: Fifo<K, V>)
  {
    && NoDup(f.order)
    && (forall k :: k in f.order <==> k in f.items)
    && (forall k | k in f.items :: f.items[k] != [])
  }

  function Empty<K, V>(): Fifo<K, V> {
    Fifo([], map[])
  }

  function Queued<K, V>(f: Fifo<K, V>, k: K): seq<Delta<V>> {
    if k in f.items then f.items[k] else []
  }

  predicate IsDelete<V>(d: Delta<V>) {
    d.typ.Deleted? || d.typ.Tombstone?
  }

  // Two deletions in a row collapse into one; a tombstone gives way to the real object.
  function Dedup<V>(ds: seq<Delta<V>>): seq<Delta<V>> {
    var n := |ds|;
    if n >= 2 && IsDelete(ds[n - 2]) && IsDelete(ds[n - 1]) then
      if ds[n - 1].typ.Tombstone? then ds[..n - 1] else ds[..n - 2] + [ds[n - 1]]
    else
      ds
  }

  function Enqueue<K, V>(f: Fifo<K, V>, k: K, d: Delta<V>): Fifo<K, V> {
    Fifo(if k in f.items then f.order else f.order + [k],
         f.items[k := Dedup(Queued(f, k) + [d])])
  }

  // A deletion of a key known neither to the backing store nor to the queue is dropped.
  function Delete<K, V>(f: Fifo<K, V>, known: bool, k: K, v: V): Fifo<K, V> {
    if !known && k !in f.items then f else Enqueue(f, k, Delta(Deleted, v))
  }

  function Pop<K, V>(f: Fifo<K, V>): Fifo<K, V>
    requires f.order != []
  {
    Fifo(f.order[1..], f.items - {f.order[0]})
  }

  lemma EnqueueValid<K(!new), V>(f: Fifo<K, V>, k: K, d: Delta<V>)
    requires Valid(f)
    ensures Valid(Enqueue(f, k, d))
    ensures Queued(Enqueue(f, k, d), k) == Dedup(Queued(f, k) + [d])
    ensures forall j :: j != k ==> Queued(Enqueue(f, k, d), j) == Queued(f, j)
  {
  }

  // A queued change is the last one of its key, and no other key's changes move.
  lemma EnqueuedIsLast<K(!new), V>(f: Fifo<K, V>, k: K, d: Delta<V>)
    requires !d.typ.Tombstone?
    ensures var q := Queued(Enqueue(f, k, d), k); q != [] && q[|q| - 1] == d
    ensures forall j :: j != k ==> Queued(Enqueue(f, k, d), j) == Queued(f, j)
  {
  }

  lemma PopValid<K(!new), V>(f: Fifo<K, V>)
    requires Valid(f) && f.order != []
    ensures f.order[0] in f.items && Valid(Pop(f))
    ensures Queued(Pop(f), f.order[0]) == []
    ensures forall j :: j != f.order[0] ==> Queued(Pop(f), j) == Queued(f, j)
  {
    var g := Pop(f);
    assert f.order[0] in f.order;
    forall j ensures j in g.order <==> j in g.items {
      if j in g.order {
        var i :| 0 <= i < |g.order| && g.order[i] == j;
        assert f.order[i + 1] == j && f.order[0] != j;
        assert j in f.order;
      }
    }
  }

  // Every queued change of every key satisfies p.
  ghost predicate AllQueued<K(!new), V(!new)>(f: Fifo<K, V>, p: (K, Delta<V>) -> bool)
  {
    forall k, d :: d in Queued(f, k) ==> p(k, d)
  }

  lemma EnqueueAll<K(!new), V(!new)>(f: Fifo<K, V>, k: K, d: Delta<V>, p: (K, Delta<V>) -> bool)
    requires AllQueued(f, p) && p(k, d)
    ensures AllQueued(Enqueue(f, k, d), p)
  {
    var g := Enqueue(f, k, d);
    forall j, e | e in Queued(g, j) ensures p(j, e) {
      if j == k {
        assert e in Queued(f, k) + [d];
      } else {
        assert e in Queued(f, j);
      }
    }
  }

  /* ---- Replace: a Sync for every listed object, a tombstone for every other queued key ---- */

  function SyncAll<K, V>(f: Fifo<K, V>, list: seq<(K, V)>): Fifo<K, V>
    decreases |list|
  {
    if list == [] then f
    else
      var last := list[|list| - 1];
      Enqueue(SyncAll(f, list[..|list| - 1]), last.0, Delta(Sync, last.1))
  }

  function Bury<K, V>(f: Fifo<K, V>, listed: set<K>): Fifo<K, V> {
    Fifo(f.order, map k | k in f.items ::
      var ds := f.items[k];
      if k in listed || ds == [] then ds else Dedup(ds + [Delta(Tombstone, ds[|ds| - 1].obj)]))
  }

  function Listed<K, V>(list: seq<(K, V)>): set<K> {
    set i | 0 <= i < |list| :: list[i].0
  }

  // The backing store was replaced first, so it knows no key outside the list.
  function Replace<K, V>(f: Fifo<K, V>, list: seq<(K, V)>): Fifo<K, V> {
    Bury(SyncAll(f, list), Listed(list))
  }
}
