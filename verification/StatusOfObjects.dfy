/**
 From the object store to the status: a deletion carries the definitions of the entry it removes,
 so that each of them stops tracking the object.
 */
module StatusOfObjects {
  import opened DeltaFifo
  import opened MeteringTypes
  import opened ObjectStore
  import opened StatusProcessor

  // The change a deletion queues names the object and the definitions it was indexed with.
  lemma DeletionNamesDefinitions(st: ObjStore, o: Object)
    requires o.key in st.index
    ensures var q := Queued(Run(st, DeleteObj(o)).fifo, o.key);
      q != [] && q[|q| - 1] == Delta(Deleted, st.index[o.key])
    ensures o.key !in Run(st, DeleteObj(o)).index
  {
    EnqueuedIsLast(st.fifo, o.key, Delta(Deleted, st.index[o.key]));
  }

  // Once that change is processed no definition of the removed entry tracks the object, whatever
  // was tracked before, and no other definition's workloads changed.
  lemma DeletedObjectIsUntracked(st: ObjStore, o: Object, m: Statuses, k: DefKey)
    requires o.key in st.index
    ensures var q := Queued(Run(st, DeleteObj(o)).fifo, o.key);
      && q != []
      && var d := q[|q| - 1];
         var after := TrackAll(m, d.obj.defs, Workload(d.obj.obj.uid, d.obj.obj.key), d.typ.Deleted?);
         && (k in DefKeys(st.index[o.key].defs) ==> st.index[o.key].obj.uid !in TrackedUids(after, k))
         && (k !in DefKeys(st.index[o.key].defs) ==> TrackedUids(after, k) == TrackedUids(m, k))
  {
    DeletionNamesDefinitions(st, o);
    var e := st.index[o.key];
    TrackAllUids(m, e.defs, Workload(e.obj.uid, e.obj.key), true, k);
  }

  // A match that is written is tracked once its change is processed: the definitions it names are
  // those of the new entry.
  lemma MatchedObjectIsTracked(st: ObjStore, op: StoreOp, m: Statuses, k: DefKey)
    requires ActsOn(st, op) && !op.DeleteObj? && k in DefKeys(op.defs)
    ensures var q := Queued(Run(st, op).fifo, op.obj.key);
      && q != []
      && var d := q[|q| - 1];
         d.obj == Entry(op.obj, op.defs)
         && op.obj.uid in TrackedUids(TrackAll(m, d.obj.defs, Workload(op.obj.uid, op.obj.key), d.typ.Deleted?), k)
  {
    EnqueuedIsLast(st.fifo, op.obj.key, Delta(Added, Entry(op.obj, op.defs)));
    assert op.defs != [];
    TrackAllUids(m, op.defs, Workload(op.obj.uid, op.obj.key), false, k);
  }
}
