/**
 StatusProcessor: tracks, per definition, the workloads whose changes named it, and writes
 them into the definition's status from time to time.
 */
module StatusProcessor {
  import opened Wrappers
  import opened DeltaFifo
  import opened MeteringTypes

  type Uid = string

  datatype Workload = Workload(uid: Uid, key: ObjKey)

  datatype UpdateableStatus = UpdateableStatus(needsUpdate: bool, resources: map<Uid, Workload>)

  type Statuses = map<DefKey, UpdateableStatus>

  // What happened to the processor: a change naming definitions, or a definition dropped by
  // a flush because it is gone from the cluster.
  datatype Event = Seen(uid: Uid, deleted: bool, defs: set<DefKey>) | Dropped(def: DefKey)

  function TrackedUids(m: Statuses, k: DefKey): set<Uid> {
    if k in m then m[k].resources.Keys else {}
  }

  // The workloads of a definition, replaying the history.
  function Alive(history: seq<Event>, k: DefKey): set<Uid> {
    if history == [] then {}
    else
      var last, before := history[|history| - 1], Alive(history[..|history| - 1], k);
      match last
      case Seen(uid, deleted, defs) =>
        if k !in defs then before else if deleted then before - {uid} else before + {uid}
      case Dropped(def) => if def == k then {} else before
  }

  predicate Names(e: Event, k: DefKey, uid: Uid) {
    e.Seen? && k in e.defs && e.uid == uid
  }

  // The last word on a workload and a definition is a change that is no deletion.
  lemma {:induction false} AliveIffLatestIsNotDeleted(history: seq<Event>, k: DefKey, uid: Uid)
    ensures uid in Alive(history, k) <==>
      exists i :: 0 <= i < |history| && Names(history[i], k, uid) && !history[i].deleted
        && forall j | i < j < |history| :: !Names(history[j], k, uid) && history[j] != Dropped(k)
  {
    if history != [] {
      var n := |history| - 1;
      var init, last := history[..n], history[n];
      AliveIffLatestIsNotDeleted(init, k, uid);
      if Names(last, k, uid) {
        if !last.deleted {
          assert Names(history[n], k, uid);
        }
      } else if last == Dropped(k) {
      } else {
        assert uid in Alive(history, k) <==> uid in Alive(init, k);
        if uid in Alive(init, k) {
          var i :| 0 <= i < |init| && Names(init[i], k, uid) && !init[i].deleted
            && forall j | i < j < |init| :: !Names(init[j], k, uid) && init[j] != Dropped(k);
          assert Names(history[i], k, uid);
        }
        forall i | 0 <= i < n ensures init[i] == history[i] {
        }
      }
    }
  }

  /* ---- is the status on the cluster already right? ---- */

  function Uids(list: seq<Workload>): set<Uid> {
    set w | w in list :: w.uid
  }

  ghost predicate DistinctUids(list: seq<Workload>) {
    forall i, j | 0 <= i < j < |list| :: list[i].uid != list[j].uid
  }

  predicate LooksEqual(list: seq<Workload>, m: map<Uid, Workload>) {
    |list| == |m| && forall w | w in list :: w.uid in m
  }

  lemma UidAppears(list: seq<Workload>, uid: Uid)
    ensures uid in Uids(list) <==> exists i :: 0 <= i < |list| && list[i].uid == uid
  {
    forall i | 0 <= i < |list| ensures list[i] in list {
    }
  }

  lemma {:induction false} CountUids(list: seq<Workload>)
    ensures |Uids(list)| <= |list|
    ensures |Uids(list)| == |list| <==> DistinctUids(list)
  {
    if list != [] {
      var n := |list| - 1;
      var last, init := list[n], list[..n];
      CountUids(init);
      assert list == init + [last];
      assert Uids(list) == Uids(init) + {last.uid};
      UidAppears(init, last.uid);
      assert DistinctUids(list) <==> DistinctUids(init) && last.uid !in Uids(init);
    }
  }

  lemma SubsetOfSameSize<T>(a: set<T>, b: set<T>)
    requires a <= b && |a| == |b|
    ensures a == b
  {
    assert b == a + (b - a);
    assert |b - a| == 0;
  }

  // Length plus inclusion decides equality of the UID sets exactly when the cluster's list
  // names no UID twice.
  lemma LooksEqualIsExact(list: seq<Workload>, m: map<Uid, Workload>)
    ensures DistinctUids(list) ==> (LooksEqual(list, m) <==> Uids(list) == m.Keys)
    ensures LooksEqual(list, m) ==> (Uids(list) == m.Keys <==> DistinctUids(list))
  {
    CountUids(list);
    assert |m| == |m.Keys|;
    if LooksEqual(list, m) {
      assert Uids(list) <= m.Keys;
      if DistinctUids(list) {
        SubsetOfSameSize(Uids(list), m.Keys);
      }
    }
    assert forall w | w in list :: w.uid in Uids(list);
  }

  // Two entries for the same workload hide a workload that is missing.
  lemma DuplicateHidesMissing(a: Workload, b: Workload)
    requires a.uid != b.uid
    ensures var m := map[a.uid := a, b.uid := b];
      LooksEqual([a, a], m) && Uids([a, a]) != m.Keys
  {
    var m := map[a.uid := a, b.uid := b];
    assert m.Keys == {a.uid, b.uid} && |m| == |m.Keys|;
    assert b.uid !in Uids([a, a]);
  }

  /* ---- the processor ---- */

  // The cluster as far as the processor writes it: the status list of every definition.
  type Api = map<DefKey, seq<Workload>>

  class StatusProcessor {
    var resources: Statuses
    ghost var history: seq<Event>

    ghost predicate Valid()
      reads this
    {
      && (forall k :: TrackedUids(resources, k) == Alive(history, k))
      && KeyedByUid(resources)
    }

    constructor ()
      ensures Valid() && resources == map[] && history == []
    {
      resources, history := map[], [];
    }

    // A tombstone is not the expected object: an error, and nothing changes.
    method Process(d: Delta<Entry>) returns (ok: bool)
      requires Valid()
      modifies this
      ensures Valid() && ok == !d.typ.Tombstone?
      ensures !ok ==> history == old(history) && resources == old(resources)
      ensures ok ==> history == old(history) + [EventOf(d)]
      ensures ok ==> resources == TrackAll(old(resources), d.obj.defs, WorkloadOf(d.obj.obj), d.typ.Deleted?)
      ensures ok ==> forall x | x in d.obj.defs :: x.key in resources && resources[x.key].needsUpdate
      ensures d.typ.Deleted? ==> forall x | x in d.obj.defs :: d.obj.obj.uid !in resources[x.key].resources
      ensures ok && !d.typ.Deleted? ==> forall x | x in d.obj.defs ::
        && d.obj.obj.uid in resources[x.key].resources
        && resources[x.key].resources[d.obj.obj.uid] == Workload(d.obj.obj.uid, d.obj.obj.key)
      ensures ok ==> forall k | (forall x | x in d.obj.defs :: x.key != k) ::
        Lookup(resources, k) == Lookup(old(resources), k)
    {
      if d.typ.Tombstone? {
        return false;
      }
      var defs, workload := d.obj.defs, WorkloadOf(d.obj.obj);
      for i := 0 to |defs|
        invariant history == old(history)
        invariant resources == TrackAll(old(resources), defs[..i], workload, d.typ.Deleted?)
      {
        assert defs[..i + 1][..i] == defs[..i];
        var status := if defs[i].key in resources then resources[defs[i].key] else UpdateableStatus(true, map[]);
        var tracked := if d.typ.Deleted? then status.resources - {workload.uid}
                       else status.resources[workload.uid := workload];
        resources := resources[defs[i].key := UpdateableStatus(true, tracked)];
      }
      assert defs[..|defs|] == defs;
      history := history + [EventOf(d)];
      assert history[..|history| - 1] == old(history);
      forall k ensures TrackedUids(resources, k) == Alive(history, k) {
        TrackAllUids(old(resources), defs, workload, d.typ.Deleted?, k);
      }
      TrackAllKeepsKeys(old(resources), defs, workload, d.typ.Deleted?);
      forall k | k in DefKeys(defs) ensures TracksRightly(resources, k, workload, d.typ.Deleted?) {
        TrackAllTracks(old(resources), defs, workload, d.typ.Deleted?, k);
      }
      forall k | k !in DefKeys(defs) ensures Lookup(resources, k) == Lookup(old(resources), k) {
        TrackAllOthers(old(resources), defs, workload, d.typ.Deleted?, k);
      }
      assert forall x | x in defs :: x.key in DefKeys(defs);
      return true;
    }

    // `fails` says for which definitions reading or writing the status keeps failing.
    method Flush(api: Api, fails: DefKey -> bool) returns (after: Api)
      requires Valid()
      modifies this
      ensures Valid() && IsFlush(old(resources), api, fails, resources, after)
      ensures after.Keys == api.Keys
      ensures forall k :: k in resources <==>
        k in old(resources) && (k in api || !old(resources)[k].needsUpdate || fails(k))
      ensures forall k | k in resources ::
        !resources[k].needsUpdate && resources[k].resources == old(resources)[k].resources
      ensures forall k | k in api && (k !in old(resources) || !old(resources)[k].needsUpdate || fails(k)) ::
        after[k] == api[k]
      ensures forall k | k in api && k in old(resources) && old(resources)[k].needsUpdate && !fails(k) ::
        after[k] == api[k] || ListsExactly(after[k], old(resources)[k].resources)
    {
      var deleted;
      after, deleted := FlushEach(api, fails);
      Forget(deleted);
    }

    method FlushEach(api: Api, fails: DefKey -> bool) returns (after: Api, deleted: set<DefKey>)
      requires Valid()
      modifies this
      ensures Valid() && after.Keys == api.Keys && resources.Keys == old(resources).Keys
      ensures forall k | k in api :: FlushedKey(old(resources), fails, api, after, k)
      ensures forall k | k in resources :: resources[k] == old(resources)[k].(needsUpdate := false)
      ensures forall k :: k in deleted <==> Writes(old(resources), fails, k) && k !in api
    {
      after, deleted := api, {};
      ghost var before := resources;
      var todo := resources.Keys;
      while todo != {}
        invariant todo <= before.Keys && resources.Keys == before.Keys && history == old(history)
        invariant forall k | k in todo :: resources[k] == before[k]
        invariant forall k | k in resources && k !in todo :: resources[k] == before[k].(needsUpdate := false)
        invariant after.Keys == api.Keys
        invariant forall k | k in api && k in todo :: after[k] == api[k]
        invariant forall k | k in api && k !in todo :: FlushedKey(before, fails, api, after, k)
        invariant forall k :: k in deleted <==> k !in todo && Writes(before, fails, k) && k !in api
      {
        var key :| key in todo;
        todo := todo - {key};
        if !resources[key].needsUpdate {
          continue;
        }
        if !fails(key) {
          if key !in after {
            deleted := deleted + {key};
          } else if !LooksEqual(after[key], resources[key].resources) {
            var list := Enumerate(resources[key].resources);
            after := after[key := list];
          }
        }
        resources := resources[key := resources[key].(needsUpdate := false)];
      }
    }

    // Definitions that are gone from the cluster are no longer tracked.
    method Forget(deleted: set<DefKey>)
      requires Valid()
      modifies this
      ensures Valid() && resources == old(resources) - deleted
    {
      var todo := deleted;
      while todo != {}
        invariant Valid() && todo <= deleted && resources == old(resources) - (deleted - todo)
      {
        var key :| key in todo;
        todo := todo - {key};
        resources := resources - {key};
        ghost var before := history;
        history := history + [Dropped(key)];
        assert history[..|history| - 1] == before;
      }
    }
  }

  // Every tracked workload once, and nothing else.
  ghost predicate ListsExactly(list: seq<Workload>, tracked: map<Uid, Workload>) {
    && DistinctUids(list)
    && (forall w | w in list :: w.uid in tracked && tracked[w.uid] == w)
    && forall u | u in tracked :: tracked[u] in list
  }

  // What a successful flush of one definition leaves on the cluster: the list it found, if it
  // looked equal, else every tracked workload once.
  ghost predicate Flushed(list: seq<Workload>, tracked: map<Uid, Workload>, after: seq<Workload>) {
    if LooksEqual(list, tracked) then after == list
    else ListsExactly(after, tracked) && Uids(after) == tracked.Keys
  }

  // The flush reads and writes the status of a definition.
  ghost predicate Writes(before: Statuses, fails: DefKey -> bool, k: DefKey) {
    k in before && before[k].needsUpdate && !fails(k)
  }

  ghost predicate FlushedKey(before: Statuses, fails: DefKey -> bool, api: Api, after: Api, k: DefKey)
    requires k in api
  {
    && k in after
    && if Writes(before, fails, k) then Flushed(api[k], before[k].resources, after[k]) else after[k] == api[k]
  }

  // Exactly the marked definitions that exist and whose calls succeed are written, exactly the
  // marked ones that are gone are forgotten, and no mark is left.
  ghost predicate IsFlush(before: Statuses, api: Api, fails: DefKey -> bool, m: Statuses, after: Api) {
    && after.Keys == api.Keys
    && (forall k | k in api :: FlushedKey(before, fails, api, after, k))
    && (forall k :: k in m <==> k in before && (k in api || !Writes(before, fails, k)))
    && (forall k | k in m :: m[k] == before[k].(needsUpdate := false))
  }

  // After an error-free flush of an existing definition the cluster lists exactly the tracked
  // workloads, given its list named none twice.
  lemma FlushedStatusAgrees(history: seq<Event>, m: Statuses, k: DefKey, list: seq<Workload>, after: seq<Workload>)
    requires k in m && TrackedUids(m, k) == Alive(history, k)
    requires DistinctUids(list) && Flushed(list, m[k].resources, after)
    ensures DistinctUids(after)
    ensures Uids(after) == Alive(history, k)
  {
    LooksEqualIsExact(list, m[k].resources);
  }

  function WorkloadOf(o: Object): Workload {
    Workload(o.uid, o.key)
  }

  function EventOf(d: Delta<Entry>): Event {
    Seen(d.obj.obj.uid, d.typ.Deleted?, DefKeys(d.obj.defs))
  }

  function TrackAll(m: Statuses, defs: seq<Definition>, w: Workload, deleted: bool): Statuses
    decreases |defs|
  {
    if defs == [] then m
    else
      var k, done := defs[|defs| - 1].key, TrackAll(m, defs[..|defs| - 1], w, deleted);
      var status := if k in done then done[k].resources else map[];
      done[k := UpdateableStatus(true, if deleted then status - {w.uid} else status[w.uid := w])]
  }

  lemma {:induction false} TrackAllUids(m: Statuses, defs: seq<Definition>, w: Workload, deleted: bool, k: DefKey)
    ensures TrackedUids(TrackAll(m, defs, w, deleted), k)
      == if k !in DefKeys(defs) then TrackedUids(m, k)
         else if deleted then TrackedUids(m, k) - {w.uid} else TrackedUids(m, k) + {w.uid}
    ensures k in DefKeys(defs) ==> k in TrackAll(m, defs, w, deleted) && TrackAll(m, defs, w, deleted)[k].needsUpdate
    decreases |defs|
  {
    if defs != [] {
      var init, last := defs[..|defs| - 1], defs[|defs| - 1];
      TrackAllUids(m, init, w, deleted, k);
      assert defs == init + [last];
      assert DefKeys(defs) == DefKeys(init) + {last.key};
    }
  }

  ghost predicate TracksRightly(m: Statuses, k: DefKey, w: Workload, deleted: bool) {
    && k in m && m[k].needsUpdate
    && (deleted ==> w.uid !in m[k].resources)
    && (!deleted ==> w.uid in m[k].resources && m[k].resources[w.uid] == w)
  }

  lemma {:induction false} TrackAllTracks(m: Statuses, defs: seq<Definition>, w: Workload, deleted: bool, k: DefKey)
    requires k in DefKeys(defs)
    ensures TracksRightly(TrackAll(m, defs, w, deleted), k, w, deleted)
    decreases |defs|
  {
    var init, last := defs[..|defs| - 1], defs[|defs| - 1];
    assert defs == init + [last];
    if k != last.key {
      assert k in DefKeys(init);
      TrackAllTracks(m, init, w, deleted, k);
    }
  }

  ghost predicate KeyedByUid(m: Statuses) {
    forall k | k in m :: forall u | u in m[k].resources :: m[k].resources[u].uid == u
  }

  lemma {:induction false} TrackAllKeepsKeys(m: Statuses, defs: seq<Definition>, w: Workload, deleted: bool)
    requires KeyedByUid(m)
    ensures KeyedByUid(TrackAll(m, defs, w, deleted))
    decreases |defs|
  {
    if defs != [] {
      var init, key := defs[..|defs| - 1], defs[|defs| - 1].key;
      var before, after := TrackAll(m, init, w, deleted), TrackAll(m, defs, w, deleted);
      TrackAllKeepsKeys(m, init, w, deleted);
      forall k | k in after ensures forall u | u in after[k].resources :: after[k].resources[u].uid == u {
        assert k != key ==> k in before && after[k] == before[k];
      }
    }
  }

  // The tracked workloads in no particular order, each once.
  method Enumerate(m: map<Uid, Workload>) returns (list: seq<Workload>)
    requires forall u | u in m :: m[u].uid == u
    ensures ListsExactly(list, m) && Uids(list) == m.Keys
  {
    list := [];
    var todo := m.Keys;
    while todo != {}
      invariant todo <= m.Keys && DistinctUids(list)
      invariant forall w :: w in list <==> w.uid in m.Keys - todo && m[w.uid] == w
    {
      var u :| u in todo;
      todo := todo - {u};
      assert forall i | 0 <= i < |list| :: list[i] in list;
      list := list + [m[u]];
    }
    forall u | u in m.Keys ensures u in Uids(list) {
      assert m[u] in list;
    }
  }

  /* ---- over whole runs ---- */

  datatype StatusSystem = StatusSystem(m: Statuses, api: Api)

  // Changes of objects, flushes, and definitions that come and go on the cluster.
  datatype StatusStep =
    | Change(defs: seq<Definition>, workload: Workload, deleted: bool)
    | FlushAll(fails: DefKey -> bool)
    | Create(def: DefKey)
    | Remove(def: DefKey)

  ghost predicate Steps(s: StatusSystem, step: StatusStep, n: StatusSystem) {
    match step
    case Change(defs, workload, deleted) => n == s.(m := TrackAll(s.m, defs, workload, deleted))
    case FlushAll(fails) => IsFlush(s.m, s.api, fails, n.m, n.api)
    case Create(def) => def !in s.api && n == s.(api := s.api[def := []])
    case Remove(def) => n == s.(api := s.api - {def})
  }

  // The cluster lists exactly the tracked workloads of a definition, each once.
  ghost predicate Agrees(s: StatusSystem, k: DefKey)
    requires k in s.m && k in s.api
  {
    DistinctUids(s.api[k]) && Uids(s.api[k]) == s.m[k].resources.Keys
  }

  // No list names a UID twice, and every definition that exists, is tracked and is not marked
  // for update is up to date.
  ghost predicate UpToDate(s: StatusSystem) {
    && (forall k | k in s.api :: DistinctUids(s.api[k]))
    && forall k | k in s.m && k in s.api && !s.m[k].needsUpdate :: Agrees(s, k)
  }

  // A flush may fail only for a definition whose list is right already; a definition that was
  // tracked, flushed and removed may come back only if it is marked or tracks nothing.
  ghost predicate KeepsStatus(s: StatusSystem, step: StatusStep) {
    match step
    case FlushAll(fails) =>
      forall k | k in s.m && k in s.api && s.m[k].needsUpdate && fails(k) :: Agrees(s, k)
    case Create(def) => def in s.m && !s.m[def].needsUpdate ==> s.m[def].resources == map[]
    case _ => true
  }

  lemma FlushAgreesIff(s: StatusSystem, fails: DefKey -> bool, n: StatusSystem, k: DefKey)
    requires UpToDate(s) && Steps(s, FlushAll(fails), n) && k in n.m && k in n.api
    ensures DistinctUids(n.api[k])
    ensures Agrees(n, k) <==> (s.m[k].needsUpdate && fails(k) ==> Agrees(s, k))
  {
    assert FlushedKey(s.m, fails, s.api, n.api, k);
    if Writes(s.m, fails, k) {
      LooksEqualIsExact(s.api[k], s.m[k].resources);
    }
  }

  lemma FlushKeepsStatusIff(s: StatusSystem, fails: DefKey -> bool, n: StatusSystem)
    requires UpToDate(s) && Steps(s, FlushAll(fails), n)
    ensures UpToDate(n) <==> KeepsStatus(s, FlushAll(fails))
  {
    forall k | k in n.api ensures DistinctUids(n.api[k]) {
      assert FlushedKey(s.m, fails, s.api, n.api, k);
      if Writes(s.m, fails, k) {
        LooksEqualIsExact(s.api[k], s.m[k].resources);
      }
    }
    forall k | k in n.m && k in n.api ensures Agrees(n, k) <==> (s.m[k].needsUpdate && fails(k) ==> Agrees(s, k)) {
      FlushAgreesIff(s, fails, n, k);
    }
    forall k | k in s.m && k in s.api ensures k in n.m && k in n.api && !n.m[k].needsUpdate {
    }
  }

  lemma StatusStepKeepsIff(s: StatusSystem, step: StatusStep, n: StatusSystem)
    requires UpToDate(s) && Steps(s, step, n)
    ensures UpToDate(n) <==> KeepsStatus(s, step)
  {
    match step
    case Change(defs, workload, deleted) =>
      forall k | k in n.m && k in n.api && !n.m[k].needsUpdate ensures Agrees(n, k) {
        TrackAllOthers(s.m, defs, workload, deleted, k);
        TrackAllUids(s.m, defs, workload, deleted, k);
        assert k in s.m && s.m[k] == n.m[k] && Agrees(s, k);
      }
    case FlushAll(fails) => FlushKeepsStatusIff(s, fails, n);
    case Create(def) =>
      assert Uids([]) == {};
      assert forall k | k in s.m && k in s.api :: Agrees(n, k) == Agrees(s, k);
      if def in n.m {
        assert Agrees(n, def) <==> n.m[def].resources.Keys == {};
        assert n.m[def].resources.Keys == {} <==> n.m[def].resources == map[];
      }
    case Remove(def) =>
      assert forall k | k in n.m && k in n.api :: Agrees(n, k) == Agrees(s, k);
  }

  lemma {:induction false} TrackAllOthers(m: Statuses, defs: seq<Definition>, w: Workload, deleted: bool, k: DefKey)
    ensures k !in DefKeys(defs) ==> Lookup(TrackAll(m, defs, w, deleted), k) == Lookup(m, k)
    decreases |defs|
  {
    if defs != [] {
      var init, last := defs[..|defs| - 1], defs[|defs| - 1];
      TrackAllOthers(m, init, w, deleted, k);
      assert defs == init + [last];
      assert DefKeys(defs) == DefKeys(init) + {last.key};
    }
  }

  ghost predicate IsStatusRun(states: seq<StatusSystem>, steps: seq<StatusStep>) {
    && |states| == |steps| + 1
    && states[0].m == map[] && (forall k | k in states[0].api :: DistinctUids(states[0].api[k]))
    && forall i | 0 <= i < |steps| :: Steps(states[i], steps[i], states[i + 1])
  }

  // While flushes meet no error that matters and no flushed definition is removed and created
  // again, every definition not marked for update lists its tracked workloads.
  lemma {:induction false} StatusStaysUpToDate(states: seq<StatusSystem>, steps: seq<StatusStep>, i: nat)
    requires IsStatusRun(states, steps) && i < |states|
    requires forall j | 0 <= j < i :: KeepsStatus(states[j], steps[j])
    ensures UpToDate(states[i])
  {
    if i > 0 {
      StatusStaysUpToDate(states, steps, i - 1);
      assert Steps(states[i - 1], steps[i - 1], states[i]);
      StatusStepKeepsIff(states[i - 1], steps[i - 1], states[i]);
    }
  }

  // And only then.
  lemma StatusStaysUpToDateIff(states: seq<StatusSystem>, steps: seq<StatusStep>)
    requires IsStatusRun(states, steps)
    ensures (forall i | 0 <= i < |states| :: UpToDate(states[i]))
      <==> (forall i | 0 <= i < |steps| :: KeepsStatus(states[i], steps[i]))
  {
    if forall i | 0 <= i < |states| :: UpToDate(states[i]) {
      forall i | 0 <= i < |steps| ensures KeepsStatus(states[i], steps[i]) {
        assert Steps(states[i], steps[i], states[i + 1]);
        assert UpToDate(states[i]) && UpToDate(states[i + 1]);
        StatusStepKeepsIff(states[i], steps[i], states[i + 1]);
      }
    }
    if forall i | 0 <= i < |steps| :: KeepsStatus(states[i], steps[i]) {
      forall i | 0 <= i < |states| ensures UpToDate(states[i]) {
        StatusStaysUpToDate(states, steps, i);
      }
    }
  }
}
