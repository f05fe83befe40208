/**
 The scraped object metrics as a view of MeterDefinitionStore: for every run of store calls,
 pops and deliveries, with any answers from the filters, the cache plus the changes on their
 way shows exactly the matched objects of the index.
 */
module ObjectView {
  import opened Wrappers
  import opened DeltaFifo
  import opened MeteringTypes
  import opened PrometheusData
  import opened Dictionary
  import opened ObjectStore
  import VP = ViewPipeline

  type ObjMachine = VP.Machine<ObjKey, Entry, Families>

  // The index shows nothing for the key: it is absent, matched nothing or is never rendered.
  predicate Unmatched(rendered: Kind -> bool, index: map<ObjKey, Entry>, k: ObjKey) {
    k in index && rendered(k.kind) ==> index[k].defs == []
  }

  // A bare Add may not silently replace a matched entry by an unmatched one.
  predicate Permitted(rendered: Kind -> bool, st: ObjStore, op: StoreOp) {
    op.AddObj? && op.defs == [] ==> Unmatched(rendered, st.index, op.obj.key)
  }

  function EmitStep(st: ObjStore, op: StoreOp): VP.Step<ObjKey, Entry>
    requires ActsOn(st, op)
  {
    VP.Emit(WrittenBy(op), EmittedBy(st, op))
  }

  lemma HarmlessIffPermitted(rendered: Kind -> bool, generate: Generator, m: ObjMachine, op: StoreOp)
    requires m.commit.None? && KeyedByObject(m.store.index) && ActsOn(m.store, op)
    ensures VP.Enabled(EntryRendering(rendered, generate), m, EmitStep(m.store, op))
    ensures VP.Harmless(EntryRendering(rendered, generate), m, WrittenBy(op), EmittedBy(m.store, op))
      <==> Permitted(rendered, m.store, op)
  {
  }

  // Store operations keep the view exactly when they are not a bare Add that drops a match.
  lemma StoreOpAgreesIff(rendered: Kind -> bool, generate: Generator, p: nat, m: ObjMachine, op: StoreOp)
    requires VP.Inv(EntryRendering(rendered, generate), p, m) && m.commit.None?
    requires KeyedByObject(m.store.index) && ActsOn(m.store, op)
    ensures VP.Inv(EntryRendering(rendered, generate), p, m.(store := Run(m.store, op)))
      <==> Permitted(rendered, m.store, op)
  {
    var r := EntryRendering(rendered, generate);
    HarmlessIffPermitted(rendered, generate, m, op);
    var e := VP.Next(r, p, m, EmitStep(m.store, op));
    VP.EmitAgreesIff(r, p, m, WrittenBy(op), EmittedBy(m.store, op));
    var n := m.(store := Run(m.store, op));
    assert n == VP.Next(r, p, e, VP.Commit);
    if Permitted(rendered, m.store, op) {
      VP.StepKeepsInv(r, p, m, EmitStep(m.store, op));
      VP.StepKeepsInv(r, p, e, VP.Commit);
    }
  }

  // A Pod that matched d is added again when d no longer matches it: the index forgets the
  // match, nothing is emitted, and the drained cache keeps the metrics.
  lemma BareAddKeepsStaleMetrics(generate: Generator, o: Object, d: Definition) returns (m: ObjMachine, n: ObjMachine)
    requires o.key.kind == Pod
    ensures VP.Inv(EntryRendering(_ => true, generate), 0, m) && VP.Drained(m, 0)
    ensures n == m.(store := Run(m.store, AddObj(o, [])))
    ensures VP.Drained(n, 0) && n.store.index == map[o.key := Entry(o, [])]
    ensures n.cache == map[o.key := generate(o, [d])]
  {
    var r := EntryRendering(_ => true, generate);
    var m0 := VP.Initial<ObjKey, Entry, Families>(1);
    VP.InitialInv<ObjKey, Entry, Families>(r, 0, 1);
    StoreOpAgreesIff(_ => true, generate, 0, m0, AddObj(o, [d]));
    var m2 := m0.(store := Run(m0.store, AddObj(o, [d])));
    VP.StepKeepsInv(r, 0, m2, VP.PopKey);
    var m3 := VP.Next(r, 0, m2, VP.PopKey);
    assert m3.sending == [Delta(Added, Entry(o, [d]))];
    VP.StepKeepsInv(r, 0, m3, VP.Send);
    var m4 := VP.Next(r, 0, m3, VP.Send);
    VP.StepKeepsInv(r, 0, m4, VP.Handle(0));
    m := VP.Next(r, 0, m4, VP.Handle(0));
    n := m.(store := Run(m.store, AddObj(o, [])));
  }

  /* ---- whole runs ---- */

  type Steps = seq<VP.Step<ObjKey, Entry>>

  // Any store operations that act, each as an emission and an index write.
  ghost predicate IsStoreRun(
    rendered: Kind -> bool, generate: Generator, p: nat, states: seq<ObjMachine>, steps: Steps)
  {
    && VP.IsRun(EntryRendering(rendered, generate), p, states, steps)
    && p < |states[0].listeners| && states[0] == VP.Initial(|states[0].listeners|)
    && forall i | 0 <= i < |steps| && steps[i].Emit? :: exists op :: IsEmitOf(states[i], steps[i], op)
  }

  ghost predicate IsEmitOf(m: ObjMachine, step: VP.Step<ObjKey, Entry>, op: StoreOp) {
    ActsOn(m.store, op) && step == EmitStep(m.store, op)
  }

  lemma {:induction false} RunKeepsKeys(
    rendered: Kind -> bool, generate: Generator, p: nat, states: seq<ObjMachine>, steps: Steps, i: nat)
    requires IsStoreRun(rendered, generate, p, states, steps) && i < |states|
    ensures KeyedByObject(VP.EffectiveIndex(states[i])) && KeyedByObject(states[i].store.index)
  {
    if i > 0 {
      RunKeepsKeys(rendered, generate, p, states, steps, i - 1);
      assert VP.Enabled(EntryRendering(rendered, generate), states[i - 1], steps[i - 1])
          && states[i] == VP.Next(EntryRendering(rendered, generate), p, states[i - 1], steps[i - 1]);
    }
  }

  // Whatever the operation behind an emission is, its being harmless is its being permitted.
  lemma EmissionHarmlessIff(
    rendered: Kind -> bool, generate: Generator, p: nat, states: seq<ObjMachine>, steps: Steps, i: nat, op: StoreOp)
    requires IsStoreRun(rendered, generate, p, states, steps) && i < |steps| && steps[i].Emit?
    requires IsEmitOf(states[i], steps[i], op)
    ensures VP.Harmless(EntryRendering(rendered, generate), states[i], steps[i].write, steps[i].emission)
      <==> Permitted(rendered, states[i].store, op)
  {
    assert VP.Enabled(EntryRendering(rendered, generate), states[i], steps[i]);
    RunKeepsKeys(rendered, generate, p, states, steps, i);
    HarmlessIffPermitted(rendered, generate, states[i], op);
  }

  // A run agrees at every state exactly when no operation of it is a bare Add that drops a match.
  lemma StoreRunAgreesIff(
    rendered: Kind -> bool, generate: Generator, p: nat, states: seq<ObjMachine>, steps: Steps)
    requires IsStoreRun(rendered, generate, p, states, steps)
    ensures (forall i | 0 <= i < |states| :: VP.Inv(EntryRendering(rendered, generate), p, states[i]))
      <==> (forall i, op | 0 <= i < |steps| && IsEmitOf(states[i], steps[i], op) ::
              Permitted(rendered, states[i].store, op))
  {
    var r := EntryRendering(rendered, generate);
    VP.InitialInv<ObjKey, Entry, Families>(r, p, |states[0].listeners|);
    VP.RunAgreesIff(r, p, states, steps);
    forall i, op | 0 <= i < |steps| && IsEmitOf(states[i], steps[i], op)
      ensures VP.Harmless(r, states[i], steps[i].write, steps[i].emission)
        <==> Permitted(rendered, states[i].store, op)
    {
      EmissionHarmlessIff(rendered, generate, p, states, steps, i, op);
    }
    if forall i, op | 0 <= i < |steps| && IsEmitOf(states[i], steps[i], op) ::
         Permitted(rendered, states[i].store, op)
    {
      forall i | 0 <= i < |steps| && steps[i].Emit?
        ensures VP.Harmless(r, states[i], steps[i].write, steps[i].emission)
      {
        var op :| IsEmitOf(states[i], steps[i], op);
      }
    }
  }

  /* ---- Replace, interleaved with anything else ---- */

  // Step i is the Add of a Replace: the key was deleted before, and nothing wrote it since.
  ghost predicate ReAdds(steps: Steps, i: nat, k: ObjKey)
    requires i <= |steps|
  {
    exists j :: 0 <= j < i && Deletes(steps, j, i, k)
  }

  ghost predicate Deletes(steps: Steps, j: nat, i: nat, k: ObjKey)
    requires j < i <= |steps|
  {
    && steps[j].Emit? && steps[j].write == VP.Write(k, None)
    && forall l | j < l < i && steps[l].Emit? :: steps[l].write.key != k
  }

  lemma {:induction false} DeletedStaysAbsent(
    rendered: Kind -> bool, generate: Generator, p: nat, states: seq<ObjMachine>, steps: Steps,
    j: nat, i: nat, k: ObjKey)
    requires VP.IsRun(EntryRendering(rendered, generate), p, states, steps)
    requires j < i <= |steps| && Deletes(steps, j, i, k)
    ensures Lookup(VP.EffectiveIndex(states[i]), k) == None
  {
    VP.RunEffectiveIndex(EntryRendering(rendered, generate), p, states, steps, i - 1, k);
    if j + 1 < i {
      assert Deletes(steps, j, i - 1, k);
      DeletedStaysAbsent(rendered, generate, p, states, steps, j, i - 1, k);
    }
  }

  // Whatever pops, deliveries and calls on other keys run between the two halves of a Replace,
  // its Add is permitted.
  lemma ReAddIsPermitted(
    rendered: Kind -> bool, generate: Generator, p: nat, states: seq<ObjMachine>, steps: Steps, i: nat, op: StoreOp)
    requires VP.IsRun(EntryRendering(rendered, generate), p, states, steps)
    requires i < |steps| && steps[i].Emit? && IsEmitOf(states[i], steps[i], op) && ReAdds(steps, i, op.obj.key)
    ensures Permitted(rendered, states[i].store, op)
  {
    var j :| 0 <= j < i && Deletes(steps, j, i, op.obj.key);
    DeletedStaysAbsent(rendered, generate, p, states, steps, j, i, op.obj.key);
    assert VP.Enabled(EntryRendering(rendered, generate), states[i], steps[i]);
  }

  // Every Add is of a match, of an object not matched so far, or the second half of a Replace.
  ghost predicate AddsAreOrdinary(rendered: Kind -> bool, states: seq<ObjMachine>, steps: Steps)
    requires |states| == |steps| + 1
  {
    forall i, op | 0 <= i < |steps| && IsEmitOf(states[i], steps[i], op) && op.AddObj? && op.defs == [] ::
      Unmatched(rendered, states[i].store.index, op.obj.key) || ReAdds(steps, i, op.obj.key)
  }

  // The metrics that ought to be scraped: those of the rendered objects with a match.
  function MatchedMetrics(
    rendered: Kind -> bool, generate: Generator, index: map<ObjKey, Entry>): map<ObjKey, Families>
  {
    map k | k in index && rendered(k.kind) && index[k].defs != [] :: generate(index[k].obj, index[k].defs)
  }

  // The whole interleaving: agreement at every state, equality once the queue has drained.
  lemma ObjectViewAgrees(
    rendered: Kind -> bool, generate: Generator, p: nat, states: seq<ObjMachine>, steps: Steps, i: nat)
    requires IsStoreRun(rendered, generate, p, states, steps) && AddsAreOrdinary(rendered, states, steps)
    requires i < |states|
    ensures VP.Inv(EntryRendering(rendered, generate), p, states[i])
    ensures VP.Drained(states[i], p) ==> states[i].cache == MatchedMetrics(rendered, generate, states[i].store.index)
  {
    forall j, op | 0 <= j < |steps| && IsEmitOf(states[j], steps[j], op)
      ensures Permitted(rendered, states[j].store, op)
    {
      if op.AddObj? && op.defs == [] && ReAdds(steps, j, op.obj.key) {
        ReAddIsPermitted(rendered, generate, p, states, steps, j, op);
      }
    }
    StoreRunAgreesIff(rendered, generate, p, states, steps);
    if VP.Drained(states[i], p) {
      VP.DrainedCacheIsTheView(EntryRendering(rendered, generate), p, states[i]);
      RunKeepsKeys(rendered, generate, p, states, steps, i);
    }
  }

  /* ---- Replace and Resync need no side condition ---- */

  lemma {:induction false} RunAllKeepsKeyed(st: ObjStore, ops: seq<StoreOp>)
    requires KeyedByObject(st.index)
    ensures KeyedByObject(RunAll(st, ops).index)
    decreases |ops|
  {
    if ops != [] {
      RunAllKeepsKeyed(st, ops[..|ops| - 1]);
    }
  }

  // One more operation that acts on the store only if it is permitted.
  lemma OneMoreKeepsView(
    rendered: Kind -> bool, generate: Generator, p: nat, m: ObjMachine, init: seq<StoreOp>, op: StoreOp)
    requires VP.Inv(EntryRendering(rendered, generate), p, m.(store := RunAll(m.store, init)))
    requires m.commit.None? && KeyedByObject(m.store.index) && Permitted(rendered, RunAll(m.store, init), op)
    ensures VP.Inv(EntryRendering(rendered, generate), p, m.(store := Run(RunAll(m.store, init), op)))
  {
    RunAllKeepsKeyed(m.store, init);
    var n := m.(store := RunAll(m.store, init));
    if ActsOn(n.store, op) {
      StoreOpAgreesIff(rendered, generate, p, n, op);
    }
  }

  // Re-matching any objects, with any outcome, keeps the view.
  lemma {:induction false} RematchKeepsView(
    rendered: Kind -> bool, generate: Generator, p: nat, m: ObjMachine, ops: seq<StoreOp>)
    requires VP.Inv(EntryRendering(rendered, generate), p, m) && m.commit.None? && KeyedByObject(m.store.index)
    requires forall op | op in ops :: op.Rematch?
    ensures VP.Inv(EntryRendering(rendered, generate), p, m.(store := RunAll(m.store, ops)))
    decreases |ops|
  {
    if ops != [] {
      var init, last := ops[..|ops| - 1], ops[|ops| - 1];
      assert last in ops;
      RematchKeepsView(rendered, generate, p, m, init);
      OneMoreKeepsView(rendered, generate, p, m, init, last);
    }
  }

  // Half-way through an object Replace has deleted it.
  lemma HalfReplacedIsAbsent(
    st: ObjStore, list: seq<Object>, ops: seq<StoreOp>, dict: map<DefKey, Definition>, oracle: Oracle)
    requires ReAdded(list, ops, dict, oracle) && |ops| % 2 == 1
    ensures list[|ops| / 2].key !in RunAll(st, ops).index
  {
    var n := |ops| - 1;
    assert n % 2 == 0 && n / 2 == |ops| / 2 && ops[n] == DeleteObj(list[n / 2]);
  }

  lemma ReAddedPrefix(list: seq<Object>, ops: seq<StoreOp>, dict: map<DefKey, Definition>, oracle: Oracle)
    requires ReAdded(list, ops, dict, oracle) && ops != []
    ensures ReAdded(list, ops[..|ops| - 1], dict, oracle)
    ensures ops[|ops| - 1].AddObj? ==> |ops| % 2 == 0 && ops[|ops| - 1].obj == list[(|ops| - 1) / 2]
  {
  }

  // Replace deletes before it adds, so it keeps the view whatever was indexed before and
  // whatever the look-ups answer, even when it stops half-way.
  lemma {:induction false} ReplaceKeepsView(
    rendered: Kind -> bool, generate: Generator, p: nat, m: ObjMachine,
    list: seq<Object>, ops: seq<StoreOp>, dict: map<DefKey, Definition>, oracle: Oracle)
    requires VP.Inv(EntryRendering(rendered, generate), p, m) && m.commit.None? && KeyedByObject(m.store.index)
    requires ReAdded(list, ops, dict, oracle)
    ensures VP.Inv(EntryRendering(rendered, generate), p, m.(store := RunAll(m.store, ops)))
    ensures |ops| % 2 == 1 ==> list[|ops| / 2].key !in RunAll(m.store, ops).index
    decreases |ops|
  {
    if ops == [] {
      assert m.(store := RunAll(m.store, ops)) == m;
    } else {
      var init, last := ops[..|ops| - 1], ops[|ops| - 1];
      ReAddedPrefix(list, ops, dict, oracle);
      ReplaceKeepsView(rendered, generate, p, m, list, init, dict, oracle);
      assert Permitted(rendered, RunAll(m.store, init), last) by {
        if last.AddObj? {
          HalfReplacedIsAbsent(m.store, list, init, dict, oracle);
        }
      }
      OneMoreKeepsView(rendered, generate, p, m, init, last);
    }
    if |ops| % 2 == 1 {
      HalfReplacedIsAbsent(m.store, list, ops, dict, oracle);
    }
  }

  // What Replace is for: an object that was re-added, and is not listed again behind, is indexed as
  // listed with the matches it was looked up with.
  lemma {:induction false} ReplacedIsIndexed(
    st: ObjStore, list: seq<Object>, ops: seq<StoreOp>, dict: map<DefKey, Definition>, oracle: Oracle, i: nat)
    requires ReAdded(list, ops, dict, oracle) && 2 * i + 1 < |ops|
    requires forall j | i < j < |list| :: list[j].key != list[i].key
    ensures var after := RunAll(st, ops).index;
      && list[i].key in after && after[list[i].key].obj == list[i]
      && forall d :: d in after[list[i].key].defs <==> d.key in dict && dict[d.key] == d && oracle(d, list[i]).Matched?
    decreases |ops|
  {
    var n := |ops| - 1;
    var init, last := ops[..n], ops[n];
    if n == 2 * i + 1 {
      assert last.AddObj? && last.obj == list[i] && IsMatch(dict, oracle, list[i], last.defs);
      assert RunAll(st, ops).index[list[i].key] == Entry(list[i], last.defs);
    } else {
      ReAddedPrefix(list, ops, dict, oracle);
      ReplacedIsIndexed(st, list, init, dict, oracle, i);
      assert n / 2 > i && last.obj == list[n / 2];
    }
  }

  // Replace reaches only what it lists: every other key keeps its entry and its changes.
  lemma {:induction false} ReplaceLeavesOthersAlone(
    st: ObjStore, list: seq<Object>, ops: seq<StoreOp>, dict: map<DefKey, Definition>, oracle: Oracle, k: ObjKey)
    requires ReAdded(list, ops, dict, oracle)
    requires forall o | o in list :: o.key != k
    ensures Lookup(RunAll(st, ops).index, k) == Lookup(st.index, k)
    ensures Queued(RunAll(st, ops).fifo, k) == Queued(st.fifo, k)
    decreases |ops|
  {
    if ops != [] {
      var init, last := ops[..|ops| - 1], ops[|ops| - 1];
      assert last == ops[|init|] && list[|init| / 2] in list;
      ReplaceLeavesOthersAlone(st, list, init, dict, oracle, k);
    }
  }
}
