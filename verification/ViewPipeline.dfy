/**
 Incremental view maintenance.  A store writes an index and emits changes into a DeltaFIFO;
 a producer pops one key at a time and broadcasts its changes to every listener over
 unbuffered channels; each listener handles what it received one at a time.  One listener
 keeps a cache by replaying the changes.

 The machine below takes the smallest steps the locks allow: an operation emits its change
 first and writes the index later, still under its lock, and the producer and the listeners
 may run in between.  `Agreement` says the cache plus everything still on its way always
 shows what the index will hold.
 */
module ViewPipeline {
  import opened Wrappers
  import opened DeltaFifo

  // How a stored value is keyed, what handling it puts into the cache, and what the cache is
  // meant to show for it (None: nothing).
  datatype Rendering<!K, !V, !R> = Rendering(keyOf: V -> K, render: V -> Option<R>, view: V -> Option<R>)

  // What a store operation changes: its index and its queue of changes.
  datatype Store<K, V> = Store(index: map<K, V>, fifo: Fifo<K, V>)

  // One listener: the change it has received but not handled yet, and all it ever received.
  datatype Listener<V> = Listener(held: Option<Delta<V>>, handled: seq<Delta<V>>)

  datatype Write<K, V> = Write(key: K, value: Option<V>)

  datatype Machine<K, V, R> = Machine(
    store: Store<K, V>,
    commit: Option<Write<K, V>>,   // the index write of the operation holding the store lock
    sending: seq<Delta<V>>,        // rest of the popped list; the first is being broadcast
    turn: nat,                     // listeners below turn already received that first change
    sent: seq<Delta<V>>,           // history: every change whose broadcast has begun or ended
    listeners: seq<Listener<V>>,
    cache: map<K, R>)

  datatype Step<K, V> =
    | Emit(write: Write<K, V>, emission: Option<Delta<V>>)
    | Commit
    | PopKey
    | Send
    | Handle(who: nat)

  /* ---- replaying changes onto one slot of the cache ---- */

  function Apply<K, V, R>(r: Rendering<K, V, R>, d: Delta<V>, slot: Option<R>): Option<R> {
    match d.typ
    case Deleted => None
    case Tombstone => slot
    case _ => if r.render(d.obj).Some? then r.render(d.obj) else slot
  }

  function Replay<K, V, R>(r: Rendering<K, V, R>, ds: seq<Delta<V>>, slot: Option<R>): Option<R> {
    if ds == [] then slot else Replay(r, ds[1..], Apply(r, ds[0], slot))
  }

  function ForKey<K(==), V, R>(r: Rendering<K, V, R>, ds: seq<Delta<V>>, k: K): seq<Delta<V>> {
    if ds == [] then []
    else (if r.keyOf(ds[0].obj) == k then [ds[0]] else []) + ForKey(r, ds[1..], k)
  }

  function ViewOf<K, V, R>(r: Rendering<K, V, R>, v: Option<V>): Option<R> {
    if v.Some? then r.view(v.value) else None
  }

  lemma Associative<T>(a: seq<T>, b: seq<T>, c: seq<T>)
    ensures (a + b) + c == a + (b + c)
  {
  }

  lemma {:induction false} ReplayAppend<K, V, R>(
    r: Rendering<K, V, R>, a: seq<Delta<V>>, b: seq<Delta<V>>, slot: Option<R>)
    ensures Replay(r, a + b, slot) == Replay(r, b, Replay(r, a, slot))
  {
    if a == [] {
      assert a + b == b;
    } else {
      assert (a + b)[1..] == a[1..] + b;
      ReplayAppend(r, a[1..], b, Apply(r, a[0], slot));
    }
  }

  // Collapsing consecutive deletions does not change what a replay leaves behind.
  lemma {:induction false} ReplayDedup<K, V, R>(r: Rendering<K, V, R>, ds: seq<Delta<V>>, slot: Option<R>)
    ensures Replay(r, Dedup(ds), slot) == Replay(r, ds, slot)
  {
    var n := |ds|;
    if n >= 2 && IsDelete(ds[n - 2]) && IsDelete(ds[n - 1]) {
      var before, x, y := ds[..n - 2], ds[n - 2], ds[n - 1];
      assert ds == before + [x, y];
      ReplayAppend(r, before, [x, y], slot);
      var s := Replay(r, before, slot);
      assert [x, y][1..] == [y];
      assert Replay(r, [y], Apply(r, x, s)) == Apply(r, y, Apply(r, x, s));
      if y.typ.Tombstone? {
        assert Dedup(ds) == before + [x];
        ReplayAppend(r, before, [x], slot);
      } else {
        assert Dedup(ds) == before + [y];
        ReplayAppend(r, before, [y], slot);
      }
    }
  }

  lemma {:induction false} ForKeyAppend<K, V, R>(
    r: Rendering<K, V, R>, a: seq<Delta<V>>, b: seq<Delta<V>>, k: K)
    ensures ForKey(r, a + b, k) == ForKey(r, a, k) + ForKey(r, b, k)
  {
    if a == [] {
      assert a + b == b;
    } else {
      assert (a + b)[1..] == a[1..] + b;
      ForKeyAppend(r, a[1..], b, k);
    }
  }

  lemma {:induction false} ForKeySame<K, V, R>(r: Rendering<K, V, R>, ds: seq<Delta<V>>, k: K, j: K)
    requires forall d | d in ds :: r.keyOf(d.obj) == k
    ensures ForKey(r, ds, j) == if j == k then ds else []
  {
    if ds != [] {
      ForKeySame(r, ds[1..], k, j);
    }
  }

  /* ---- the machine ---- */

  function Slot<K, R>(cache: map<K, R>, k: K): Option<R> {
    Lookup(cache, k)
  }

  // What a whole store operation does once its lock is released again.
  function Perform<K(!new), V>(s: Store<K, V>, w: Write<K, V>, emission: Option<Delta<V>>): Store<K, V> {
    Store(Assign(s.index, w.key, w.value),
          if emission.Some? then Enqueue(s.fifo, w.key, emission.value) else s.fifo)
  }

  function EffectiveIndex<K(!new), V, R>(m: Machine<K, V, R>): map<K, V> {
    if m.commit.Some? then Assign(m.store.index, m.commit.value.key, m.commit.value.value)
    else m.store.index
  }

  function Held<V>(l: Listener<V>): seq<Delta<V>> {
    if l.held.Some? then [l.held.value] else []
  }

  // The part of the popped list that listener p has not received yet.
  function Unsent<K, V, R>(m: Machine<K, V, R>, p: nat): seq<Delta<V>> {
    if m.sending != [] && p < m.turn then m.sending[1..] else m.sending
  }

  function InFlight<K, V, R>(m: Machine<K, V, R>, p: nat): seq<Delta<V>>
    requires p < |m.listeners|
  {
    Held(m.listeners[p]) + Unsent(m, p)
  }

  // Everything on its way to listener p for key k, oldest first.
  function Pending<K, V, R>(r: Rendering<K, V, R>, m: Machine<K, V, R>, p: nat, k: K): seq<Delta<V>>
    requires p < |m.listeners|
  {
    ForKey(r, InFlight(m, p), k) + Queued(m.store.fifo, k)
  }

  ghost predicate Enabled<K(!new), V(!new), R>(r: Rendering<K, V, R>, m: Machine<K, V, R>, s: Step<K, V>) {
    match s
    case Emit(w, e) =>
      && m.commit.None?
      && (w.value.Some? ==> r.keyOf(w.value.value) == w.key)
      && (e.Some? ==> r.keyOf(e.value.obj) == w.key)
    case Commit => m.commit.Some?
    case PopKey => m.sending == [] && m.store.fifo.order != []
    case Send => m.sending != [] && m.turn < |m.listeners| && m.listeners[m.turn].held.None?
    case Handle(i) => i < |m.listeners| && m.listeners[i].held.Some?
  }

  function Cached<K(!new), V, R>(r: Rendering<K, V, R>, cache: map<K, R>, d: Delta<V>): map<K, R> {
    Assign(cache, r.keyOf(d.obj), Apply(r, d, Slot(cache, r.keyOf(d.obj))))
  }

  // Listener p keeps the cache.
  ghost function Next<K(!new), V(!new), R>(
    r: Rendering<K, V, R>, p: nat, m: Machine<K, V, R>, s: Step<K, V>): Machine<K, V, R>
    requires Enabled(r, m, s)
  {
    match s
    case Emit(w, e) =>
      m.(commit := Some(w), store := m.store.(fifo := Perform(m.store, w, e).fifo))
    case Commit =>
      m.(commit := None, store := m.store.(index := EffectiveIndex(m)))
    case PopKey =>
      var k := m.store.fifo.order[0];
      m.(sending := Queued(m.store.fifo, k), turn := 0, store := m.store.(fifo := Pop(m.store.fifo)))
    case Send =>
      var d := m.sending[0];
      var ls := m.listeners[m.turn := m.listeners[m.turn].(held := Some(d))];
      var m1 := m.(listeners := ls, sent := if m.turn == 0 then m.sent + [d] else m.sent);
      if m.turn + 1 == |m.listeners| then m1.(sending := m.sending[1..], turn := 0)
      else m1.(turn := m.turn + 1)
    case Handle(i) =>
      var d := m.listeners[i].held.value;
      var ls := m.listeners[i := Listener(None, m.listeners[i].handled + [d])];
      m.(listeners := ls, cache := if i == p then Cached(r, m.cache, d) else m.cache)
  }

  function Initial<K, V, R>(n: nat): Machine<K, V, R> {
    Machine(Store(map[], Empty()), None, [], 0, [], seq(n, _ => Listener(None, [])), map[])
  }

  /* ---- invariants ---- */

  ghost predicate KeyedUnder<K(!new), V(!new), R>(r: Rendering<K, V, R>, f: Fifo<K, V>) {
    forall k, d :: d in Queued(f, k) ==> r.keyOf(d.obj) == k
  }

  ghost predicate FifoOk<K(!new), V(!new), R>(r: Rendering<K, V, R>, f: Fifo<K, V>) {
    DeltaFifo.Valid(f) && KeyedUnder(r, f)
  }

  // The cache, after everything on its way has been replayed, shows the index.
  ghost predicate Agreement<K(!new), V, R>(r: Rendering<K, V, R>, p: nat, m: Machine<K, V, R>)
    requires p < |m.listeners|
  {
    forall k :: Replay(r, Pending(r, m, p, k), Slot(m.cache, k)) == ViewOf(r, Lookup(EffectiveIndex(m), k))
  }

  // Every listener has received the same sequence, up to the change being broadcast now.
  ghost predicate SameSequence<K, V, R>(m: Machine<K, V, R>)
  {
    && (m.turn > 0 ==> m.sending != [] && m.sent != [] && m.sent[|m.sent| - 1] == m.sending[0])
    && forall i | 0 <= i < |m.listeners| ::
      m.listeners[i].handled + Held(m.listeners[i])
        == if i < m.turn || m.turn == 0 then m.sent else m.sent[..|m.sent| - 1]
  }

  ghost predicate Inv<K(!new), V(!new), R>(r: Rendering<K, V, R>, p: nat, m: Machine<K, V, R>) {
    && p < |m.listeners|
    && m.turn < |m.listeners|
    && (m.sending == [] ==> m.turn == 0)
    && FifoOk(r, m.store.fifo)
    && SameSequence(m)
    && Agreement(r, p, m)
  }

  // The value the index will hold agrees with what the emission makes of the current one.
  ghost predicate Harmless<K(!new), V, R>(
    r: Rendering<K, V, R>, m: Machine<K, V, R>, w: Write<K, V>, e: Option<Delta<V>>)
  {
    var before := ViewOf(r, Lookup(EffectiveIndex(m), w.key));
    ViewOf(r, w.value) == if e.Some? then Apply(r, e.value, before) else before
  }

  /* ---- every step keeps the invariant ---- */

  lemma ReplayEnqueue<K(!new), V(!new), R>(
    r: Rendering<K, V, R>, f: Fifo<K, V>, k: K, d: Delta<V>, before: seq<Delta<V>>, slot: Option<R>)
    requires FifoOk(r, f)
    ensures Replay(r, before + Queued(Enqueue(f, k, d), k), slot)
         == Apply(r, d, Replay(r, before + Queued(f, k), slot))
  {
    EnqueueValid(f, k, d);
    var q := Queued(f, k);
    var s := Replay(r, before, slot);
    ReplayAppend(r, before, Dedup(q + [d]), slot);
    ReplayDedup(r, q + [d], s);
    ReplayAppend(r, q, [d], s);
    ReplayAppend(r, before, q, slot);
    assert Replay(r, [d], Replay(r, q, s)) == Apply(r, d, Replay(r, q, s));
  }

  lemma EnqueueOk<K(!new), V(!new), R>(r: Rendering<K, V, R>, f: Fifo<K, V>, k: K, d: Delta<V>)
    requires FifoOk(r, f) && r.keyOf(d.obj) == k
    ensures FifoOk(r, Enqueue(f, k, d))
  {
    EnqueueValid(f, k, d);
    EnqueueAll(f, k, d, (j: K, e: Delta<V>) => r.keyOf(e.obj) == j);
  }

  // Exactly the harmless emissions keep the agreement; nothing else about the state matters.
  lemma EmitAgreesIff<K(!new), V(!new), R>(
    r: Rendering<K, V, R>, p: nat, m: Machine<K, V, R>, w: Write<K, V>, e: Option<Delta<V>>)
    requires Inv(r, p, m) && Enabled(r, m, Emit(w, e))
    ensures Agreement(r, p, Next(r, p, m, Emit(w, e))) <==> Harmless(r, m, w, e)
  {
    var n := Next(r, p, m, Emit(w, e));
    if e.Some? {
      EnqueueValid(m.store.fifo, w.key, e.value);
    }
    assert InFlight(n, p) == InFlight(m, p);
    forall k
      ensures Replay(r, Pending(r, n, p, k), Slot(n.cache, k))
           == if k == w.key && e.Some? then Apply(r, e.value, ViewOf(r, Lookup(m.store.index, k)))
              else ViewOf(r, Lookup(m.store.index, k))
    {
      assert Replay(r, Pending(r, m, p, k), Slot(m.cache, k)) == ViewOf(r, Lookup(EffectiveIndex(m), k));
      if k == w.key && e.Some? {
        ReplayEnqueue(r, m.store.fifo, k, e.value, ForKey(r, InFlight(m, p), k), Slot(m.cache, k));
      } else {
        assert Pending(r, n, p, k) == Pending(r, m, p, k);
      }
    }
    assert Lookup(EffectiveIndex(n), w.key) == w.value;
  }

  lemma PopKeepsPending<K(!new), V(!new), R>(r: Rendering<K, V, R>, p: nat, m: Machine<K, V, R>, k: K)
    requires Inv(r, p, m) && Enabled(r, m, PopKey)
    ensures Pending(r, Next(r, p, m, PopKey), p, k) == Pending(r, m, p, k)
  {
    PopValid(m.store.fifo);
    var n := Next(r, p, m, PopKey);
    var key := m.store.fifo.order[0];
    var ds := m.store.fifo.items[key];
    assert Queued(m.store.fifo, key) == ds;
    assert InFlight(m, p) == Held(m.listeners[p]);
    ForKeyAppend(r, Held(m.listeners[p]), ds, k);
    ForKeySame(r, ds, key, k);
  }

  lemma SendKeepsInFlight<K(!new), V(!new), R>(r: Rendering<K, V, R>, p: nat, m: Machine<K, V, R>)
    requires Inv(r, p, m) && Enabled(r, m, Send)
    ensures InFlight(Next(r, p, m, Send), p) == InFlight(m, p)
  {
    var n := Next(r, p, m, Send);
    assert m.sending == [m.sending[0]] + m.sending[1..];
    if m.turn == p {
      assert Held(n.listeners[p]) == [m.sending[0]] && Unsent(n, p) == m.sending[1..];
    } else {
      assert Held(n.listeners[p]) == Held(m.listeners[p]);
    }
  }

  lemma SendKeepsSequence<K(!new), V(!new), R>(r: Rendering<K, V, R>, p: nat, m: Machine<K, V, R>)
    requires Inv(r, p, m) && Enabled(r, m, Send)
    ensures SameSequence(Next(r, p, m, Send))
  {
    var n := Next(r, p, m, Send);
    var d := m.sending[0];
    assert n.sent[..|n.sent| - 1] + [d] == n.sent;
    forall i | 0 <= i < |n.listeners|
      ensures n.listeners[i].handled + Held(n.listeners[i])
           == if i < n.turn || n.turn == 0 then n.sent else n.sent[..|n.sent| - 1]
    {
      assert m.listeners[i].handled + Held(m.listeners[i])
          == if i < m.turn || m.turn == 0 then m.sent else m.sent[..|m.sent| - 1];
      if i == m.turn {
        assert m.listeners[i].handled + Held(m.listeners[i]) == m.listeners[i].handled;
        assert n.listeners[i].handled + Held(n.listeners[i]) == m.listeners[i].handled + [d];
      } else if m.turn == 0 {
        assert n.sent[..|n.sent| - 1] == m.sent;
      }
    }
  }

  lemma HandleKeepsSequence<K(!new), V(!new), R>(r: Rendering<K, V, R>, p: nat, m: Machine<K, V, R>, who: nat)
    requires Inv(r, p, m) && Enabled(r, m, Handle(who))
    ensures SameSequence(Next(r, p, m, Handle(who)))
  {
    var n := Next(r, p, m, Handle(who));
    forall i | 0 <= i < |n.listeners|
      ensures n.listeners[i].handled + Held(n.listeners[i]) == m.listeners[i].handled + Held(m.listeners[i])
    {
    }
  }

  // Handling the held change: it was the oldest one on its way for its own key.
  lemma {:induction false} HandlePending<K(!new), V(!new), R>(
    r: Rendering<K, V, R>, p: nat, m: Machine<K, V, R>, n: Machine<K, V, R>, d: Delta<V>, k: K)
    requires p < |m.listeners| == |n.listeners|
    requires m.listeners[p].held == Some(d) && n.listeners[p].held == None
    requires n.store == m.store && n.sending == m.sending && n.turn == m.turn
    ensures Pending(r, m, p, k) == (if k == r.keyOf(d.obj) then [d] else []) + Pending(r, n, p, k)
  {
    var rest := InFlight(n, p);
    assert InFlight(m, p) == [d] + rest;
    assert ForKey(r, InFlight(m, p), k) == ForKey(r, [d], k) + ForKey(r, rest, k) by {
      ForKeyAppend(r, [d], rest, k);
    }
    ForKeySame(r, [d], r.keyOf(d.obj), k);
    Associative(ForKey(r, [d], k), ForKey(r, rest, k), Queued(m.store.fifo, k));
  }

  lemma HandleSlot<K(!new), V(!new), R>(r: Rendering<K, V, R>, p: nat, m: Machine<K, V, R>, k: K)
    requires Inv(r, p, m) && Enabled(r, m, Handle(p))
    ensures
      var n := Next(r, p, m, Handle(p));
      Replay(r, Pending(r, n, p, k), Slot(n.cache, k)) == Replay(r, Pending(r, m, p, k), Slot(m.cache, k))
  {
    var d := m.listeners[p].held.value;
    var n := Next(r, p, m, Handle(p));
    var rest := Pending(r, n, p, k);
    HandlePending(r, p, m, n, d, k);
    assert Slot(n.cache, k) == Lookup(Cached(r, m.cache, d), k);
    if k == r.keyOf(d.obj) {
      assert Slot(n.cache, k) == Apply(r, d, Slot(m.cache, k));
      assert ([d] + rest)[1..] == rest;
    } else {
      assert [] + rest == rest;
    }
  }

  // A step that leaves index, replay results and keys alone keeps the agreement.
  lemma AgreementCarriesOver<K(!new), V(!new), R>(
    r: Rendering<K, V, R>, p: nat, m: Machine<K, V, R>, n: Machine<K, V, R>)
    requires p < |m.listeners| == |n.listeners|
    requires Agreement(r, p, m) && EffectiveIndex(n) == EffectiveIndex(m)
    requires forall k ::
      Replay(r, Pending(r, n, p, k), Slot(n.cache, k)) == Replay(r, Pending(r, m, p, k), Slot(m.cache, k))
    ensures Agreement(r, p, n)
  {
  }

  lemma EmitKeepsInv<K(!new), V(!new), R>(
    r: Rendering<K, V, R>, p: nat, m: Machine<K, V, R>, w: Write<K, V>, e: Option<Delta<V>>)
    requires Inv(r, p, m) && Enabled(r, m, Emit(w, e)) && Harmless(r, m, w, e)
    ensures Inv(r, p, Next(r, p, m, Emit(w, e)))
  {
    EmitAgreesIff(r, p, m, w, e);
    if e.Some? {
      EnqueueOk(r, m.store.fifo, w.key, e.value);
    }
  }

  lemma CommitKeepsAgreement<K(!new), V(!new), R>(r: Rendering<K, V, R>, p: nat, m: Machine<K, V, R>)
    requires p < |m.listeners| && Agreement(r, p, m) && Enabled(r, m, Commit)
    ensures Agreement(r, p, Next(r, p, m, Commit))
  {
    var n := Next(r, p, m, Commit);
    assert EffectiveIndex(n) == EffectiveIndex(m);
    assert InFlight(n, p) == InFlight(m, p);
    forall k ensures Replay(r, Pending(r, n, p, k), Slot(n.cache, k)) == ViewOf(r, Lookup(EffectiveIndex(n), k)) {
      assert Pending(r, n, p, k) == Pending(r, m, p, k);
    }
  }

  lemma CommitKeepsInv<K(!new), V(!new), R>(r: Rendering<K, V, R>, p: nat, m: Machine<K, V, R>)
    requires Inv(r, p, m) && Enabled(r, m, Commit)
    ensures Inv(r, p, Next(r, p, m, Commit))
  {
    CommitKeepsAgreement(r, p, m);
    var n := Next(r, p, m, Commit);
    assert n == m.(commit := None, store := m.store.(index := n.store.index));
    assert SameSequence(n);
  }

  lemma PopKeepsInv<K(!new), V(!new), R>(r: Rendering<K, V, R>, p: nat, m: Machine<K, V, R>)
    requires Inv(r, p, m) && Enabled(r, m, PopKey)
    ensures Inv(r, p, Next(r, p, m, PopKey))
  {
    var n := Next(r, p, m, PopKey);
    PopValid(m.store.fifo);
    forall k ensures Pending(r, n, p, k) == Pending(r, m, p, k) {
      PopKeepsPending(r, p, m, k);
    }
    AgreementCarriesOver(r, p, m, n);
    assert KeyedUnder(r, n.store.fifo) by {
      forall k, d | d in Queued(n.store.fifo, k) ensures r.keyOf(d.obj) == k {
        assert d in Queued(m.store.fifo, k);
      }
    }
  }

  lemma SendKeepsInv<K(!new), V(!new), R>(r: Rendering<K, V, R>, p: nat, m: Machine<K, V, R>)
    requires Inv(r, p, m) && Enabled(r, m, Send)
    ensures Inv(r, p, Next(r, p, m, Send))
  {
    var n := Next(r, p, m, Send);
    SendKeepsInFlight(r, p, m);
    SendKeepsSequence(r, p, m);
    forall k ensures Pending(r, n, p, k) == Pending(r, m, p, k) {
    }
    AgreementCarriesOver(r, p, m, n);
  }

  lemma HandleKeepsInv<K(!new), V(!new), R>(r: Rendering<K, V, R>, p: nat, m: Machine<K, V, R>, who: nat)
    requires Inv(r, p, m) && Enabled(r, m, Handle(who))
    ensures Inv(r, p, Next(r, p, m, Handle(who)))
  {
    var n := Next(r, p, m, Handle(who));
    HandleKeepsSequence(r, p, m, who);
    forall k
      ensures Replay(r, Pending(r, n, p, k), Slot(n.cache, k)) == Replay(r, Pending(r, m, p, k), Slot(m.cache, k))
    {
      if who == p {
        HandleSlot(r, p, m, k);
      } else {
        assert InFlight(n, p) == InFlight(m, p);
      }
    }
    AgreementCarriesOver(r, p, m, n);
  }

  // Only an emission decides what the index will hold, and only for its own key.
  lemma EffectiveIndexAfter<K(!new), V(!new), R>(
    r: Rendering<K, V, R>, p: nat, m: Machine<K, V, R>, s: Step<K, V>, k: K)
    requires Enabled(r, m, s)
    ensures Lookup(EffectiveIndex(Next(r, p, m, s)), k)
      == if s.Emit? && s.write.key == k then s.write.value else Lookup(EffectiveIndex(m), k)
  {
  }

  lemma StepKeepsInv<K(!new), V(!new), R>(r: Rendering<K, V, R>, p: nat, m: Machine<K, V, R>, s: Step<K, V>)
    requires Inv(r, p, m) && Enabled(r, m, s)
    requires s.Emit? ==> Harmless(r, m, s.write, s.emission)
    ensures Inv(r, p, Next(r, p, m, s))
  {
    match s
    case Emit(w, e) => EmitKeepsInv(r, p, m, w, e);
    case Commit => CommitKeepsInv(r, p, m);
    case PopKey => PopKeepsInv(r, p, m);
    case Send => SendKeepsInv(r, p, m);
    case Handle(i) => HandleKeepsInv(r, p, m, i);
  }

  lemma InitialInv<K(!new), V(!new), R>(r: Rendering<K, V, R>, p: nat, n: nat)
    requires p < n
    ensures Inv(r, p, Initial<K, V, R>(n))
  {
  }

  /* ---- whole runs ---- */

  ghost predicate IsRun<K(!new), V(!new), R>(
    r: Rendering<K, V, R>, p: nat, states: seq<Machine<K, V, R>>, steps: seq<Step<K, V>>)
  {
    && |states| == |steps| + 1
    && forall i | 0 <= i < |steps| ::
         Enabled(r, states[i], steps[i]) && states[i + 1] == Next(r, p, states[i], steps[i])
  }

  lemma RunEffectiveIndex<K(!new), V(!new), R>(
    r: Rendering<K, V, R>, p: nat, states: seq<Machine<K, V, R>>, steps: seq<Step<K, V>>, i: nat, k: K)
    requires IsRun(r, p, states, steps) && i < |steps|
    ensures Lookup(EffectiveIndex(states[i + 1]), k)
      == if steps[i].Emit? && steps[i].write.key == k then steps[i].write.value
         else Lookup(EffectiveIndex(states[i]), k)
  {
    EffectiveIndexAfter(r, p, states[i], steps[i], k);
  }

  ghost predicate AllHarmless<K(!new), V(!new), R>(
    r: Rendering<K, V, R>, states: seq<Machine<K, V, R>>, steps: seq<Step<K, V>>)
    requires |states| == |steps| + 1
  {
    forall i | 0 <= i < |steps| && steps[i].Emit? :: Harmless(r, states[i], steps[i].write, steps[i].emission)
  }

  // Whatever the interleaving, a run of harmless operations agrees at every moment.
  lemma {:induction false} RunKeepsInv<K(!new), V(!new), R>(
    r: Rendering<K, V, R>, p: nat, states: seq<Machine<K, V, R>>, steps: seq<Step<K, V>>, i: nat)
    requires IsRun(r, p, states, steps) && AllHarmless(r, states, steps)
    requires Inv(r, p, states[0])
    requires i < |states|
    ensures Inv(r, p, states[i])
  {
    if i > 0 {
      RunKeepsInv(r, p, states, steps, i - 1);
      StepKeepsInv(r, p, states[i - 1], steps[i - 1]);
    }
  }

  // And exactly such runs: the first harmful operation breaks the agreement at once.
  lemma RunAgreesIff<K(!new), V(!new), R>(
    r: Rendering<K, V, R>, p: nat, states: seq<Machine<K, V, R>>, steps: seq<Step<K, V>>)
    requires IsRun(r, p, states, steps) && Inv(r, p, states[0])
    ensures (forall i | 0 <= i < |states| :: Inv(r, p, states[i])) <==> AllHarmless(r, states, steps)
  {
    if forall i | 0 <= i < |states| :: Inv(r, p, states[i]) {
      forall i | 0 <= i < |steps| && steps[i].Emit? ensures Harmless(r, states[i], steps[i].write, steps[i].emission) {
        assert Enabled(r, states[i], steps[i]) && states[i + 1] == Next(r, p, states[i], steps[i]);
        assert Inv(r, p, states[i]) && Inv(r, p, states[i + 1]);
        EmitAgreesIff(r, p, states[i], steps[i].write, steps[i].emission);
      }
    }
    if AllHarmless(r, states, steps) {
      forall i | 0 <= i < |states| ensures Inv(r, p, states[i]) {
        RunKeepsInv(r, p, states, steps, i);
      }
    }
  }

  ghost predicate Drained<K, V, R>(m: Machine<K, V, R>, p: nat)
    requires p < |m.listeners|
  {
    m.commit.None? && m.store.fifo.order == [] && m.sending == [] && m.listeners[p].held.None?
  }

  function View<K, V, R>(r: Rendering<K, V, R>, index: map<K, V>): map<K, R> {
    map k | k in index && r.view(index[k]).Some? :: r.view(index[k]).value
  }

  // Once nothing is on its way, the cache is exactly the view of the index.
  lemma DrainedCacheIsTheView<K(!new), V(!new), R>(r: Rendering<K, V, R>, p: nat, m: Machine<K, V, R>)
    requires Inv(r, p, m) && Drained(m, p)
    ensures m.cache == View(r, m.store.index)
  {
    forall k ensures Lookup(m.cache, k) == Lookup(View(r, m.store.index), k) {
      assert Queued(m.store.fifo, k) == [];
      assert Pending(r, m, p, k) == [];
      assert Replay(r, Pending(r, m, p, k), Slot(m.cache, k)) == ViewOf(r, Lookup(EffectiveIndex(m), k));
    }
    SameLookups(m.cache, View(r, m.store.index));
  }

  /* ---- delivery never gets stuck and ends after a known number of steps ---- */

  predicate IsDelivery<K, V>(s: Step<K, V>) {
    s.PopKey? || s.Send? || s.Handle?
  }

  function TotalQueued<K, V>(order: seq<K>, items: map<K, seq<Delta<V>>>): nat {
    if order == [] then 0
    else (if order[0] in items then |items[order[0]]| else 0) + TotalQueued(order[1..], items)
  }

  function HeldCount<V>(ls: seq<Listener<V>>): nat {
    if ls == [] then 0 else |Held(ls[0])| + HeldCount(ls[1..])
  }

  // Two steps per listener for each of n changes.
  function Rounds(listeners: nat, n: nat): nat {
    if n == 0 then 0 else 2 * listeners + Rounds(listeners, n - 1)
  }

  // Pops still to do, two steps per listener and change still to send, one per change held.
  function Work<K, V, R>(m: Machine<K, V, R>): int {
    |m.store.fifo.order|
      + Rounds(|m.listeners|, TotalQueued(m.store.fifo.order, m.store.fifo.items) + |m.sending|)
      - 2 * m.turn + HeldCount(m.listeners)
  }

  lemma {:induction false} TotalQueuedWithout<K, V>(order: seq<K>, items: map<K, seq<Delta<V>>>, k: K)
    requires k !in order
    ensures TotalQueued(order, items - {k}) == TotalQueued(order, items)
  {
    if order != [] {
      assert order[0] in order;
      assert forall x :: x in order[1..] ==> x in order;
      TotalQueuedWithout(order[1..], items, k);
    }
  }

  lemma {:induction false} HeldCountUpdate<V>(ls: seq<Listener<V>>, i: nat, l: Listener<V>)
    requires i < |ls|
    ensures HeldCount(ls[i := l]) == HeldCount(ls) - |Held(ls[i])| + |Held(l)|
  {
    if i == 0 {
      assert ls[i := l][1..] == ls[1..];
    } else {
      assert ls[i := l][1..] == ls[1..][i - 1 := l];
      HeldCountUpdate(ls[1..], i - 1, l);
    }
  }

  lemma {:induction false} SomeoneHolds<V>(ls: seq<Listener<V>>) returns (i: nat)
    requires HeldCount(ls) > 0
    ensures i < |ls| && ls[i].held.Some?
  {
    if ls[0].held.Some? {
      i := 0;
    } else {
      i := SomeoneHolds(ls[1..]);
      i := i + 1;
    }
  }

  lemma PopCounts<K(!new), V(!new), R>(r: Rendering<K, V, R>, p: nat, m: Machine<K, V, R>)
    requires Inv(r, p, m) && Enabled(r, m, PopKey)
    ensures Work(Next(r, p, m, PopKey)) == Work(m) - 1
  {
    var f := m.store.fifo;
    assert f.order[0] in f.order;
    TotalQueuedWithout(f.order[1..], f.items, f.order[0]);
  }

  lemma SendCounts<K(!new), V(!new), R>(r: Rendering<K, V, R>, p: nat, m: Machine<K, V, R>)
    requires Enabled(r, m, Send)
    ensures Work(Next(r, p, m, Send)) == Work(m) - 1
  {
    HeldCountUpdate(m.listeners, m.turn, m.listeners[m.turn].(held := Some(m.sending[0])));
  }

  lemma HandleCounts<K(!new), V(!new), R>(r: Rendering<K, V, R>, p: nat, m: Machine<K, V, R>, i: nat)
    requires Enabled(r, m, Handle(i))
    ensures Work(Next(r, p, m, Handle(i))) == Work(m) - 1
  {
    HeldCountUpdate(m.listeners, i, Listener(None, m.listeners[i].handled + [m.listeners[i].held.value]));
  }

  lemma DeliveryStepCounts<K(!new), V(!new), R>(r: Rendering<K, V, R>, p: nat, m: Machine<K, V, R>, s: Step<K, V>)
    requires Inv(r, p, m) && Enabled(r, m, s) && IsDelivery(s)
    ensures Work(Next(r, p, m, s)) == Work(m) - 1
  {
    match s
    case PopKey => PopCounts(r, p, m);
    case Send => SendCounts(r, p, m);
    case Handle(i) => HandleCounts(r, p, m, i);
  }

  // While work remains somebody can move: no listener is waited for forever.
  lemma DeliveryNeverStuck<K(!new), V(!new), R>(r: Rendering<K, V, R>, p: nat, m: Machine<K, V, R>)
    returns (s: Step<K, V>)
    requires Inv(r, p, m) && Work(m) != 0
    ensures IsDelivery(s) && Enabled(r, m, s)
  {
    if m.sending != [] {
      s := if m.listeners[m.turn].held.None? then Send else Handle(m.turn);
    } else if m.store.fifo.order != [] {
      s := PopKey;
    } else {
      var i := SomeoneHolds(m.listeners);
      s := Handle(i);
    }
  }

  lemma {:induction false} NoWorkNobodyHolds<V>(ls: seq<Listener<V>>, i: nat)
    requires HeldCount(ls) == 0 && i < |ls|
    ensures ls[i].held.None?
  {
    if i > 0 {
      NoWorkNobodyHolds(ls[1..], i - 1);
    }
  }

  lemma WorkIsNonNegative<K(!new), V(!new), R>(r: Rendering<K, V, R>, p: nat, m: Machine<K, V, R>)
    requires Inv(r, p, m)
    ensures Work(m) >= 0
    ensures Work(m) == 0 && m.commit.None? ==> Drained(m, p)
  {
    if m.sending == [] && Work(m) == 0 {
      NoWorkNobodyHolds(m.listeners, p);
    }
  }

  // If the stores stay quiet, every schedule of deliveries ends after exactly Work steps,
  // and then the cache is the view.
  lemma {:induction false} DeliveryEnds<K(!new), V(!new), R>(
    r: Rendering<K, V, R>, p: nat, states: seq<Machine<K, V, R>>, steps: seq<Step<K, V>>)
    requires IsRun(r, p, states, steps) && Inv(r, p, states[0]) && states[0].commit.None?
    requires forall s | s in steps :: IsDelivery(s)
    ensures |steps| <= Work(states[0])
    ensures |steps| == Work(states[0]) ==>
      states[|steps|].cache == View(r, states[0].store.index)
    decreases |steps|
  {
    WorkIsNonNegative(r, p, states[0]);
    if steps == [] {
      if Work(states[0]) == 0 {
        DrainedCacheIsTheView(r, p, states[0]);
      }
    } else {
      var next := states[1];
      assert Enabled(r, states[0], steps[0]) && next == Next(r, p, states[0], steps[0]);
      assert IsDelivery(steps[0]);
      StepKeepsInv(r, p, states[0], steps[0]);
      DeliveryStepCounts(r, p, states[0], steps[0]);
      assert IsRun(r, p, states[1..], steps[1..]) by {
        forall i | 0 <= i < |steps[1..]|
          ensures Enabled(r, states[1..][i], steps[1..][i])
               && states[1..][i + 1] == Next(r, p, states[1..][i], steps[1..][i])
        {
          assert Enabled(r, states[i + 1], steps[i + 1]) && states[i + 2] == Next(r, p, states[i + 1], steps[i + 1]);
        }
      }
      DeliveryEnds(r, p, states[1..], steps[1..]);
      assert next.store.index == states[0].store.index;
    }
  }
}
