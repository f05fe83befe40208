/**
 The data reporter's event engine.  Digesters add events to the accumulator and, when a key
 is full, block until a sender takes the key; senders flush the key and report the batch; a
 ticker flushes everything.  Each locked or rendezvous action is one step, in any order.
 */
module EventProtocol {
  import opened Wrappers
  import opened EventAccumulator

  datatype Digester = Ready | HandingOff(key: UserManifestType)

  datatype Sender = Idle | Received(key: UserManifestType) | Reporting(batch: nat)

  datatype Status = InFlight | Delivered | Lost

  datatype Batch = Batch(key: UserManifestType, events: seq<Json>, status: Status)

  datatype State = State(
    waiting: EventMap,
    digesters: seq<Digester>,
    senders: seq<Sender>,
    ticker: seq<nat>,         // the batches of the last flush-all still to be reported
    input: seq<Event>,        // history: every event processed
    batches: seq<Batch>)      // history: every batch flushed

  datatype Step =
    | Process(digester: nat, event: Event)
    | HandOff(digester: nat, sender: nat)
    | Flush(sender: nat)
    | Report(sender: nat, ok: bool)
    | FlushAll(keys: seq<UserManifestType>)   // the map's keys, in iteration order
    | TickerReport(ok: bool)

  // The keys of a map in some order, each once.
  ghost predicate Lists(keys: seq<UserManifestType>, m: EventMap) {
    NoDup(keys) && forall k :: k in keys <==> k in m
  }

  ghost predicate Enabled(s: State, step: Step) {
    match step
    case Process(i, _) => i < |s.digesters| && s.digesters[i].Ready?
    case HandOff(i, j) => i < |s.digesters| && s.digesters[i].HandingOff? && j < |s.senders| && s.senders[j].Idle?
    case Flush(j) => j < |s.senders| && s.senders[j].Received?
    case Report(j, _) => j < |s.senders| && s.senders[j].Reporting?
    case FlushAll(keys) =>
      s.ticker == [] && Lists(keys, s.waiting)
    case TickerReport(_) => s.ticker != []
  }

  function BatchesFor(m: EventMap, keys: seq<UserManifestType>): seq<Batch>
    decreases |keys|
  {
    if keys == [] then []
    else BatchesFor(m, keys[..|keys| - 1]) + [Batch(keys[|keys| - 1], Waiting(m, keys[|keys| - 1]), InFlight)]
  }

  function Settle(batches: seq<Batch>, ids: seq<nat>, status: Status): seq<Batch> {
    seq(|batches|, i requires 0 <= i < |batches| =>
      if i in ids then Batch(batches[i].key, batches[i].events, status) else batches[i])
  }

  function Next(max: int, s: State, step: Step): State
    requires Enabled(s, step)
  {
    match step
    case Process(i, e) =>
      var m := Accumulated(s.waiting, e);
      var full := |Waiting(m, KeyOf(e))| >= max;
      s.(waiting := m, input := s.input + [e],
         digesters := if full then s.digesters[i := HandingOff(KeyOf(e))] else s.digesters)
    case HandOff(i, j) =>
      s.(digesters := s.digesters[i := Ready], senders := s.senders[j := Received(s.digesters[i].key)])
    case Flush(j) =>
      var k := s.senders[j].key;
      s.(waiting := s.waiting - {k}, senders := s.senders[j := Reporting(|s.batches|)],
         batches := s.batches + [Batch(k, Waiting(s.waiting, k), InFlight)])
    case Report(j, ok) =>
      s.(senders := s.senders[j := Idle],
         batches := Settle(s.batches, [s.senders[j].batch], if ok then Delivered else Lost))
    case FlushAll(keys) =>
      s.(waiting := map[], batches := s.batches + BatchesFor(s.waiting, keys),
         ticker := seq(|keys|, i => |s.batches| + i))
    case TickerReport(ok) =>
      // the first failed report abandons the rest
      if ok then s.(ticker := s.ticker[1..], batches := Settle(s.batches, s.ticker[..1], Delivered))
      else s.(ticker := [], batches := Settle(s.batches, s.ticker, Lost))
  }

  function Initial(digesters: nat, senders: nat): State {
    State(map[], seq(digesters, _ => Ready), seq(senders, _ => Idle), [], [], [])
  }

  ghost predicate IsRun(max: int, states: seq<State>, steps: seq<Step>) {
    && |states| == |steps| + 1
    && states[0] == Initial(|states[0].digesters|, |states[0].senders|)
    && forall i | 0 <= i < |steps| :: Enabled(states[i], steps[i]) && states[i + 1] == Next(max, states[i], steps[i])
  }

  /* ---- the code behind the steps ---- */

  // `reports` says which batches the data service takes.
  type Reporter = (UserManifestType, seq<Json>) -> bool

  class ProcessorSender {
    const accumulator: EventAccumulator
    const maxEventEntries: int

    constructor (accumulator: EventAccumulator, maxEventEntries: int)
      ensures this.accumulator == accumulator && this.maxEventEntries == maxEventEntries
    {
      this.accumulator, this.maxEventEntries := accumulator, maxEventEntries;
    }

    // A full key is to be handed to a sender.
    method Process(event: Event) returns (full: Option<UserManifestType>)
      modifies accumulator
      ensures forall s: State, i: nat | s.waiting == old(accumulator.eventMap) && Enabled(s, Step.Process(i, event)) ::
        var n := Next(maxEventEntries, s, Step.Process(i, event));
        n.waiting == accumulator.eventMap && n.digesters[i] == if full.Some? then HandingOff(full.value) else Ready
      ensures full.Some? ==> OfEvent(event, full.value)
      ensures forall k | OfEvent(event, k) ::
        k in accumulator.eventMap && (full.Some? <==> |accumulator.eventMap[k]| >= maxEventEntries)
    {
      var length := accumulator.Add(event);
      full := if length >= maxEventEntries then Some(KeyOf(event)) else None;
    }

    method Send(key: UserManifestType, reports: Reporter) returns (ok: bool, ghost batch: seq<Json>)
      modifies accumulator
      ensures ok == reports(key, batch)
      ensures forall s: State, j: nat |
        s.waiting == old(accumulator.eventMap) && Enabled(s, Flush(j)) && s.senders[j] == Received(key) ::
        var n := Next(maxEventEntries, s, Flush(j));
        n.waiting == accumulator.eventMap && n.batches == s.batches + [Batch(key, batch, InFlight)]
    {
      var eventJsons := accumulator.Flush(key);
      batch := eventJsons;
      ok := reports(key, eventJsons);
    }

    // The flushed keys come in any order; the first failing report abandons the rest.
    method SendAll(reports: Reporter) returns (ok: bool, ghost keys: seq<UserManifestType>, ghost delivered: nat)
      modifies accumulator
      ensures Lists(keys, old(accumulator.eventMap)) && accumulator.eventMap == map[]
      ensures delivered <= |keys| && (ok <==> delivered == |keys|)
      ensures forall i | 0 <= i < delivered :: reports(keys[i], Waiting(old(accumulator.eventMap), keys[i]))
      ensures !ok ==> !reports(keys[delivered], Waiting(old(accumulator.eventMap), keys[delivered]))
      ensures forall s: State | s.waiting == old(accumulator.eventMap) && s.ticker == [] ::
        && Enabled(s, FlushAll(keys)) && InRange(Next(maxEventEntries, s, FlushAll(keys)))
        && var n := Ticked(maxEventEntries, Next(maxEventEntries, s, FlushAll(keys)), reports);
           && n.waiting == accumulator.eventMap && n.ticker == []
           && n.batches == s.batches + Settled(old(accumulator.eventMap), keys, delivered, Lost)
    {
      var eventMap := accumulator.FlushAll();
      assert accumulator.eventMap == map[];
      keys, delivered := [], 0;
      var todo := eventMap.Keys;
      while todo != {}
        invariant todo <= eventMap.Keys && accumulator.eventMap == map[]
        invariant NoDup(keys) && forall k :: k in keys <==> k in eventMap.Keys - todo
        invariant delivered == |keys|
        invariant forall i | 0 <= i < delivered :: reports(keys[i], Waiting(eventMap, keys[i]))
      {
        var k :| k in todo;
        todo := todo - {k};
        AppendsNew(keys, [k]);
        if !reports(k, eventMap[k]) {
          ghost var rest := InSomeOrder(todo);
          AppendsNew(keys + [k], rest);
          keys := keys + [k] + rest;
          assert Lists(keys, eventMap);
          SendAllIsSteps(maxEventEntries, eventMap, keys, delivered, reports);
          return false, keys, delivered;
        }
        keys := keys + [k];
        delivered := delivered + 1;
      }
      assert Lists(keys, eventMap);
      SendAllIsSteps(maxEventEntries, eventMap, keys, delivered, reports);
      return true, keys, delivered;
    }
  }

  ghost predicate InRange(s: State) {
    forall i | 0 <= i < |s.ticker| :: s.ticker[i] < |s.batches|
  }

  // The ticker reports until nothing is left, with the reporter's answers.
  ghost function Ticked(max: int, s: State, reports: Reporter): State
    requires InRange(s)
    decreases |s.ticker|
  {
    if s.ticker == [] then s
    else
      var b := s.batches[s.ticker[0]];
      Ticked(max, Next(max, s, TickerReport(reports(b.key, b.events))), reports)
  }

  // The batches of a flush-all: the first ones delivered, the others as given.
  function Settled(m: EventMap, keys: seq<UserManifestType>, delivered: nat, others: Status): seq<Batch> {
    seq(|keys|, i requires 0 <= i < |keys| =>
      Batch(keys[i], Waiting(m, keys[i]), if i < delivered then Delivered else others))
  }

  // The tickets of the batches still to be reported.
  function Tickets(first: nat, done: nat, n: nat): seq<nat>
    requires done <= n
  {
    seq(n - done, i requires i >= 0 => first + done + i)
  }

  // The ticker after the first `done` batches of a flush-all were delivered.
  ghost predicate AtTicket(s: State, before: seq<Batch>, m: EventMap, keys: seq<UserManifestType>, done: nat) {
    && done <= |keys|
    && s.ticker == Tickets(|before|, done, |keys|)
    && s.batches == before + Settled(m, keys, done, InFlight)
  }

  lemma TicketsInRange(s: State, before: seq<Batch>, m: EventMap, keys: seq<UserManifestType>, done: nat)
    requires AtTicket(s, before, m, keys, done)
    ensures InRange(s)
    ensures done < |keys| ==>
      s.ticker[0] == |before| + done && s.batches[s.ticker[0]] == Batch(keys[done], Waiting(m, keys[done]), InFlight)
  {
    if done < |keys| {
      assert s.batches[|before| + done] == Settled(m, keys, done, InFlight)[done];
    }
  }

  lemma DeliveredTicket(
    max: int, s: State, before: seq<Batch>, m: EventMap, keys: seq<UserManifestType>, done: nat, reports: Reporter)
    returns (n: State)
    requires AtTicket(s, before, m, keys, done) && done < |keys| && InRange(s)
    requires reports(keys[done], Waiting(m, keys[done]))
    ensures AtTicket(n, before, m, keys, done + 1) && n.waiting == s.waiting
    ensures InRange(n) && Ticked(max, s, reports) == Ticked(max, n, reports)
  {
    TicketsInRange(s, before, m, keys, done);
    n := Next(max, s, TickerReport(true));
    assert s.ticker[..1] == [|before| + done];
    assert n.ticker == Tickets(|before|, done + 1, |keys|);
    assert n.batches == before + Settled(m, keys, done + 1, InFlight);
    TicketsInRange(n, before, m, keys, done + 1);
  }

  lemma LostTickets(
    max: int, s: State, before: seq<Batch>, m: EventMap, keys: seq<UserManifestType>, done: nat, reports: Reporter)
    requires AtTicket(s, before, m, keys, done) && done < |keys| && InRange(s)
    requires !reports(keys[done], Waiting(m, keys[done]))
    ensures var n := Ticked(max, s, reports);
      n.ticker == [] && n.waiting == s.waiting && n.batches == before + Settled(m, keys, done, Lost)
  {
    TicketsInRange(s, before, m, keys, done);
    var n := Next(max, s, TickerReport(false));
    forall i: nat | i < |s.batches| ensures i in s.ticker <==> i >= |before| + done {
      assert i >= |before| + done ==> s.ticker[i - |before| - done] == i;
    }
    assert n.batches == before + Settled(m, keys, done, Lost);
    assert Ticked(max, n, reports) == n;
  }

  lemma LastTickets(
    max: int, s: State, before: seq<Batch>, m: EventMap, keys: seq<UserManifestType>, done: nat, reports: Reporter)
    requires AtTicket(s, before, m, keys, done) && InRange(s)
    requires done < |keys| ==> !reports(keys[done], Waiting(m, keys[done]))
    ensures var n := Ticked(max, s, reports);
      n.ticker == [] && n.waiting == s.waiting && n.batches == before + Settled(m, keys, done, Lost)
  {
    if done < |keys| {
      LostTickets(max, s, before, m, keys, done, reports);
    } else {
      assert Settled(m, keys, done, InFlight) == Settled(m, keys, done, Lost);
    }
  }

  lemma {:induction false} TickedSettles(
    max: int, s: State, before: seq<Batch>, m: EventMap, keys: seq<UserManifestType>,
    done: nat, delivered: nat, reports: Reporter)
    requires AtTicket(s, before, m, keys, done) && done <= delivered <= |keys| && InRange(s)
    requires forall i | 0 <= i < delivered :: reports(keys[i], Waiting(m, keys[i]))
    requires delivered < |keys| ==> !reports(keys[delivered], Waiting(m, keys[delivered]))
    ensures var n := Ticked(max, s, reports);
      n.ticker == [] && n.waiting == s.waiting && n.batches == before + Settled(m, keys, delivered, Lost)
    decreases |keys| - done
  {
    if done == delivered {
      LastTickets(max, s, before, m, keys, done, reports);
    } else {
      assert reports(keys[done], Waiting(m, keys[done]));
      var n := DeliveredTicket(max, s, before, m, keys, done, reports);
      TickedSettles(max, n, before, m, keys, done + 1, delivered, reports);
    }
  }

  lemma SendAllIsSteps(
    max: int, m: EventMap, keys: seq<UserManifestType>, delivered: nat, reports: Reporter)
    requires Lists(keys, m) && delivered <= |keys|
    requires forall i | 0 <= i < delivered :: reports(keys[i], Waiting(m, keys[i]))
    requires delivered < |keys| ==> !reports(keys[delivered], Waiting(m, keys[delivered]))
    ensures forall s: State | s.waiting == m && s.ticker == [] ::
      && Enabled(s, FlushAll(keys)) && InRange(Next(max, s, FlushAll(keys)))
      && var n := Ticked(max, Next(max, s, FlushAll(keys)), reports);
         n.waiting == map[] && n.ticker == [] && n.batches == s.batches + Settled(m, keys, delivered, Lost)
  {
    BatchesForCount(m, keys);
    forall s: State | s.waiting == m && s.ticker == []
      ensures Enabled(s, FlushAll(keys)) && InRange(Next(max, s, FlushAll(keys)))
      ensures var n := Ticked(max, Next(max, s, FlushAll(keys)), reports);
        n.waiting == map[] && n.ticker == [] && n.batches == s.batches + Settled(m, keys, delivered, Lost)
    {
      var f := Next(max, s, FlushAll(keys));
      assert BatchesFor(m, keys) == Settled(m, keys, 0, InFlight);
      assert f.ticker == Tickets(|s.batches|, 0, |keys|);
      TicketsInRange(f, s.batches, m, keys, 0);
      TickedSettles(max, f, s.batches, m, keys, 0, delivered, reports);
    }
  }

  lemma AppendsNew(a: seq<UserManifestType>, b: seq<UserManifestType>)
    requires NoDup(a) && NoDup(b) && forall k | k in b :: k !in a
    ensures NoDup(a + b)
  {
    forall i, j | 0 <= i < j < |a + b| ensures (a + b)[i] != (a + b)[j] {
      if i < |a| <= j {
        assert a[i] in a && b[j - |a|] in b;
      }
    }
  }

  lemma {:induction false} InSomeOrder(keys: set<UserManifestType>) returns (order: seq<UserManifestType>)
    ensures NoDup(order) && forall k :: k in order <==> k in keys
  {
    order := [];
    if keys != {} {
      var k :| k in keys;
      order := InSomeOrder(keys - {k});
      order := [k] + order;
    }
  }

  /* ---- conservation: flushed batches, then what waits, are the processed events ---- */

  function EventsFor(input: seq<Event>, k: UserManifestType): seq<Json>
    decreases |input|
  {
    if input == [] then []
    else
      var last := input[|input| - 1];
      EventsFor(input[..|input| - 1], k)
        + if last.user == k.user && last.manifestType == k.manifestType then [last.rawMessage] else []
  }

  function Flushed(batches: seq<Batch>, k: UserManifestType): seq<Json>
    decreases |batches|
  {
    if batches == [] then []
    else
      var last := batches[|batches| - 1];
      Flushed(batches[..|batches| - 1], k) + if last.key == k then last.events else []
  }

  ghost predicate Conserved(s: State) {
    forall k :: EventsFor(s.input, k) == Flushed(s.batches, k) + Waiting(s.waiting, k)
  }

  lemma FlushedSnoc(bs: seq<Batch>, b: Batch, k: UserManifestType)
    ensures Flushed(bs + [b], k) == Flushed(bs, k) + if b.key == k then b.events else []
  {
    assert (bs + [b])[..|bs|] == bs;
  }

  lemma {:induction false} FlushedIgnoresStatus(a: seq<Batch>, b: seq<Batch>, k: UserManifestType)
    requires |a| == |b| && forall i | 0 <= i < |a| :: a[i].key == b[i].key && a[i].events == b[i].events
    ensures Flushed(a, k) == Flushed(b, k)
    decreases |a|
  {
    if a != [] {
      FlushedIgnoresStatus(a[..|a| - 1], b[..|b| - 1], k);
    }
  }

  lemma LastIsNew(keys: seq<UserManifestType>)
    requires keys != [] && NoDup(keys)
    ensures NoDup(keys[..|keys| - 1]) && keys[|keys| - 1] !in keys[..|keys| - 1]
    ensures forall k :: k in keys <==> k in keys[..|keys| - 1] || k == keys[|keys| - 1]
  {
    assert keys == keys[..|keys| - 1] + [keys[|keys| - 1]];
  }

  lemma FlushedNext(bs: seq<Batch>, m: EventMap, keys: seq<UserManifestType>, k: UserManifestType)
    requires keys != []
    ensures var last := keys[|keys| - 1];
            Flushed(bs + BatchesFor(m, keys), k)
            == Flushed(bs + BatchesFor(m, keys[..|keys| - 1]), k) + if last == k then Waiting(m, last) else []
  {
    var before, last := bs + BatchesFor(m, keys[..|keys| - 1]), keys[|keys| - 1];
    var b := Batch(last, Waiting(m, last), InFlight);
    assert bs + BatchesFor(m, keys) == before + [b];
    FlushedSnoc(before, b, k);
  }

  lemma {:induction false} FlushAllAdds(bs: seq<Batch>, m: EventMap, keys: seq<UserManifestType>, k: UserManifestType)
    requires NoDup(keys)
    ensures Flushed(bs + BatchesFor(m, keys), k) == Flushed(bs, k) + if k in keys then Waiting(m, k) else []
    decreases |keys|
  {
    if keys == [] {
      assert bs + [] == bs;
    } else {
      LastIsNew(keys);
      FlushAllAdds(bs, m, keys[..|keys| - 1], k);
      FlushedNext(bs, m, keys, k);
    }
  }

  ghost predicate KeyConserved(s: State, k: UserManifestType) {
    EventsFor(s.input, k) == Flushed(s.batches, k) + Waiting(s.waiting, k)
  }

  lemma ProcessConserves(max: int, s: State, i: nat, e: Event, k: UserManifestType)
    requires Enabled(s, Process(i, e)) && KeyConserved(s, k)
    ensures KeyConserved(Next(max, s, Process(i, e)), k)
  {
    var input := s.input + [e];
    assert input[..|s.input|] == s.input;
    AccumulatedByFields(s.waiting, e, k);
  }

  lemma FlushConserves(max: int, s: State, j: nat, k: UserManifestType)
    requires Enabled(s, Flush(j)) && KeyConserved(s, k)
    ensures KeyConserved(Next(max, s, Flush(j)), k)
  {
    FlushedSnoc(s.batches, Batch(s.senders[j].key, Waiting(s.waiting, s.senders[j].key), InFlight), k);
  }

  lemma FlushAllConserves(max: int, s: State, keys: seq<UserManifestType>, k: UserManifestType)
    requires Enabled(s, FlushAll(keys)) && KeyConserved(s, k)
    ensures KeyConserved(Next(max, s, FlushAll(keys)), k)
  {
    FlushAllAdds(s.batches, s.waiting, keys, k);
  }

  lemma StatusConserves(max: int, s: State, step: Step, k: UserManifestType)
    requires Enabled(s, step) && (step.Report? || step.TickerReport? || step.HandOff?) && KeyConserved(s, k)
    ensures KeyConserved(Next(max, s, step), k)
  {
    FlushedIgnoresStatus(s.batches, Next(max, s, step).batches, k);
  }

  lemma StepConserves(max: int, s: State, step: Step)
    requires Conserved(s) && Enabled(s, step)
    ensures Conserved(Next(max, s, step))
  {
    var n := Next(max, s, step);
    forall k ensures EventsFor(n.input, k) == Flushed(n.batches, k) + Waiting(n.waiting, k) {
      assert KeyConserved(s, k);
      match step
      case Process(i, e) => ProcessConserves(max, s, i, e, k);
      case Flush(j) => FlushConserves(max, s, j, k);
      case FlushAll(keys) => FlushAllConserves(max, s, keys, k);
      case _ => StatusConserves(max, s, step, k);
      assert KeyConserved(n, k);
    }
  }

  // For every key, in every interleaving: concatenating its batches in flush order and then
  // what waits gives the processed events in order, each once.
  lemma {:induction false} EventsConserved(max: int, states: seq<State>, steps: seq<Step>, i: nat, k: UserManifestType)
    requires IsRun(max, states, steps) && i < |states|
    ensures Conserved(states[i])
    ensures EventsFor(states[i].input, k) == Flushed(states[i].batches, k) + Waiting(states[i].waiting, k)
  {
    if i > 0 {
      EventsConserved(max, states, steps, i - 1, k);
      assert Enabled(states[i - 1], steps[i - 1]) && states[i] == Next(max, states[i - 1], steps[i - 1]);
      StepConserves(max, states[i - 1], steps[i - 1]);
    }
  }

  lemma {:induction false} FlushedPrefix(bs: seq<Batch>, n: nat, k: UserManifestType)
    requires n <= |bs|
    ensures Flushed(bs[..n], k) <= Flushed(bs, k)
    decreases |bs| - n
  {
    if n < |bs| {
      FlushedPrefix(bs, n + 1, k);
      assert bs[..n + 1][..n] == bs[..n];
    } else {
      assert bs[..n] == bs;
    }
  }

  // A batch is one slice of its key's events, and a later batch of the key starts behind it:
  // no event is in two batches.
  lemma BatchIsASlice(max: int, states: seq<State>, steps: seq<Step>, i: nat, b: nat, c: nat)
    requires IsRun(max, states, steps) && i < |states| && b < c < |states[i].batches|
    requires states[i].batches[b].key == states[i].batches[c].key
    ensures var bs, k := states[i].batches, states[i].batches[b].key;
      var from := |Flushed(bs[..b], k)|;
      var to := from + |bs[b].events|;
      && to <= |Flushed(bs[..c], k)| <= |EventsFor(states[i].input, k)|
      && EventsFor(states[i].input, k)[from..to] == bs[b].events
  {
    var bs, k := states[i].batches, states[i].batches[b].key;
    EventsConserved(max, states, steps, i, k);
    assert bs[..b + 1][..b] == bs[..b];
    assert Flushed(bs[..b + 1], k) == Flushed(bs[..b], k) + bs[b].events;
    FlushedPrefix(bs, b + 1, k);
    FlushedPrefix(bs, c, k);
    assert bs[..c][..b + 1] == bs[..b + 1];
    FlushedPrefix(bs[..c], b + 1, k);
  }

  /* ---- every batch in flight belongs to one sender or to the ticker ---- */

  ghost predicate SentBy(s: State, b: nat) {
    exists j :: 0 <= j < |s.senders| && s.senders[j] == Reporting(b)
  }

  ghost predicate Owned(s: State) {
    && (forall b | 0 <= b < |s.batches| && s.batches[b].status.InFlight? :: b in s.ticker || SentBy(s, b))
    && (forall b | b in s.ticker :: b < |s.batches| && s.batches[b].status.InFlight?)
    && (forall j | 0 <= j < |s.senders| && s.senders[j].Reporting? ::
          s.senders[j].batch < |s.batches| && s.batches[s.senders[j].batch].status.InFlight?
          && s.senders[j].batch !in s.ticker)
    && (forall i, j | 0 <= i < j < |s.senders| && s.senders[i].Reporting? && s.senders[j].Reporting? ::
          s.senders[i].batch != s.senders[j].batch)
    && (forall i, j | 0 <= i < j < |s.ticker| :: s.ticker[i] != s.ticker[j])
  }

  lemma {:induction false} BatchesForCount(m: EventMap, keys: seq<UserManifestType>)
    ensures |BatchesFor(m, keys)| == |keys|
    ensures forall i | 0 <= i < |keys| :: BatchesFor(m, keys)[i] == Batch(keys[i], Waiting(m, keys[i]), InFlight)
    decreases |keys|
  {
    if keys != [] {
      BatchesForCount(m, keys[..|keys| - 1]);
    }
  }

  // Replacing one sender that is not reporting keeps every other report in flight.
  lemma OthersStillSent(s: State, j: nat, x: Sender, b: nat)
    requires j < |s.senders| && s.senders[j] != Reporting(b) && SentBy(s, b)
    ensures SentBy(s.(senders := s.senders[j := x]), b)
  {
    var i :| 0 <= i < |s.senders| && s.senders[i] == Reporting(b);
    assert s.senders[j := x][i] == Reporting(b);
  }

  lemma FlushKeepsOwned(max: int, s: State, j: nat)
    requires Owned(s) && Enabled(s, Flush(j))
    ensures Owned(Next(max, s, Flush(j)))
  {
    var n := Next(max, s, Flush(j));
    forall b | 0 <= b < |n.batches| && n.batches[b].status.InFlight? ensures b in n.ticker || SentBy(n, b) {
      if b == |s.batches| {
        assert n.senders[j] == Reporting(b);
      } else if SentBy(s, b) {
        OthersStillSent(s, j, n.senders[j], b);
      }
    }
  }

  lemma ReportKeepsOwned(max: int, s: State, j: nat, ok: bool)
    requires Owned(s) && Enabled(s, Report(j, ok))
    ensures Owned(Next(max, s, Report(j, ok)))
  {
    var n := Next(max, s, Report(j, ok));
    forall b | 0 <= b < |n.batches| && n.batches[b].status.InFlight? ensures b in n.ticker || SentBy(n, b) {
      assert s.batches[b].status.InFlight? && b != s.senders[j].batch;
      if SentBy(s, b) {
        OthersStillSent(s, j, Idle, b);
      }
    }
  }

  lemma FlushAllKeepsOwned(max: int, s: State, keys: seq<UserManifestType>)
    requires Owned(s) && Enabled(s, FlushAll(keys))
    ensures Owned(Next(max, s, FlushAll(keys)))
  {
    var n := Next(max, s, FlushAll(keys));
    BatchesForCount(s.waiting, keys);
    forall b | 0 <= b < |n.batches| && n.batches[b].status.InFlight? ensures b in n.ticker || SentBy(n, b) {
      if b >= |s.batches| {
        assert n.ticker[b - |s.batches|] == b;
      } else {
        assert SentBy(s, b);
      }
    }
  }

  lemma TickerReportKeepsOwned(max: int, s: State, ok: bool)
    requires Owned(s) && Enabled(s, TickerReport(ok))
    ensures Owned(Next(max, s, TickerReport(ok)))
  {
    var n := Next(max, s, TickerReport(ok));
    assert s.ticker == [s.ticker[0]] + s.ticker[1..];
    forall b | 0 <= b < |n.batches| && n.batches[b].status.InFlight? ensures b in n.ticker || SentBy(n, b) {
      assert b in s.ticker || SentBy(s, b);
    }
    forall b | b in n.ticker ensures b < |n.batches| && n.batches[b].status.InFlight? {
      var i :| 0 <= i < |n.ticker| && n.ticker[i] == b;
      assert ok && s.ticker[i + 1] == b && s.ticker[0] != b;
      assert b in s.ticker && b !in [s.ticker[0]];
    }
  }

  lemma StepKeepsOwned(max: int, s: State, step: Step)
    requires Owned(s) && Enabled(s, step)
    ensures Owned(Next(max, s, step))
  {
    match step
    case Process(_, _) =>
      assert forall b :: SentBy(s, b) ==> SentBy(Next(max, s, step), b);
    case HandOff(i, j) =>
      forall b | SentBy(s, b) ensures SentBy(Next(max, s, step), b) {
        OthersStillSent(s, j, Received(s.digesters[i].key), b);
      }
    case Flush(j) => FlushKeepsOwned(max, s, j);
    case Report(j, ok) => ReportKeepsOwned(max, s, j, ok);
    case FlushAll(keys) => FlushAllKeepsOwned(max, s, keys);
    case TickerReport(ok) => TickerReportKeepsOwned(max, s, ok);
  }

  // An event not delivered still waits, is being reported, or was in a failed or abandoned
  // report; when nobody is reporting, nothing is in flight.
  lemma {:induction false} NothingSilentlyLost(max: int, states: seq<State>, steps: seq<Step>, i: nat)
    requires IsRun(max, states, steps) && i < |states|
    ensures Owned(states[i])
    ensures states[i].ticker == [] && (forall x | x in states[i].senders :: !x.Reporting?) ==>
      forall b | b in states[i].batches :: b.status.Delivered? || b.status.Lost?
  {
    if i > 0 {
      NothingSilentlyLost(max, states, steps, i - 1);
      assert Enabled(states[i - 1], steps[i - 1]) && states[i] == Next(max, states[i - 1], steps[i - 1]);
      StepKeepsOwned(max, states[i - 1], steps[i - 1]);
    }
  }

  // The outcome recorded for a batch is the outcome of its report: a delivered one is delivered,
  // a failed one lost, and with a failing one of the ticker all it has left.
  lemma ReportIsRecorded(max: int, s: State, step: Step, b: nat)
    requires Owned(s) && Enabled(s, step) && (step.Report? || step.TickerReport?) && b < |s.batches|
    ensures var n := Next(max, s, step).batches;
      |n| == |s.batches| && n[b].key == s.batches[b].key && n[b].events == s.batches[b].events
    ensures step.Report? && s.senders[step.sender] == Reporting(b) ==>
      Next(max, s, step).batches[b].status == if step.ok then Delivered else Lost
    ensures step.Report? && s.senders[step.sender] != Reporting(b) ==>
      Next(max, s, step).batches[b].status == s.batches[b].status
    ensures step.TickerReport? && step.ok ==>
      Next(max, s, step).batches[b].status == if s.ticker[0] == b then Delivered else s.batches[b].status
    ensures step.TickerReport? && !step.ok ==>
      Next(max, s, step).batches[b].status == if b in s.ticker then Lost else s.batches[b].status
  {
    if step.TickerReport? {
      assert s.ticker[..1] == [s.ticker[0]];
    }
  }

  /* ---- the size of a report ---- */

  function HandingOffCount(ds: seq<Digester>, k: UserManifestType): nat {
    if ds == [] then 0
    else (if ds[0] == HandingOff(k) then 1 else 0) + HandingOffCount(ds[1..], k)
  }

  function ReceivedCount(ss: seq<Sender>, k: UserManifestType): nat {
    if ss == [] then 0
    else (if ss[0] == Received(k) then 1 else 0) + ReceivedCount(ss[1..], k)
  }

  function AtLeastOne(max: int): int {
    if max < 1 then 1 else max
  }

  ghost predicate Bounded(max: int, s: State) {
    && (forall k :: |Waiting(s.waiting, k)|
         <= AtLeastOne(max) - 1 + HandingOffCount(s.digesters, k) + ReceivedCount(s.senders, k))
    && (forall b | b in s.batches :: |b.events| <= AtLeastOne(max) - 1 + |s.digesters| + |s.senders|)
  }

  lemma {:induction false} HandingOffUpdate(ds: seq<Digester>, i: nat, d: Digester, k: UserManifestType)
    requires i < |ds|
    ensures HandingOffCount(ds[i := d], k)
      == HandingOffCount(ds, k) - (if ds[i] == HandingOff(k) then 1 else 0) + (if d == HandingOff(k) then 1 else 0)
    ensures HandingOffCount(ds, k) <= |ds|
  {
    if i == 0 {
      assert ds[i := d][1..] == ds[1..];
      if |ds| > 1 {
        HandingOffUpdate(ds[1..], 0, d, k);
      }
    } else {
      assert ds[i := d][1..] == ds[1..][i - 1 := d];
      HandingOffUpdate(ds[1..], i - 1, d, k);
    }
  }

  lemma {:induction false} ReceivedUpdate(ss: seq<Sender>, i: nat, x: Sender, k: UserManifestType)
    requires i < |ss|
    ensures ReceivedCount(ss[i := x], k)
      == ReceivedCount(ss, k) - (if ss[i] == Received(k) then 1 else 0) + (if x == Received(k) then 1 else 0)
    ensures ReceivedCount(ss, k) <= |ss|
  {
    if i == 0 {
      assert ss[i := x][1..] == ss[1..];
      if |ss| > 1 {
        ReceivedUpdate(ss[1..], 0, x, k);
      }
    } else {
      assert ss[i := x][1..] == ss[1..][i - 1 := x];
      ReceivedUpdate(ss[1..], i - 1, x, k);
    }
  }

  lemma CountsAreBounded(s: State, k: UserManifestType)
    ensures HandingOffCount(s.digesters, k) <= |s.digesters|
    ensures ReceivedCount(s.senders, k) <= |s.senders|
  {
    if s.digesters != [] {
      HandingOffUpdate(s.digesters, 0, Ready, k);
    }
    if s.senders != [] {
      ReceivedUpdate(s.senders, 0, Idle, k);
    }
  }

  lemma StepKeepsWaitingBounded(max: int, s: State, step: Step, k: UserManifestType)
    requires Bounded(max, s) && Enabled(s, step)
    ensures var n := Next(max, s, step);
      |Waiting(n.waiting, k)| <= AtLeastOne(max) - 1 + HandingOffCount(n.digesters, k) + ReceivedCount(n.senders, k)
  {
    match step
    case Process(i, e) =>
      HandingOffUpdate(s.digesters, i, HandingOff(KeyOf(e)), k);
    case HandOff(i, j) =>
      HandingOffUpdate(s.digesters, i, Ready, k);
      ReceivedUpdate(s.senders, j, Received(s.digesters[i].key), k);
    case Flush(j) =>
      ReceivedUpdate(s.senders, j, Reporting(|s.batches|), k);
    case Report(j, _) =>
      ReceivedUpdate(s.senders, j, Idle, k);
    case FlushAll(_) =>
    case TickerReport(_) =>
  }

  lemma StepKeepsBounded(max: int, s: State, step: Step)
    requires Bounded(max, s) && Enabled(s, step)
    ensures Bounded(max, Next(max, s, step))
  {
    var n := Next(max, s, step);
    forall k ensures |Waiting(n.waiting, k)|
      <= AtLeastOne(max) - 1 + HandingOffCount(n.digesters, k) + ReceivedCount(n.senders, k)
    {
      StepKeepsWaitingBounded(max, s, step, k);
    }
    forall b | b in n.batches ensures |b.events| <= AtLeastOne(max) - 1 + |n.digesters| + |n.senders| {
      match step
      case Flush(j) =>
        CountsAreBounded(s, s.senders[j].key);
      case FlushAll(keys) =>
        BatchesForCount(s.waiting, keys);
        CountsAreBounded(s, b.key);
      case Report(j, ok) =>
        var i :| 0 <= i < |n.batches| && n.batches[i] == b;
        assert s.batches[i] in s.batches;
      case TickerReport(ok) =>
        var i :| 0 <= i < |n.batches| && n.batches[i] == b;
        assert s.batches[i] in s.batches;
      case _ =>
    }
  }

  // For any number of digesters and senders: a key never waits with more than max - 1 events
  // plus one per digester handing it off and one per sender about to flush it, and no report
  // exceeds max - 1 plus the number of digesters and senders.
  lemma {:induction false} ReportsAreBounded(max: int, states: seq<State>, steps: seq<Step>, i: nat)
    requires IsRun(max, states, steps) && i < |states|
    ensures Bounded(max, states[i])
    ensures |states[i].digesters| == |states[0].digesters| && |states[i].senders| == |states[0].senders|
    ensures |states[0].digesters| == |states[0].senders| == 1 && max >= 1 ==>
      forall b | b in states[i].batches :: |b.events| <= max + 1
  {
    if i > 0 {
      ReportsAreBounded(max, states, steps, i - 1);
      assert Enabled(states[i - 1], steps[i - 1]) && states[i] == Next(max, states[i - 1], steps[i - 1]);
      StepKeepsBounded(max, states[i - 1], steps[i - 1]);
    }
  }

  /* ---- the bound is reached ---- */

  lemma ExtendRun(max: int, states: seq<State>, steps: seq<Step>, step: Step, next: State)
    requires IsRun(max, states, steps) && Enabled(states[|steps|], step) && Next(max, states[|steps|], step) == next
    ensures IsRun(max, states + [next], steps + [step])
  {
  }

  function Copies(e: Event, n: nat): seq<Json> {
    seq(n, _ => e.rawMessage)
  }

  // n digesters and n senders after w times the same event: the first digesters are handing its
  // key off, the first senders have taken it.
  function Loaded(n: nat, e: Event, w: nat, handing: nat, taken: nat): State {
    State(
      if w == 0 then map[] else map[KeyOf(e) := Copies(e, w)],
      seq(n, i => if i < handing then HandingOff(KeyOf(e)) else Ready),
      seq(n, i => if i < taken then Received(KeyOf(e)) else Idle),
      [], seq(w, _ => e), [])
  }

  lemma OneMore(max: int, n: nat, e: Event, w: nat, handing: nat, taken: nat, full: bool)
    requires handing < n && full == (w + 1 >= max)
    ensures Enabled(Loaded(n, e, w, handing, taken), Process(handing, e))
    ensures Next(max, Loaded(n, e, w, handing, taken), Process(handing, e))
      == Loaded(n, e, w + 1, if full then handing + 1 else handing, taken)
  {
    var s, t := Loaded(n, e, w, handing, taken), Loaded(n, e, w + 1, handing + 1, taken);
    assert Waiting(s.waiting, KeyOf(e)) == Copies(e, w);
    assert Copies(e, w) + [e.rawMessage] == Copies(e, w + 1);
    assert s.input + [e] == t.input;
    assert s.digesters[handing := HandingOff(KeyOf(e))] == t.digesters;
  }

  lemma OneTaken(max: int, n: nat, e: Event, w: nat, taken: nat)
    requires taken < n
    ensures Enabled(Loaded(n, e, w, 1, taken), HandOff(0, taken))
    ensures Next(max, Loaded(n, e, w, 1, taken), HandOff(0, taken)) == Loaded(n, e, w, 0, taken + 1)
  {
    var s, t := Loaded(n, e, w, 1, taken), Loaded(n, e, w, 0, taken + 1);
    assert s.digesters[0 := Ready] == t.digesters;
    assert s.senders[taken := Received(KeyOf(e))] == t.senders;
  }

  // Filled to one below the maximum, nobody was asked to send.
  lemma {:induction false} Fill(max: int, n: nat, e: Event, w: nat) returns (states: seq<State>, steps: seq<Step>)
    requires w < AtLeastOne(max) && n >= 1
    ensures IsRun(max, states, steps) && states[0] == Initial(n, n) && states[|steps|] == Loaded(n, e, w, 0, 0)
  {
    if w == 0 {
      states, steps := [Initial(n, n)], [];
      assert states[0] == Loaded(n, e, 0, 0, 0);
    } else {
      states, steps := Fill(max, n, e, w - 1);
      OneMore(max, n, e, w - 1, 0, 0, false);
      var next := Loaded(n, e, w, 0, 0);
      ExtendRun(max, states, steps, Process(0, e), next);
      states, steps := states + [next], steps + [Process(0, e)];
    }
  }

  // Each further event is handed to another sender that does not get to flush.
  lemma {:induction false} TakeAll(max: int, n: nat, e: Event, taken: nat)
    returns (states: seq<State>, steps: seq<Step>)
    requires taken <= n && n >= 1
    ensures IsRun(max, states, steps) && states[0] == Initial(n, n)
    ensures states[|steps|] == Loaded(n, e, AtLeastOne(max) - 1 + taken, 0, taken)
  {
    if taken == 0 {
      states, steps := Fill(max, n, e, AtLeastOne(max) - 1);
    } else {
      states, steps := TakeAll(max, n, e, taken - 1);
      var w := AtLeastOne(max) - 1 + taken - 1;
      var full, next := Loaded(n, e, w + 1, 1, taken - 1), Loaded(n, e, w + 1, 0, taken);
      OneMore(max, n, e, w, 0, taken - 1, true);
      ExtendRun(max, states, steps, Process(0, e), full);
      states, steps := states + [full], steps + [Process(0, e)];
      OneTaken(max, n, e, w + 1, taken - 1);
      ExtendRun(max, states, steps, HandOff(0, taken - 1), next);
      states, steps := states + [next], steps + [HandOff(0, taken - 1)];
    }
  }

  // Then every digester waits with one more.
  lemma {:induction false} HandAll(max: int, n: nat, e: Event, handing: nat)
    returns (states: seq<State>, steps: seq<Step>)
    requires handing <= n && n >= 1
    ensures IsRun(max, states, steps) && states[0] == Initial(n, n)
    ensures states[|steps|] == Loaded(n, e, AtLeastOne(max) - 1 + n + handing, handing, n)
  {
    if handing == 0 {
      states, steps := TakeAll(max, n, e, n);
    } else {
      states, steps := HandAll(max, n, e, handing - 1);
      var w := AtLeastOne(max) - 1 + n + handing - 1;
      var next := Loaded(n, e, w + 1, handing, n);
      OneMore(max, n, e, w, handing - 1, n, true);
      ExtendRun(max, states, steps, Process(handing - 1, e), next);
      states, steps := states + [next], steps + [Process(handing - 1, e)];
    }
  }

  // With n digesters and n senders a report of max - 1 + n + n events does happen.
  lemma BoundIsReached(max: int, n: nat, e: Event) returns (states: seq<State>, steps: seq<Step>)
    requires n >= 1
    ensures IsRun(max, states, steps) && |states[0].digesters| == |states[0].senders| == n
    ensures exists b :: b in states[|steps|].batches && |b.events| == AtLeastOne(max) - 1 + n + n
  {
    states, steps := HandAll(max, n, e, n);
    var w := AtLeastOne(max) - 1 + n + n;
    var full := Loaded(n, e, w, n, n);
    assert full.senders[0] == Received(KeyOf(e)) && Waiting(full.waiting, KeyOf(e)) == Copies(e, w);
    var flushed := Next(max, full, Flush(0));
    ExtendRun(max, states, steps, Flush(0), flushed);
    states, steps := states + [flushed], steps + [Flush(0)];
    assert flushed.batches[0] in flushed.batches && |flushed.batches[0].events| == w;
  }
}
