/** Listener registration and ordered broadcast over unbuffered channels. */
module Mailbox {
  import opened Wrappers
  import opened DeltaFifo

  datatype ChannelName = ObjectChannel | MeterDefinitionChannel

  // A channel, seen as the sequence of everything its receiver took from it.
  class Channel<V> {
    var received: seq<Delta<V>>

    constructor ()
      ensures received == []
    {
      received := [];
    }

    method Send(d: Delta<V>)
      modifies this
      ensures received == old(received) + [d]
    {
      received := received + [d];
    }
  }

  class Mailbox<V> {
    var listeners: map<ChannelName, seq<Channel<V>>>

    ghost predicate Valid()
      reads this
    {
      forall n | n in listeners :: listeners[n] != [] && NoDup(listeners[n])
    }

    ghost function Channels(): set<object>
      reads this
    {
      set n, c | n in listeners && c in listeners[n] :: c as object
    }

    constructor ()
      ensures Valid() && listeners == map[]
    {
      listeners := map[];
    }

    // A processor registers the channel it has just made.
    method RegisterListener(name: ChannelName, ch: Channel<V>)
      requires Valid() && ch as object !in Channels()
      modifies this
      ensures Valid()
      ensures listeners == old(listeners)[name := (if name in old(listeners) then old(listeners)[name] else []) + [ch]]
    {
      var ls := if name in listeners then listeners[name] else [];
      assert ch !in ls by {
        assert forall c | c in ls :: c as object in Channels();
      }
      assert NoDup(ls) && NoDup(ls + [ch]);
      listeners := listeners[name := ls + [ch]];
    }

    method Broadcast(name: ChannelName, d: Delta<V>) returns (ok: bool)
      requires Valid()
      modifies Channels()
      ensures ok <==> name in listeners
      ensures ok ==> forall c | c in listeners[name] :: c.received == old(c.received) + [d]
      ensures forall n, c | n in listeners && c in listeners[n] ::
        (!ok || c !in listeners[name]) ==> c.received == old(c.received)
    {
      if name !in listeners {
        return false;
      }
      var ls := listeners[name];
      for i := 0 to |ls|
        invariant forall j | 0 <= j < |ls| ::
          ls[j].received == if j < i then old(ls[j].received) + [d] else old(ls[j].received)
        invariant forall n, c | n in listeners && c in listeners[n] && c !in ls :: c.received == old(c.received)
      {
        assert ls[i] in listeners[name] && ls[i] as object in Channels();
        ls[i].Send(d);
      }
      return true;
    }

    // The producer's handler of one pop: every registered listener gets the same changes in
    // the same order; without a listener the popped changes reach nobody.
    method HandlePop(name: ChannelName, deltas: seq<Delta<V>>) returns (ok: bool)
      requires Valid()
      modifies Channels()
      ensures ok <==> name in listeners || deltas == []
      ensures ok && name in listeners ==> forall c | c in listeners[name] :: c.received == old(c.received) + deltas
      ensures forall n, c | n in listeners && c in listeners[n] ::
        (name !in listeners || c !in listeners[name]) ==> c.received == old(c.received)
    {
      for i := 0 to |deltas|
        invariant i > 0 ==> name in listeners
        invariant name in listeners ==> forall c | c in listeners[name] :: c.received == old(c.received) + deltas[..i]
        invariant forall n, c | n in listeners && c in listeners[n] ::
          (name !in listeners || c !in listeners[name]) ==> c.received == old(c.received)
      {
        var sent := Broadcast(name, deltas[i]);
        if !sent {
          return false;
        }
        assert deltas[..i + 1] == deltas[..i] + [deltas[i]];
      }
      assert deltas[..|deltas|] == deltas;
      return true;
    }
  }
}
