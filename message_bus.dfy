/**
 * The topic store that the agents hand values through: per topic, the value most
 * recently published under it. There is no queueing and no history.
 */
module Messaging {
  import opened Options

  class MessageBus<V> {
    /** The published values, by topic. */
    var state: map<string, V>

    /** What `consume` returns for `topic` in the current state. */
    function Lookup(topic: string): (r: Option<V>)
      reads this
      ensures r.Some? <==> topic in state
      ensures r.Some? ==> r.value == state[topic]
    {
      if topic in state then Some(state[topic]) else None
    }

    /** A new bus holds nothing, so every topic reads as absent. */
    constructor ()
      ensures state == map[]
      ensures forall topic :: Lookup(topic) == None
    {
      state := map[];
    }

    /** Store `data` under `topic`, replacing any earlier value; every other topic keeps its entry. */
    method Publish(topic: string, data: V)
      modifies this
      ensures state == old(state)[topic := data]
      ensures Lookup(topic) == Some(data)
      ensures forall other :: other != topic ==> Lookup(other) == old(Lookup(other))
    {
      state := state[topic := data];
    }

    /** The last value published under `topic`, or None if it was never published; the bus is not changed. */
    method Consume(topic: string) returns (r: Option<V>)
      ensures r == Lookup(topic)
      ensures r.Some? <==> topic in state
      ensures r.Some? ==> r.value == state[topic]
    {
      if topic in state {
        r := Some(state[topic]);
      } else {
        r := None;
      }
    }
  }

  /** On a new bus, consuming any topic yields the absent marker. */
  method ConsumeFromNewBus<V>(topic: string) returns (r: Option<V>)
    ensures r == None
  {
    var bus := new MessageBus<V>();
    r := bus.Consume(topic);
  }

  /** Publishing and then consuming the same topic returns the published value. */
  method PublishThenConsume<V>(bus: MessageBus<V>, topic: string, data: V) returns (r: Option<V>)
    modifies bus
    ensures r == Some(data)
    ensures bus.state == old(bus.state)[topic := data]
  {
    bus.Publish(topic, data);
    r := bus.Consume(topic);
  }

  /** Two publishes to one topic: the second value wins and the first leaves no trace. */
  method LastWriteWins<V>(bus: MessageBus<V>, topic: string, first: V, second: V) returns (r: Option<V>)
    modifies bus
    ensures r == Some(second)
    ensures bus.state == old(bus.state)[topic := second]
  {
    bus.Publish(topic, first);
    bus.Publish(topic, second);
    r := bus.Consume(topic);
  }

  /** Publishing the same value twice leaves the state that publishing it once leaves. */
  method PublishTwice<V>(bus: MessageBus<V>, topic: string, data: V)
    modifies bus
    ensures bus.state == old(bus.state)[topic := data]
  {
    bus.Publish(topic, data);
    ghost var once := bus.state;
    bus.Publish(topic, data);
    assert bus.state == once;
  }
}
