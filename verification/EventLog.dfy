/** The append-only event log (`aiswarm/data/event_store.py`). */
module EventLog {
  import opened Common
  import opened Orders

  /**
   * Typed payloads of the four order life-cycle events. `Other` stands for the events
   * written by the rest of the system, which share the log.
   */
  datatype Event =
    | OrderTracked(order: Order, venue: string)
    | OrderSubmitted(orderId: string, exchangeOrderId: string, symbol: string)
    | OrderFill(orderId: string, filledExchangeId: Option<string>, symbol: string, side: Side,
                fillPrice: real, fillQuantity: real, mandateId: Option<string>)
    | OrderCancelled(orderId: string, cancelledExchangeId: Option<string>, reason: string)
    | Other(eventType: string)

  /** The order events of a log, in insertion order. */
  function OrderEvents(log: seq<Event>): seq<Event> {
    if log == [] then []
    else
      var last := log[|log| - 1];
      OrderEvents(log[..|log| - 1]) + (if last.Other? then [] else [last])
  }

  class EventStore {
    var events: seq<Event>

    constructor ()
      ensures events == []
    {
      events := [];
    }

    /** Appends one event; ids count up from one, and nothing already stored changes. */
    method Append(event: Event) returns (id: nat)
      modifies this
      ensures events == old(events) + [event]
      ensures id == |events| && events[id - 1] == event
    {
      events := events + [event];
      id := |events|;
    }

    /** The ascending query over the four order event types. */
    method QueryOrderEvents() returns (results: seq<Event>)
      ensures results == OrderEvents(events)
    {
      results := [];
      for i := 0 to |events|
        invariant results == OrderEvents(events[..i])
      {
        assert events[..i + 1][..i] == events[..i];
        if !events[i].Other? {
          results := results + [events[i]];
        }
      }
      assert events[..|events|] == events;
    }
  }
}
