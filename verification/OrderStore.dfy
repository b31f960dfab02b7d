/**
 * `OrderStore` and its mutable `OrderRecord` objects (`aiswarm/execution/order_store.py`), proved
 * against the value-level store of `Recovery`.
 */
module OrderStores {
  import opened Common
  import opened Orders
  import opened EventLog
  import opened Recovery

  class OrderRecord {
    var order: Order
    var exchangeOrderId: Option<string>
    var fillPrice: Option<real>
    var fillQuantity: Option<real>
    var venue: string

    constructor (order: Order, venue: string)
      ensures Value() == Record(order, None, None, None, venue)
    {
      this.order := order;
      this.venue := venue;
      exchangeOrderId, fillPrice, fillQuantity := None, None, None;
    }

    function Value(): Record
      reads this
    {
      Record(order, exchangeOrderId, fillPrice, fillQuantity, venue)
    }

    method MarkSubmitted(exchangeId: string)
      modifies this
      ensures Value() == WithStatus(old(Value()), Submitted).(exchangeOrderId := Some(exchangeId))
    {
      exchangeOrderId := Some(exchangeId);
      order := order.(status := Submitted);
    }

    method MarkFilled(price: real, quantity: real)
      modifies this
      ensures Value() == WithStatus(old(Value()), Filled).(fillPrice := Some(price), fillQuantity := Some(quantity))
    {
      fillPrice := Some(price);
      fillQuantity := Some(quantity);
      order := order.(status := Filled);
    }

    method MarkCancelled()
      modifies this
      ensures Value() == WithStatus(old(Value()), Cancelled)
    {
      order := order.(status := Cancelled);
    }
  }

  ghost function ExchangeIdsOf(st: Store, os: set<string>): set<string> {
    set o | o in os && o in st.orders && HasExchangeId(st.orders[o]) :: st.orders[o].exchangeOrderId.value
  }

  /** The store with some orders popped, and their exchange ids dropped from the index. */
  ghost function Without(st: Store, os: set<string>): Store {
    Store(st.orders - os, st.index - ExchangeIdsOf(st, os))
  }

  ghost function WithoutOne(st: Store, o: string): Store {
    Store(st.orders - {o}, st.index - IdsOf(st, o))
  }

  lemma WithoutOneMore(st: Store, os: set<string>, o: string)
    requires o in st.orders && o !in os
    ensures WithoutOne(Without(st, os), o) == Without(st, os + {o})
  {
    assert ExchangeIdsOf(st, os + {o}) == ExchangeIdsOf(st, os) + IdsOf(st, o);
    assert IdsOf(Without(st, os), o) == IdsOf(st, o);
    assert (st.orders - os) - {o} == st.orders - (os + {o});
  }

  lemma WithoutNone(st: Store)
    ensures Without(st, {}) == st
  {
  }

  lemma PruneIsWithout(st: Store, ids: set<string>)
    requires ids == set o | o in st.orders && Terminal(st.orders[o])
    ensures Prune(st) == Without(st, ids)
  {
  }

  class OrderStore {
    const eventStore: EventStore
    var orders: map<string, OrderRecord>
    var exchangeMap: map<string, string>

    /** Records are filed under their own order id; so no record object serves two orders. */
    ghost predicate Valid()
      reads this, orders.Values
    {
      forall o | o in orders :: orders[o].order.orderId == o
    }

    ghost function Contents(): Store
      reads this, orders.Values
    {
      Store(map o | o in orders :: orders[o].Value(), exchangeMap)
    }

    constructor (eventStore: EventStore)
      ensures Valid() && Contents() == EMPTY && this.eventStore == eventStore && orders == map[]
    {
      this.eventStore := eventStore;
      orders := map[];
      exchangeMap := map[];
    }

    // ------------------------------------------------------------------
    // In-memory changes, shared by the live writers and by replay
    // ------------------------------------------------------------------

    method AddRecord(order: Order, venue: string) returns (record: OrderRecord)
      requires Valid()
      modifies this
      ensures Valid() && fresh(record) && orders == old(orders)[order.orderId := record]
      ensures Contents() == LiveStore(old(Contents()), Op.Track(order, venue))
    {
      record := new OrderRecord(order, venue);
      orders := orders[order.orderId := record];
    }

    /** Replay leaves the empty exchange id out of the index; the live writer does not. */
    method SetSubmitted(orderId: string, exchangeOrderId: string, indexed: bool)
      requires Valid() && orderId in orders
      modifies this`exchangeMap, orders[orderId]
      ensures Valid()
      ensures var after := LiveStore(old(Contents()), Submit(orderId, exchangeOrderId));
              Contents() == if indexed then after else after.(index := old(exchangeMap))
    {
      orders[orderId].MarkSubmitted(exchangeOrderId);
      if indexed {
        exchangeMap := exchangeMap[exchangeOrderId := orderId];
      }
      assert Contents().orders == old(Contents()).orders[orderId := orders[orderId].Value()];
    }

    method SetFilled(orderId: string, fillPrice: real, fillQuantity: real)
      requires Valid() && orderId in orders
      modifies orders[orderId]
      ensures Valid() && Contents() == LiveStore(old(Contents()), Fill(orderId, fillPrice, fillQuantity))
    {
      orders[orderId].MarkFilled(fillPrice, fillQuantity);
      assert Contents().orders == old(Contents()).orders[orderId := orders[orderId].Value()];
    }

    method SetCancelled(orderId: string)
      requires Valid() && orderId in orders
      modifies orders[orderId]
      ensures Valid() && Contents() == LiveStore(old(Contents()), Cancel(orderId, ""))
    {
      orders[orderId].MarkCancelled();
      assert Contents().orders == old(Contents()).orders[orderId := orders[orderId].Value()];
    }

    // ------------------------------------------------------------------
    // Live writers
    // ------------------------------------------------------------------

    method Track(order: Order, venue: string) returns (record: OrderRecord)
      requires Valid()
      modifies this, eventStore
      ensures Valid() && fresh(record)
      ensures orders == old(orders)[order.orderId := record]
      ensures Contents() == LiveStore(old(Contents()), Op.Track(order, venue))
      ensures eventStore.events == old(eventStore.events) + LiveEvents(old(Contents()), Op.Track(order, venue))
    {
      record := AddRecord(order, venue);
      var _ := eventStore.Append(OrderTracked(order, venue));
    }

    method RecordSubmission(orderId: string, exchangeOrderId: string) returns (record: OrderRecord?)
      requires Valid()
      modifies this`exchangeMap, eventStore, orders.Values
      ensures Valid()
      ensures record == if orderId in orders then orders[orderId] else null
      ensures Contents() == LiveStore(old(Contents()), Submit(orderId, exchangeOrderId))
      ensures eventStore.events
           == old(eventStore.events) + LiveEvents(old(Contents()), Submit(orderId, exchangeOrderId))
    {
      if orderId !in orders {
        return null;
      }
      record := orders[orderId];
      SetSubmitted(orderId, exchangeOrderId, true);
      var _ := eventStore.Append(OrderSubmitted(orderId, exchangeOrderId, record.order.symbol));
    }

    method RecordFill(orderId: string, fillPrice: real, fillQuantity: real) returns (record: OrderRecord?)
      requires Valid()
      modifies eventStore, orders.Values
      ensures Valid() && unchanged(this)
      ensures record == if orderId in orders then orders[orderId] else null
      ensures Contents() == LiveStore(old(Contents()), Fill(orderId, fillPrice, fillQuantity))
      ensures eventStore.events
           == old(eventStore.events) + LiveEvents(old(Contents()), Fill(orderId, fillPrice, fillQuantity))
    {
      if orderId !in orders {
        return null;
      }
      record := orders[orderId];
      SetFilled(orderId, fillPrice, fillQuantity);
      var _ := eventStore.Append(
        OrderFill(orderId, record.exchangeOrderId, record.order.symbol, record.order.side,
                  fillPrice, fillQuantity, record.order.mandateId));
    }

    method RecordCancel(orderId: string, reason: string) returns (record: OrderRecord?)
      requires Valid()
      modifies eventStore, orders.Values
      ensures Valid()
      ensures record == if orderId in orders then orders[orderId] else null
      ensures Contents() == LiveStore(old(Contents()), Cancel(orderId, reason))
      ensures eventStore.events
           == old(eventStore.events) + LiveEvents(old(Contents()), Cancel(orderId, reason))
    {
      if orderId !in orders {
        return null;
      }
      record := orders[orderId];
      SetCancelled(orderId);
      var _ := eventStore.Append(OrderCancelled(orderId, record.exchangeOrderId, reason));
    }

    // ------------------------------------------------------------------
    // Crash recovery
    // ------------------------------------------------------------------

    method ApplyLogged(event: Event)
      requires Valid()
      modifies this, orders.Values
      ensures Valid() && fresh(orders.Values - old(orders.Values))
      ensures Contents() == ApplyEvent(old(Contents()), event)
    {
      var orderId := EventOrderId(event);
      if orderId == "" {
        return;
      }
      match event
      case OrderTracked(order, venue) =>
        var _ := AddRecord(order, venue);
      case OrderSubmitted(_, exchangeOrderId, _) =>
        if orderId in orders {
          SetSubmitted(orderId, exchangeOrderId, exchangeOrderId != "");
        }
      case OrderFill(_, _, _, _, fillPrice, fillQuantity, _) =>
        if orderId in orders {
          SetFilled(orderId, fillPrice, fillQuantity);
        }
      case OrderCancelled(_, _, _) =>
        if orderId in orders {
          SetCancelled(orderId);
        }
      case Other(_) =>
    }

    /** Pops one order and drops its exchange id from the index. */
    method Discard(orderId: string)
      requires Valid() && orderId in orders
      modifies this`orders, this`exchangeMap
      ensures Valid() && orders == old(orders) - {orderId}
      ensures Contents() == WithoutOne(old(Contents()), orderId)
    {
      var record := orders[orderId];
      orders := orders - {orderId};
      if HasExchangeId(record.Value()) && record.exchangeOrderId.value in exchangeMap {
        exchangeMap := exchangeMap - {record.exchangeOrderId.value};
      }
      assert Contents().orders == old(Contents()).orders - {orderId};
    }

    method PruneTerminal()
      requires Valid()
      modifies this`orders, this`exchangeMap
      ensures Valid() && orders.Values <= old(orders.Values)
      ensures Contents() == Prune(old(Contents()))
    {
      hide Prune, LiveStore, Without, WithoutOne;
      ghost var full := Contents();
      var terminalIds := set o | o in orders && Terminal(orders[o].Value());
      var rest := terminalIds;
      WithoutNone(full);
      assert terminalIds - rest == {};
      while rest != {}
        invariant Valid() && rest <= terminalIds && rest <= orders.Keys
        invariant forall o | o in orders :: o in old(orders) && orders[o] == old(orders)[o]
        invariant Contents() == Without(full, terminalIds - rest)
        decreases rest
      {
        var o :| o in rest;
        assert o in full.orders;
        WithoutOneMore(full, terminalIds - rest, o);
        assert terminalIds - (rest - {o}) == (terminalIds - rest) + {o};
        Discard(o);
        rest := rest - {o};
      }
      assert terminalIds - rest == terminalIds;
      PruneIsWithout(full, terminalIds);
    }

    /** `restore_from_events`; the result counts the orders left to track. */
    method RestoreFromEvents() returns (restored: nat)
      requires Valid()
      modifies this, orders.Values
      ensures Valid() && fresh(orders.Values - old(orders.Values))
      ensures Contents() == Restore(old(Contents()), eventStore.events)
      ensures restored == if OrderEvents(eventStore.events) == [] then 0 else |Contents().orders|
    {
      var events := eventStore.QueryOrderEvents();
      if events == [] {
        return 0;
      }
      ghost var initial := Contents();
      for i := 0 to |events|
        invariant Valid() && fresh(orders.Values - old(orders.Values))
        invariant Contents() == Replay(initial, events[..i])
      {
        assert events[..i + 1][..i] == events[..i];
        ApplyLogged(events[i]);
      }
      assert events[..|events|] == events;
      PruneTerminal();
      assert Contents().orders.Keys == orders.Keys;
      restored := |orders|;
    }

    // ------------------------------------------------------------------
    // Queries
    // ------------------------------------------------------------------

    method LookupExchangeId(exchangeOrderId: string) returns (record: OrderRecord?)
      requires Valid()
      ensures record == null <==> GetByExchangeId(Contents(), exchangeOrderId).None?
      ensures record != null ==>
                exchangeOrderId in exchangeMap && exchangeMap[exchangeOrderId] in orders
                && record == orders[exchangeMap[exchangeOrderId]]
                && GetByExchangeId(Contents(), exchangeOrderId) == Some(record.Value())
    {
      if exchangeOrderId !in exchangeMap || exchangeMap[exchangeOrderId] !in orders {
        return null;
      }
      record := orders[exchangeMap[exchangeOrderId]];
    }

    /** The ids of all submitted orders. The source returns them in insertion order. */
    method OpenOrderIds() returns (ids: set<string>)
      requires Valid()
      ensures forall o :: o in ids <==> o in Contents().orders && Contents().orders[o].order.status.Submitted?
    {
      ids := set o | o in orders && orders[o].order.status.Submitted?;
    }
  }
}
