/**
 * What `OrderStore` does, on values: the live writers, the replay of the log, and the pruning of
 * terminal orders (`aiswarm/execution/order_store.py`). The theorems say that crash recovery
 * loses nothing, over any number of restarts.
 */
module Recovery {
  import opened Common
  import opened Orders
  import opened EventLog

  // ------------------------------------------------------------------
  // State, writers and replay
  // ------------------------------------------------------------------

  datatype Record = Record(
    order: Order,
    exchangeOrderId: Option<string>,
    fillPrice: Option<real>,
    fillQuantity: Option<real>,
    venue: string
  )

  datatype Store = Store(orders: map<string, Record>, index: map<string, string>)

  const EMPTY := Store(map[], map[])

  predicate Terminal(r: Record) {
    r.order.status.Filled? || r.order.status.Cancelled?
  }

  /** Python truthiness of `rec.exchange_order_id`: present and not the empty string. */
  predicate HasExchangeId(r: Record) {
    r.exchangeOrderId.Some? && r.exchangeOrderId.value != ""
  }

  function WithStatus(r: Record, status: OrderStatus): Record {
    r.(order := r.order.(status := status))
  }

  datatype Op =
    | Track(order: Order, venue: string)
    | Submit(orderId: string, exchangeOrderId: string)
    | Fill(orderId: string, fillPrice: real, fillQuantity: real)
    | Cancel(orderId: string, reason: string)

  function OpOrderId(op: Op): string {
    if op.Track? then op.order.orderId else op.orderId
  }

  /** A live call: the new in-memory state. Calls about unknown orders do nothing. */
  function LiveStore(st: Store, op: Op): Store {
    match op
    case Track(order, venue) =>
      st.(orders := st.orders[order.orderId := Record(order, None, None, None, venue)])
    case Submit(o, x) =>
      if o !in st.orders then st
      else
        var r := WithStatus(st.orders[o], Submitted).(exchangeOrderId := Some(x));
        Store(st.orders[o := r], st.index[x := o])
    case Fill(o, price, quantity) =>
      if o !in st.orders then st
      else
        var r := WithStatus(st.orders[o], Filled).(fillPrice := Some(price), fillQuantity := Some(quantity));
        st.(orders := st.orders[o := r])
    case Cancel(o, _) =>
      if o !in st.orders then st
      else st.(orders := st.orders[o := WithStatus(st.orders[o], Cancelled)])
  }

  /** A live call: the events it appends to the log (none, or exactly one). */
  function LiveEvents(st: Store, op: Op): seq<Event> {
    match op
    case Track(order, venue) => [OrderTracked(order, venue)]
    case Submit(o, x) =>
      if o !in st.orders then [] else [OrderSubmitted(o, x, st.orders[o].order.symbol)]
    case Fill(o, price, quantity) =>
      if o !in st.orders then []
      else
        var r := st.orders[o];
        [OrderFill(o, r.exchangeOrderId, r.order.symbol, r.order.side, price, quantity, r.order.mandateId)]
    case Cancel(o, reason) =>
      if o !in st.orders then [] else [OrderCancelled(o, st.orders[o].exchangeOrderId, reason)]
  }

  function EventOrderId(e: Event): string {
    match e
    case OrderTracked(order, _) => order.orderId
    case OrderSubmitted(o, _, _) => o
    case OrderFill(o, _, _, _, _, _, _) => o
    case OrderCancelled(o, _, _) => o
    case Other(_) => ""
  }

  /** Replay of one event. An empty order id is ignored; so is an empty exchange id by the index. */
  function ApplyEvent(st: Store, e: Event): Store {
    if EventOrderId(e) == "" then st
    else match e
      case OrderTracked(order, venue) =>
        st.(orders := st.orders[order.orderId := Record(order, None, None, None, venue)])
      case OrderSubmitted(o, x, _) =>
        if o !in st.orders then st
        else
          var r := WithStatus(st.orders[o], Submitted).(exchangeOrderId := Some(x));
          Store(st.orders[o := r], if x != "" then st.index[x := o] else st.index)
      case OrderFill(o, _, _, _, price, quantity, _) =>
        if o !in st.orders then st
        else
          var r := WithStatus(st.orders[o], Filled).(fillPrice := Some(price), fillQuantity := Some(quantity));
          st.(orders := st.orders[o := r])
      case OrderCancelled(o, _, _) =>
        if o !in st.orders then st
        else st.(orders := st.orders[o := WithStatus(st.orders[o], Cancelled)])
      case Other(_) => st
  }

  function Replay(st: Store, events: seq<Event>): Store {
    if events == [] then st
    else ApplyEvent(Replay(st, events[..|events| - 1]), events[|events| - 1])
  }

  /** The exchange ids that pruning deletes from the index. */
  function PrunedIds(st: Store): set<string> {
    set o | o in st.orders && Terminal(st.orders[o]) && HasExchangeId(st.orders[o])
      :: st.orders[o].exchangeOrderId.value
  }

  function Prune(st: Store): Store {
    Store(map o | o in st.orders && !Terminal(st.orders[o]) :: st.orders[o],
          st.index - PrunedIds(st))
  }

  /** `restore_from_events`: without order events the store is left alone. */
  function Restore(st: Store, log: seq<Event>): Store {
    if OrderEvents(log) == [] then st else Prune(Replay(st, OrderEvents(log)))
  }

  // ------------------------------------------------------------------
  // Runs over many sessions
  // ------------------------------------------------------------------

  /** `Restart` is a new process that restores; `RestoreInPlace` restores into the running store. */
  datatype Action = Do(op: Op) | Foreign(eventType: string) | Restart | RestoreInPlace

  datatype World = World(store: Store, log: seq<Event>)

  function Act(w: World, a: Action): World {
    match a
    case Do(op) => World(LiveStore(w.store, op), w.log + LiveEvents(w.store, op))
    case Foreign(t) => w.(log := w.log + [Other(t)])
    case Restart => w.(store := Restore(EMPTY, w.log))
    case RestoreInPlace => w.(store := Restore(w.store, w.log))
  }

  function Run(actions: seq<Action>): World {
    if actions == [] then World(EMPTY, [])
    else Act(Run(actions[..|actions| - 1]), actions[|actions| - 1])
  }

  /** Everything the log has ever said, never pruned. */
  function Full(log: seq<Event>): Store {
    Replay(EMPTY, OrderEvents(log))
  }

  /** Exchange ids of orders that an earlier restart pruned. */
  function RetiredIds(live: Store, full: Store): set<string> {
    set o | o in full.orders && o !in live.orders && HasExchangeId(full.orders[o])
      :: full.orders[o].exchangeOrderId.value
  }

  /**
   * What callers owe the store: order ids are non-empty and never those of a pruned order
   * (`new_id` makes them fresh), and a submission carries a non-empty exchange id that no pruned
   * order had (`LiveOrderExecutor` refuses the empty one).
   */
  ghost predicate Admissible(w: World, a: Action) {
    a.Do? ==>
      var full := Full(w.log);
      match a.op
      case Track(order, _) =>
        order.orderId != "" && (order.orderId in full.orders ==> order.orderId in w.store.orders)
      case Submit(o, x) => o in w.store.orders ==> x != "" && x !in RetiredIds(w.store, full)
      case _ => true
  }

  ghost predicate AdmissibleRun(actions: seq<Action>) {
    actions == [] ||
    (AdmissibleRun(actions[..|actions| - 1]) &&
     Admissible(Run(actions[..|actions| - 1]), actions[|actions| - 1]))
  }

  /**
   * The plain form of those debts is enough: a new order id for every order, and exchange ids that
   * are never empty and never shared by two orders.
   */
  lemma FreshIdsAdmissible(w: World, op: Op)
    requires op.Track? ==> op.order.orderId != "" && op.order.orderId !in Full(w.log).orders
    requires op.Submit? ==>
               op.exchangeOrderId != ""
               && forall o | o in Full(w.log).orders && o != op.orderId ::
                    Full(w.log).orders[o].exchangeOrderId != Some(op.exchangeOrderId)
    ensures Admissible(w, Do(op))
  {
  }

  // ------------------------------------------------------------------
  // The live store simulates the full, unpruned history
  // ------------------------------------------------------------------

  ghost predicate Simulates(live: Store, full: Store) {
    && live.orders.Keys <= full.orders.Keys
    && (forall o | o in live.orders :: live.orders[o] == full.orders[o])
    && (forall o | o in full.orders && o !in live.orders :: Terminal(full.orders[o]))
    && live.index == full.index - RetiredIds(live, full)
  }

  /** Every event but `OrderTracked` is about an order tracked earlier in the log. */
  ghost predicate WellOrdered(events: seq<Event>) {
    events == [] ||
    var n := |events| - 1;
    && WellOrdered(events[..n])
    && EventOrderId(events[n]) != ""
    && (events[n].OrderTracked? || EventOrderId(events[n]) in Replay(EMPTY, events[..n]).orders)
  }

  ghost predicate Invariant(w: World) {
    Simulates(w.store, Full(w.log)) && WellOrdered(OrderEvents(w.log)) && "" !in Full(w.log).orders
    && "" !in Full(w.log).index
  }

  lemma OrderEventsAppend(log: seq<Event>, e: Event)
    ensures OrderEvents(log + [e]) == if e.Other? then OrderEvents(log) else OrderEvents(log) + [e]
  {
  }

  lemma ReplayAppend(st: Store, events: seq<Event>, e: Event)
    ensures Replay(st, events + [e]) == ApplyEvent(Replay(st, events), e)
  {
  }

  /** Pruning forgets exactly what an earlier pruning already forgot. */
  lemma PruneAbsorbs(live: Store, full: Store)
    requires Simulates(live, full)
    ensures Prune(live) == Prune(full)
  {
  }

  lemma PruneSimulates(full: Store)
    ensures Simulates(Prune(full), full)
  {
  }

  lemma ApplyOver(st: Store, r: Store, e: Event)
    requires EventOrderId(e) != "" && (e.OrderTracked? || EventOrderId(e) in r.orders)
    ensures var over := Store(st.orders + r.orders, st.index + r.index);
            var r' := ApplyEvent(r, e);
            ApplyEvent(over, e) == Store(st.orders + r'.orders, st.index + r'.index)
  {
    var over := Store(st.orders + r.orders, st.index + r.index);
    var left, right := ApplyEvent(over, e), ApplyEvent(r, e);
    assert left.orders == st.orders + right.orders;
    assert left.index == st.index + right.index;
  }

  /** Replaying a well-ordered log over leftover memory overwrites it, entry by entry. */
  lemma {:induction false} ReplayOver(st: Store, events: seq<Event>)
    requires WellOrdered(events)
    ensures var r := Replay(EMPTY, events);
            Replay(st, events) == Store(st.orders + r.orders, st.index + r.index)
  {
    if events == [] {
      assert st.orders + map[] == st.orders && st.index + map[] == st.index;
    } else {
      var n := |events| - 1;
      ReplayOver(st, events[..n]);
      ApplyOver(st, Replay(EMPTY, events[..n]), events[n]);
    }
  }

  /** Restoring gives the same store whatever memory it starts from. */
  lemma RestoreForgetsMemory(w: World)
    requires Invariant(w)
    ensures Restore(w.store, w.log) == Prune(Full(w.log)) == Restore(EMPTY, w.log)
  {
    var events, full := OrderEvents(w.log), Full(w.log);
    if events == [] {
      assert w.store.orders == map[] && w.store.index == map[];
      assert Prune(EMPTY) == EMPTY;
    } else {
      ReplayOver(w.store, events);
      assert w.store.orders + full.orders == full.orders;
      assert w.store.index + full.index == full.index;
    }
  }

  /** On an order the live store still knows, both stores log and change alike. */
  lemma SameStep(live: Store, full: Store, op: Op)
    requires Simulates(live, full) && "" !in full.orders
    requires OpOrderId(op) in full.orders ==> OpOrderId(op) in live.orders
    requires op.Track? ==> op.order.orderId != ""
    requires op.Submit? && op.orderId in live.orders ==> op.exchangeOrderId != ""
    ensures LiveEvents(live, op) == LiveEvents(full, op)
    ensures LiveEvents(live, op) == [] ==> LiveStore(full, op) == full
    ensures LiveEvents(live, op) != [] ==> LiveStore(full, op) == ApplyEvent(full, LiveEvents(live, op)[0])
  {
  }

  lemma StepSimulates(live: Store, full: Store, op: Op)
    requires Simulates(live, full)
    requires OpOrderId(op) in full.orders ==> OpOrderId(op) in live.orders
    requires op.Submit? && op.orderId in live.orders ==> op.exchangeOrderId !in RetiredIds(live, full)
    ensures Simulates(LiveStore(live, op), LiveStore(full, op))
  {
    var o, live', full' := OpOrderId(op), LiveStore(live, op), LiveStore(full, op);
    if op.Track? || o in live.orders {
      if o in live.orders { assert live.orders[o] == full.orders[o]; }
      RetiredUnchanged(live, full, live', full', o);
    }
  }

  /** One live call keeps the simulation; the event it logs replays to the same change. */
  lemma LiveStep(w: World, op: Op)
    requires Invariant(w) && Admissible(w, Do(op))
    ensures Invariant(Act(w, Do(op)))
  {
    var full, emitted := Full(w.log), LiveEvents(w.store, op);
    if emitted == [] {
      assert w.log + emitted == w.log;
    } else {
      SameStep(w.store, full, op);
      StepSimulates(w.store, full, op);
      LoggedEvent(w.log, emitted[0]);
    }
  }

  /** Logging one more order event extends the full history by that event. */
  lemma LoggedEvent(log: seq<Event>, e: Event)
    requires !e.Other? && WellOrdered(OrderEvents(log))
    requires EventOrderId(e) != "" && (e.OrderTracked? || EventOrderId(e) in Full(log).orders)
    ensures Full(log + [e]) == ApplyEvent(Full(log), e) && WellOrdered(OrderEvents(log + [e]))
  {
  }

  /** A change to one live order retires nothing. */
  lemma RetiredUnchanged(live: Store, full: Store, live': Store, full': Store, o: string)
    requires live'.orders.Keys == live.orders.Keys + {o} && full'.orders.Keys == full.orders.Keys + {o}
    requires forall p | p in full.orders && p != o :: full'.orders[p] == full.orders[p]
    requires o in full.orders ==> o in live.orders
    ensures RetiredIds(live', full') == RetiredIds(live, full)
  {
  }

  lemma ActInvariant(w: World, a: Action)
    requires Invariant(w) && Admissible(w, a)
    ensures Invariant(Act(w, a))
  {
    match a
    case Do(op) => LiveStep(w, op);
    case Foreign(t) => OrderEventsAppend(w.log, Other(t));
    case Restart => RestoreForgetsMemory(w); PruneSimulates(Full(w.log));
    case RestoreInPlace => RestoreForgetsMemory(w); PruneSimulates(Full(w.log));
  }

  lemma {:induction false} RunInvariant(actions: seq<Action>)
    requires AdmissibleRun(actions)
    ensures Invariant(Run(actions))
  {
    if actions == [] {
    } else {
      var n := |actions| - 1;
      RunInvariant(actions[..n]);
      ActInvariant(Run(actions[..n]), actions[n]);
    }
  }

  // ------------------------------------------------------------------
  // Main results
  // ------------------------------------------------------------------

  /**
   * Crash recovery: stop any admissible run anywhere, however many restarts it already had.
   * Restoring from the whole log gives the live orders and index with terminal orders pruned,
   * both in a new process and in the running one.
   */
  lemma CrashRecovery(actions: seq<Action>)
    requires AdmissibleRun(actions)
    ensures var w := Run(actions);
            Restore(EMPTY, w.log) == Prune(w.store) && Restore(w.store, w.log) == Prune(w.store)
  {
    RunInvariant(actions);
    var w := Run(actions);
    RestoreForgetsMemory(w);
    PruneAbsorbs(w.store, Full(w.log));
  }

  /** Another order, already terminal but still in memory, has this exchange id. */
  ghost predicate HeldByTerminal(st: Store, o: string, x: string) {
    x != "" && exists p :: p in st.orders && p != o && Terminal(st.orders[p]) && st.orders[p].exchangeOrderId == Some(x)
  }

  lemma HeldIsPruned(st: Store, o: string, x: string)
    requires o in st.orders
    ensures HeldByTerminal(st, o, x) <==> x in PrunedIds(LiveStore(st, Submit(o, x)))
    ensures HeldByTerminal(st, o, x) ==> x != ""
  {
    var st' := LiveStore(st, Submit(o, x));
    forall p | p in st.orders && p != o
      ensures st'.orders[p] == st.orders[p]
    {
    }
    if HeldByTerminal(st, o, x) {
      var p :| p in st.orders && p != o && Terminal(st.orders[p]) && st.orders[p].exchangeOrderId == Some(x);
      assert p in st'.orders && Terminal(st'.orders[p]) && HasExchangeId(st'.orders[p]);
    }
  }

  /** An empty or retired exchange id stays in the live index, but replay and pruning drop it. */
  lemma SubmissionLost(w: World, o: string, x: string, full': Store)
    requires Invariant(w) && o in w.store.orders
    requires x !in PrunedIds(LiveStore(w.store, Submit(o, x)))
    requires x == "" || x in RetiredIds(w.store, Full(w.log))
    requires full' == ApplyEvent(Full(w.log), LiveEvents(w.store, Submit(o, x))[0])
    ensures x in Prune(LiveStore(w.store, Submit(o, x))).index && x !in Prune(full').index
  {
    if x != "" {
      var full := Full(w.log);
      var p :| p in full.orders && p !in w.store.orders && HasExchangeId(full.orders[p])
               && full.orders[p].exchangeOrderId.value == x;
      assert full'.orders[p] == full.orders[p];
      assert x in PrunedIds(full');
    }
  }

  /** But for the index entry of `x`, a submission keeps the simulation whatever the id is. */
  lemma SubmissionSimulates(live: Store, full: Store, o: string, x: string, bridge: Store, full': Store)
    requires Simulates(live, full) && o in live.orders && full' == LiveStore(full, Submit(o, x))
    requires bridge.orders == LiveStore(live, Submit(o, x)).orders
    requires bridge.index == full'.index - RetiredIds(live, full)
    ensures Simulates(bridge, full')
  {
    RetiredUnchanged(live, full, bridge, full', o);
  }

  /** A retired id that a terminal order in memory still has is dropped on both sides. */
  lemma SubmissionDropped(live: Store, full: Store, o: string, x: string)
    requires Simulates(live, full) && o in live.orders
    requires x in PrunedIds(LiveStore(live, Submit(o, x)))
    ensures Prune(LiveStore(live, Submit(o, x))) == Prune(LiveStore(full, Submit(o, x)))
  {
    hide PrunedIds, RetiredIds, Terminal, WithStatus;
    var live', full' := LiveStore(live, Submit(o, x)), LiveStore(full, Submit(o, x));
    var bridge := Store(live'.orders, full'.index - RetiredIds(live, full));
    SubmissionSimulates(live, full, o, x, bridge, full');
    PruneAbsorbs(bridge, full');
    SamePrunedIds(bridge, live');
    assert Prune(bridge).index == Prune(live').index;
  }

  lemma SamePrunedIds(a: Store, b: Store)
    requires a.orders == b.orders
    ensures PrunedIds(a) == PrunedIds(b) && Prune(a).orders == Prune(b).orders
  {
  }

  /**
   * The submission hypothesis, made exact. From a recoverable world a submission of a live order
   * stays recoverable precisely when its exchange id is non-empty and either was not retired by an
   * earlier restart or is lost anyway, because a terminal order still in memory has it too.
   */
  lemma SubmissionRecoverableIff(w: World, o: string, x: string)
    requires Invariant(w) && o in w.store.orders
    ensures var w' := Act(w, Do(Submit(o, x)));
            Restore(EMPTY, w'.log) == Prune(w'.store)
            <==> x != "" && (x !in RetiredIds(w.store, Full(w.log)) || HeldByTerminal(w.store, o, x))
  {
    hide Prune, PrunedIds, RetiredIds, Simulates, HeldByTerminal;
    var w' := Act(w, Do(Submit(o, x)));
    HeldIsPruned(w.store, o, x);
    if x != "" && x !in RetiredIds(w.store, Full(w.log)) {
      ActInvariant(w, Do(Submit(o, x)));
      RestoreForgetsMemory(w');
      PruneAbsorbs(w'.store, Full(w'.log));
    } else {
      var e := LiveEvents(w.store, Submit(o, x))[0];
      OrderEventsAppend(w.log, e);
      ReplayAppend(EMPTY, OrderEvents(w.log), e);
      if x in PrunedIds(w'.store) {
        SameStep(w.store, Full(w.log), Submit(o, x));
        SubmissionDropped(w.store, Full(w.log), o, x);
      } else {
        SubmissionLost(w, o, x, ApplyEvent(Full(w.log), e));
      }
    }
  }

  /** Tracking again an order that a restart pruned, when that order had an exchange id. */
  ghost predicate RevivesId(live: Store, full: Store, o: string) {
    o in full.orders && o !in live.orders && HasExchangeId(full.orders[o])
  }

  /** Replay indexes every exchange id that an order has. */
  lemma {:induction false} ReplayIndexes(events: seq<Event>, o: string)
    ensures var st := Replay(EMPTY, events);
            o in st.orders && HasExchangeId(st.orders[o]) ==> st.orders[o].exchangeOrderId.value in st.index
  {
    if events != [] {
      ReplayIndexes(events[..|events| - 1], o);
    }
  }

  function IdsOf(full: Store, o: string): set<string> {
    if o in full.orders && HasExchangeId(full.orders[o]) then {full.orders[o].exchangeOrderId.value} else {}
  }

  /** Once tracked again, the order's old exchange id is no longer among the retired ones of its own. */
  lemma RetiredOnRevival(live: Store, full: Store, live': Store, full': Store, o: string, r: Record)
    requires o in full.orders && o !in live.orders && !HasExchangeId(r)
    requires live' == live.(orders := live.orders[o := r]) && full' == full.(orders := full.orders[o := r])
    ensures RetiredIds(live, full) == RetiredIds(live', full') + IdsOf(full, o)
  {
    forall x | x in RetiredIds(live, full)
      ensures x in RetiredIds(live', full') + IdsOf(full, o)
    {
      var p :| p in full.orders && p !in live.orders && HasExchangeId(full.orders[p])
               && full.orders[p].exchangeOrderId.value == x;
      if p != o { assert p in full'.orders && p !in live'.orders; }
    }
    forall x | x in RetiredIds(live', full')
      ensures x in RetiredIds(live, full)
    {
      var p :| p in full'.orders && p !in live'.orders && HasExchangeId(full'.orders[p])
               && full'.orders[p].exchangeOrderId.value == x;
      assert p in full.orders && p !in live.orders;
    }
  }

  lemma RevivalPrunes(live: Store, full: Store, o: string, r: Record, x: string)
    requires Simulates(live, full) && RevivesId(live, full, o) && !HasExchangeId(r)
    requires full.orders[o].exchangeOrderId == Some(x) && x in full.index
    ensures var live', full' := live.(orders := live.orders[o := r]), full.(orders := full.orders[o := r]);
            Prune(live') == Prune(full') <==> x in PrunedIds(full')
  {
    var live', full' := live.(orders := live.orders[o := r]), full.(orders := full.orders[o := r]);
    RetiredOnRevival(live, full, live', full', o, r);
    var bridge := live'.(index := full.index - RetiredIds(live', full'));
    assert RetiredIds(bridge, full') == RetiredIds(live', full');
    PruneAbsorbs(bridge, full');
    SamePrunedIds(bridge, live');
    RevivalIndex(full.index, RetiredIds(live', full'), PrunedIds(live'), x);
    AllPruned(bridge, full');
  }

  lemma RevivalIndex(index: map<string, string>, retired: set<string>, pruned: set<string>, x: string)
    requires x in index
    ensures (index - (retired + {x})) - pruned == (index - retired) - pruned <==> x in retired + pruned
  {
    if x in retired + pruned {
      assert (index - (retired + {x})) - pruned == (index - retired) - pruned;
    } else {
      assert x in (index - retired) - pruned && x !in (index - (retired + {x})) - pruned;
    }
  }

  /** The ids that pruning drops from the full history: those it drops live, and the retired ones. */
  lemma AllPruned(live: Store, full: Store)
    requires Simulates(live, full)
    ensures PrunedIds(full) == PrunedIds(live) + RetiredIds(live, full)
  {
    forall x | x in PrunedIds(full)
      ensures x in PrunedIds(live) + RetiredIds(live, full)
    {
      var o :| o in full.orders && Terminal(full.orders[o]) && HasExchangeId(full.orders[o])
               && full.orders[o].exchangeOrderId.value == x;
      if o in live.orders { assert live.orders[o] == full.orders[o]; }
    }
    forall x | x in PrunedIds(live) + RetiredIds(live, full)
      ensures x in PrunedIds(full)
    {
      if x in PrunedIds(live) {
        var o :| o in live.orders && Terminal(live.orders[o]) && HasExchangeId(live.orders[o])
                 && live.orders[o].exchangeOrderId.value == x;
        assert full.orders[o] == live.orders[o];
      } else {
        var o :| o in full.orders && o !in live.orders && HasExchangeId(full.orders[o])
                 && full.orders[o].exchangeOrderId.value == x;
      }
    }
  }

  lemma HeldIsPrunedElsewhere(full: Store, o: string, r: Record, x: string)
    requires x != "" && !HasExchangeId(r)
    ensures HeldByTerminal(full, o, x) <==> x in PrunedIds(full.(orders := full.orders[o := r]))
  {
    var full' := full.(orders := full.orders[o := r]);
    if HeldByTerminal(full, o, x) {
      var p :| p in full.orders && p != o && Terminal(full.orders[p]) && full.orders[p].exchangeOrderId == Some(x);
      assert p in full'.orders && Terminal(full'.orders[p]) && HasExchangeId(full'.orders[p]);
    }
  }

  lemma PruneWithout(live: Store, o: string, r: Record)
    requires o !in live.orders && !HasExchangeId(r)
    ensures var live' := live.(orders := live.orders[o := r]);
            && PrunedIds(live') == PrunedIds(live)
            && Prune(live') == if Terminal(r) then Prune(live) else Prune(live).(orders := Prune(live).orders[o := r])
  {
    var live' := live.(orders := live.orders[o := r]);
    forall x | x in PrunedIds(live)
      ensures x in PrunedIds(live')
    {
      var p :| p in live.orders && Terminal(live.orders[p]) && HasExchangeId(live.orders[p])
               && live.orders[p].exchangeOrderId.value == x;
      assert p in live'.orders;
    }
    assert Prune(live').orders == if Terminal(r) then Prune(live).orders else Prune(live).orders[o := r];
  }

  /** An order without an id is lost, unless it is finished already and pruned in any case. */
  lemma NamelessTrack(w: World, order: Order, venue: string)
    requires Invariant(w) && order.orderId == ""
    ensures var w' := Act(w, Do(Op.Track(order, venue)));
            Restore(EMPTY, w'.log) == Prune(w'.store) <==> Terminal(Record(order, None, None, None, venue))
  {
    hide Prune, PrunedIds, RetiredIds, Terminal;
    var e, w' := OrderTracked(order, venue), Act(w, Do(Op.Track(order, venue)));
    OrderEventsAppend(w.log, e);
    ReplayAppend(EMPTY, OrderEvents(w.log), e);
    PruneAbsorbs(w.store, Full(w.log));
    assert "" !in w.store.orders;
    PruneWithout(w.store, "", Record(order, None, None, None, venue));
    NotPruned(w.store, "");
  }

  lemma NotPruned(st: Store, o: string)
    requires o !in st.orders
    ensures o !in Prune(st).orders
  {
  }

  /**
   * The tracking hypothesis, made exact. Tracking an order stays recoverable precisely when it has
   * an id and does not revive a pruned order's exchange id. Such an id stays out of the live index
   * but comes back on replay, unless another finished order has it too. An order without an id is
   * recoverable only if it is finished already.
   */
  lemma TrackRecoverableIff(w: World, order: Order, venue: string)
    requires Invariant(w)
    ensures var w', full, o := Act(w, Do(Op.Track(order, venue))), Full(w.log), order.orderId;
            Restore(EMPTY, w'.log) == Prune(w'.store)
            <==> if o == "" then Terminal(Record(order, None, None, None, venue))
                 else RevivesId(w.store, full, o) ==>
                        HeldByTerminal(full, o, full.orders[o].exchangeOrderId.value)
  {
    hide Prune, PrunedIds, RetiredIds, HeldByTerminal;
    var w', full, o := Act(w, Do(Op.Track(order, venue))), Full(w.log), order.orderId;
    if o == "" {
      NamelessTrack(w, order, venue);
    } else if !(o in full.orders && o !in w.store.orders) {
      ActInvariant(w, Do(Op.Track(order, venue)));
      RestoreForgetsMemory(w');
      PruneAbsorbs(w'.store, Full(w'.log));
    } else {
      var e, r := OrderTracked(order, venue), Record(order, None, None, None, venue);
      OrderEventsAppend(w.log, e);
      ReplayAppend(EMPTY, OrderEvents(w.log), e);
      if HasExchangeId(full.orders[o]) {
        var x := full.orders[o].exchangeOrderId.value;
        ReplayIndexes(OrderEvents(w.log), o);
        RevivalPrunes(w.store, full, o, r, x);
        HeldIsPrunedElsewhere(full, o, r, x);
      } else {
        RevivalSimulates(w.store, full, o, r);
        PruneAbsorbs(w'.store, full.(orders := full.orders[o := r]));
      }
    }
  }

  lemma RevivalSimulates(live: Store, full: Store, o: string, r: Record)
    requires Simulates(live, full) && !HasExchangeId(r)
    requires o in full.orders && o !in live.orders && !HasExchangeId(full.orders[o])
    ensures Simulates(live.(orders := live.orders[o := r]), full.(orders := full.orders[o := r]))
  {
    RetiredOnRevival(live, full, live.(orders := live.orders[o := r]), full.(orders := full.orders[o := r]), o, r);
  }

  // ------------------------------------------------------------------
  // Read off the log
  // ------------------------------------------------------------------

  /** The events about one order, from the latest time it was tracked. */
  function Naming(events: seq<Event>, o: string): seq<Event> {
    if events == [] then []
    else
      var before, last := Naming(events[..|events| - 1], o), events[|events| - 1];
      if EventOrderId(last) != o then before else if last.OrderTracked? then [last] else before + [last]
  }

  function LastStatus(h: seq<Event>): Option<OrderStatus> {
    if h == [] then None
    else match h[|h| - 1]
      case OrderTracked(order, _) => Some(order.status)
      case OrderSubmitted(_, _, _) => Some(Submitted)
      case OrderFill(_, _, _, _, _, _, _) => Some(Filled)
      case OrderCancelled(_, _, _) => Some(Cancelled)
      case Other(_) => None
  }

  function LastExchangeId(h: seq<Event>): Option<string> {
    if h == [] then None
    else if h[|h| - 1].OrderSubmitted? then Some(h[|h| - 1].exchangeOrderId)
    else LastExchangeId(h[..|h| - 1])
  }

  /** Price and quantity of the latest fill. */
  function LastFill(h: seq<Event>): Option<(real, real)> {
    if h == [] then None
    else if h[|h| - 1].OrderFill? then Some((h[|h| - 1].fillPrice, h[|h| - 1].fillQuantity))
    else LastFill(h[..|h| - 1])
  }

  /** A record is what the events about its order say: how it was tracked, and the latest of each kind since. */
  ghost predicate Describes(h: seq<Event>, r: Record) {
    && h != [] && h[0].OrderTracked? && r.venue == h[0].venue
    && LastStatus(h) == Some(r.order.status)
    && r.order == h[0].order.(status := r.order.status)
    && r.exchangeOrderId == LastExchangeId(h)
    && r.fillPrice == (if LastFill(h).Some? then Some(LastFill(h).value.0) else None)
    && r.fillQuantity == (if LastFill(h).Some? then Some(LastFill(h).value.1) else None)
  }

  lemma DescribesStep(h: seq<Event>, st: Store, e: Event)
    requires EventOrderId(e) != "" && !e.OrderTracked? && EventOrderId(e) in st.orders
    requires Describes(h, st.orders[EventOrderId(e)])
    ensures EventOrderId(e) in ApplyEvent(st, e).orders
    ensures Describes(h + [e], ApplyEvent(st, e).orders[EventOrderId(e)])
  {
    assert (h + [e])[..|h|] == h;
  }

  lemma {:induction false} ReplayFromLog(events: seq<Event>, o: string)
    requires WellOrdered(events)
    ensures var st, h := Replay(EMPTY, events), Naming(events, o);
            && (o in st.orders <==> h != [])
            && (o in st.orders ==> Describes(h, st.orders[o]))
  {
    if events != [] {
      var n := |events| - 1;
      var before, e := Replay(EMPTY, events[..n]), events[n];
      ReplayFromLog(events[..n], o);
      if EventOrderId(e) == o && !e.OrderTracked? {
        DescribesStep(Naming(events[..n], o), before, e);
      }
    }
  }

  /** The latest word of the log leaves the order unfinished. */
  predicate LeftOpen(h: seq<Event>) {
    h != [] &&
    var last := h[|h| - 1];
    last.OrderSubmitted? || (last.OrderTracked? && !last.order.status.Filled? && !last.order.status.Cancelled?)
  }

  /**
   * What a restart gives back, after any admissible run: exactly the orders that are neither filled
   * nor cancelled, as they were. Read off the log, these are the orders whose latest event is a
   * submission, or the tracking of an unfinished order; and each record is what its events say.
   */
  lemma RestoredIff(actions: seq<Action>, o: string)
    requires AdmissibleRun(actions)
    ensures var w := Run(actions);
            var live, restored, h := w.store.orders, Restore(EMPTY, w.log).orders, Naming(OrderEvents(w.log), o);
            && (o in restored <==> o in live && live[o].order.status !in {Filled, Cancelled})
            && (o in restored <==> LeftOpen(h))
            && (o in restored ==> restored[o] == live[o])
            && (o in live ==> Describes(h, live[o]))
  {
    RunInvariant(actions);
    CrashRecovery(actions);
    var w := Run(actions);
    ReplayFromLog(OrderEvents(w.log), o);
    if o in w.store.orders {
      assert w.store.orders[o] == Full(w.log).orders[o];
    }
  }

  /** What an event tells about its order is what the order was when it was logged. */
  predicate TellsAbout(r: Record, e: Event) {
    match e
    case OrderSubmitted(_, _, symbol) => symbol == r.order.symbol
    case OrderFill(_, x, symbol, side, _, _, mandateId) =>
      x == r.exchangeOrderId && symbol == r.order.symbol && side == r.order.side && mandateId == r.order.mandateId
    case OrderCancelled(_, x, _) => x == r.exchangeOrderId
    case _ => true
  }

  ghost predicate AllTell(events: seq<Event>) {
    events == [] ||
    var n := |events| - 1;
    var st := Replay(EMPTY, events[..n]);
    && AllTell(events[..n])
    && (EventOrderId(events[n]) in st.orders ==> TellsAbout(st.orders[EventOrderId(events[n])], events[n]))
  }

  /** Every event of the log carries the symbol, side, mandate and exchange id its order had then. */
  lemma {:induction false} EventsTell(actions: seq<Action>)
    requires AdmissibleRun(actions)
    ensures AllTell(OrderEvents(Run(actions).log))
  {
    if actions != [] {
      var n := |actions| - 1;
      var w, a := Run(actions[..n]), actions[n];
      EventsTell(actions[..n]);
      RunInvariant(actions[..n]);
      if a.Do? && LiveEvents(w.store, a.op) != [] {
        var e := LiveEvents(w.store, a.op)[0];
        OrderEventsAppend(w.log, e);
        LiveEventTells(w, a.op);
        assert (OrderEvents(w.log) + [e])[..|OrderEvents(w.log)|] == OrderEvents(w.log);
      } else if a.Do? {
        assert w.log + LiveEvents(w.store, a.op) == w.log;
      } else if a.Foreign? {
        OrderEventsAppend(w.log, Other(a.eventType));
      }
    }
  }

  lemma LiveEventTells(w: World, op: Op)
    requires Invariant(w) && Admissible(w, Do(op)) && LiveEvents(w.store, op) != []
    ensures var e := LiveEvents(w.store, op)[0];
            && !e.Other? && LiveEvents(w.store, op) == [e]
            && (EventOrderId(e) in Full(w.log).orders ==> TellsAbout(Full(w.log).orders[EventOrderId(e)], e))
  {
    if OpOrderId(op) in w.store.orders {
      assert w.store.orders[OpOrderId(op)] == Full(w.log).orders[OpOrderId(op)];
    }
  }

  /** The calls of a run that did something: trackings, and calls about an order in memory. */
  function Effective(actions: seq<Action>): seq<Op> {
    if actions == [] then []
    else
      var n := |actions| - 1;
      Effective(actions[..n])
        + (if actions[n].Do? && (actions[n].op.Track? || OpOrderId(actions[n].op) in Run(actions[..n]).store.orders)
           then [actions[n].op] else [])
  }

  /** The event that such a call logs, with the arguments of the call. */
  predicate Logs(op: Op, e: Event) {
    match op
    case Track(order, venue) => e == OrderTracked(order, venue)
    case Submit(o, x) => e.OrderSubmitted? && e.orderId == o && e.exchangeOrderId == x
    case Fill(o, price, quantity) =>
      e.OrderFill? && e.orderId == o && e.fillPrice == price && e.fillQuantity == quantity
    case Cancel(o, reason) => e.OrderCancelled? && e.orderId == o && e.reason == reason
  }

  lemma LiveEventLogs(st: Store, op: Op)
    ensures if op.Track? || OpOrderId(op) in st.orders
            then |LiveEvents(st, op)| == 1 && Logs(op, LiveEvents(st, op)[0]) && !LiveEvents(st, op)[0].Other?
            else LiveEvents(st, op) == []
  {
  }

  lemma ActLogs(w: World, a: Action)
    ensures var events, events' := OrderEvents(w.log), OrderEvents(Act(w, a).log);
            if a.Do? && (a.op.Track? || OpOrderId(a.op) in w.store.orders)
            then exists e :: events' == events + [e] && Logs(a.op, e) else events' == events
  {
    hide Logs, LiveEvents, LiveStore, Restore, OrderEvents;
    match a
    case Do(op) =>
      LiveEventLogs(w.store, op);
      if LiveEvents(w.store, op) == [] {
        assert w.log + LiveEvents(w.store, op) == w.log;
      } else {
        assert LiveEvents(w.store, op) == [LiveEvents(w.store, op)[0]];
        OrderEventsAppend(w.log, LiveEvents(w.store, op)[0]);
      }
    case Foreign(t) => OrderEventsAppend(w.log, Other(t));
    case Restart =>
    case RestoreInPlace =>
  }

  /** The log is the sequence of those calls, one event each, whatever else is logged and restarted. */
  lemma {:induction false} LogIsCalls(actions: seq<Action>)
    ensures var events, ops := OrderEvents(Run(actions).log), Effective(actions);
            |events| == |ops| && forall i | 0 <= i < |ops| :: Logs(ops[i], events[i])
  {
    if actions != [] {
      hide Logs, Act, OrderEvents;
      LogIsCalls(actions[..|actions| - 1]);
      ActLogs(Run(actions[..|actions| - 1]), actions[|actions| - 1]);
    }
  }

  // ------------------------------------------------------------------
  // Restarts are invisible
  // ------------------------------------------------------------------

  /** The same actions in one long-lived process. */
  function WithoutRestarts(actions: seq<Action>): seq<Action> {
    if actions == [] then []
    else
      var n := |actions| - 1;
      WithoutRestarts(actions[..n])
        + (if actions[n].Do? || actions[n].Foreign? then [actions[n]] else [])
  }

  /** No call after a restart is about an order that the restart pruned. */
  ghost predicate LeavesPrunedAlone(actions: seq<Action>) {
    actions == [] ||
    var n := |actions| - 1;
    var w := Run(actions[..n]);
    && LeavesPrunedAlone(actions[..n])
    && (actions[n].Do? ==>
          OpOrderId(actions[n].op) in Full(w.log).orders ==> OpOrderId(actions[n].op) in w.store.orders)
  }

  lemma RunAppend(actions: seq<Action>, a: Action)
    ensures Run(actions + [a]) == Act(Run(actions), a)
  {
  }

  /** The steady process: it wrote the same log, and its memory is the whole history. */
  ghost predicate Steady(w: World, steady: World) {
    w.log == steady.log && steady.store == Full(w.log)
  }

  lemma CallInStep(w: World, steady: World, op: Op)
    requires Invariant(w) && Admissible(w, Do(op)) && Steady(w, steady)
    requires OpOrderId(op) in Full(w.log).orders ==> OpOrderId(op) in w.store.orders
    ensures Steady(Act(w, Do(op)), Act(steady, Do(op)))
  {
    SameStep(w.store, steady.store, op);
    var emitted := LiveEvents(w.store, op);
    if emitted != [] {
      OrderEventsAppend(w.log, emitted[0]);
      ReplayAppend(EMPTY, OrderEvents(w.log), emitted[0]);
    } else {
      assert w.log + emitted == w.log;
    }
  }

  lemma {:induction false} RunsInStep(actions: seq<Action>)
    requires AdmissibleRun(actions) && LeavesPrunedAlone(actions)
    ensures Steady(Run(actions), Run(WithoutRestarts(actions)))
  {
    if actions == [] {
      assert WithoutRestarts(actions) == [];
    } else {
      var n := |actions| - 1;
      var a, w, calls := actions[n], Run(actions[..n]), WithoutRestarts(actions[..n]);
      RunsInStep(actions[..n]);
      RunInvariant(actions[..n]);
      if a.Do? || a.Foreign? {
        assert WithoutRestarts(actions) == calls + [a];
        RunAppend(calls, a);
        if a.Do? {
          CallInStep(w, Run(calls), a.op);
        } else {
          OrderEventsAppend(w.log, Other(a.eventType));
        }
      } else {
        assert WithoutRestarts(actions) == calls;
      }
    }
  }

  /**
   * A process that crashes and restores at arbitrary points writes the log, and after pruning
   * holds the store, of a process that never stopped. That process's memory is the full history.
   */
  lemma RestartsInvisible(actions: seq<Action>)
    requires AdmissibleRun(actions) && LeavesPrunedAlone(actions)
    ensures var w, steady := Run(actions), Run(WithoutRestarts(actions));
            w.log == steady.log && steady.store == Full(w.log) && Prune(w.store) == Prune(steady.store)
  {
    RunsInStep(actions);
    RunInvariant(actions);
    PruneAbsorbs(Run(actions).store, Full(Run(actions).log));
  }

  // ------------------------------------------------------------------
  // The index agrees with a scan
  // ------------------------------------------------------------------

  function GetByExchangeId(st: Store, x: string): Option<Record> {
    if x in st.index && st.index[x] in st.orders then Some(st.orders[st.index[x]]) else None
  }

  ghost predicate Owns(st: Store, o: string, x: string) {
    o in st.orders && st.orders[o].exchangeOrderId == Some(x)
  }

  ghost predicate IndexExact(st: Store) {
    && (forall x | x in st.index :: Owns(st, st.index[x], x))
    && (forall o, x | Owns(st, o, x) :: x in st.index && st.index[x] == o)
  }

  /** Each order is tracked once and submitted once, and no exchange id serves two live orders. */
  ghost predicate SubmittedOnce(actions: seq<Action>) {
    actions == [] ||
    var n := |actions| - 1;
    var st := Run(actions[..n]).store;
    && SubmittedOnce(actions[..n])
    && (actions[n].Do? && actions[n].op.Track? ==> actions[n].op.order.orderId !in st.orders)
    && (actions[n].Do? && actions[n].op.Submit? && actions[n].op.orderId in st.orders ==>
          st.orders[actions[n].op.orderId].exchangeOrderId.None? && actions[n].op.exchangeOrderId !in st.index)
  }

  lemma LiveKeepsIndexExact(st: Store, op: Op)
    requires IndexExact(st)
    requires op.Track? ==> op.order.orderId !in st.orders
    requires op.Submit? && op.orderId in st.orders ==>
               st.orders[op.orderId].exchangeOrderId.None? && op.exchangeOrderId !in st.index
    ensures IndexExact(LiveStore(st, op))
  {
    var st' := LiveStore(st, op);
    forall x | x in st'.index
      ensures Owns(st', st'.index[x], x)
    {
      if x in st.index { assert Owns(st, st.index[x], x); }
    }
    forall o, x | Owns(st', o, x)
      ensures x in st'.index && st'.index[x] == o
    {
      if o != OpOrderId(op) { assert Owns(st, o, x); }
      else if !op.Submit? && !op.Track? { assert Owns(st, o, x); }
    }
  }

  lemma PruneKeepsIndexExact(st: Store)
    requires IndexExact(st) && "" !in st.index
    ensures IndexExact(Prune(st))
  {
    var st' := Prune(st);
    forall x | x in st'.index
      ensures Owns(st', st'.index[x], x)
    {
      assert Owns(st, st.index[x], x);
      assert Terminal(st.orders[st.index[x]]) ==> x in PrunedIds(st);
    }
    forall o, x | Owns(st', o, x)
      ensures x in st'.index && st'.index[x] == o
    {
      assert Owns(st, o, x);
      if x in PrunedIds(st) {
        var p :| p in st.orders && Terminal(st.orders[p]) && HasExchangeId(st.orders[p])
                 && st.orders[p].exchangeOrderId.value == x;
        assert Owns(st, p, x);
      }
    }
  }

  lemma {:induction false} IndexExactOverRuns(actions: seq<Action>)
    requires AdmissibleRun(actions) && SubmittedOnce(actions)
    ensures IndexExact(Run(actions).store)
  {
    if actions != [] {
      var n := |actions| - 1;
      var a, w := actions[n], Run(actions[..n]);
      IndexExactOverRuns(actions[..n]);
      RunInvariant(actions[..n]);
      if a.Do? {
        LiveKeepsIndexExact(w.store, a.op);
      } else if !a.Foreign? {
        CrashRecovery(actions[..n]);
        PruneKeepsIndexExact(w.store);
      }
    }
  }

  /** In every reachable state the lookup finds a record exactly when it is the only owner of the id. */
  lemma IndexAgreesWithScan(actions: seq<Action>, x: string, r: Record)
    requires AdmissibleRun(actions) && SubmittedOnce(actions)
    ensures var st := Run(actions).store;
            GetByExchangeId(st, x) == Some(r)
            <==> exists o :: Owns(st, o, x) && st.orders[o] == r && (forall p | Owns(st, p, x) :: p == o)
  {
    IndexExactOverRuns(actions);
    var st := Run(actions).store;
    if x in st.index {
      assert Owns(st, st.index[x], x);
    }
  }
}
