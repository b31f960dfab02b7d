/**
 * Moving exchange trades into the order store and the mandate books
 * (`aiswarm/execution/fill_tracker.py`).
 */
module FillTrackers {
  import opened Common
  import opened Orders
  import opened EventLog
  import opened Recovery
  import opened OrderStores
  import opened Memory

  datatype Trade = Trade(
    tradeId: string,
    symbol: string,
    side: string,
    price: real,
    quantity: real,
    realizedPnl: real,
    orderId: string
  )

  datatype FillSyncResult = FillSyncResult(matched: nat, unmatched: nat, alreadyFilled: nat, total: nat)

  // ------------------------------------------------------------------
  // Matching, on values
  // ------------------------------------------------------------------

  function Lower(s: string): string {
    if s == "" then ""
    else [if 'A' <= s[0] <= 'Z' then (s[0] as int + 32) as char else s[0]] + Lower(s[1..])
  }

  function SideValue(side: Side): string {
    if side.Buy? then "buy" else "sell"
  }

  /** What became of one exchange trade. */
  datatype Outcome = Already | Unmatched | Matched(orderId: string)

  predicate AlreadyFilled(st: Store, t: Trade) {
    var r := GetByExchangeId(st, t.tradeId);
    r.Some? && r.value.fillPrice.Some?
  }

  predicate LinkedByOrderId(st: Store, t: Trade) {
    t.orderId != "" && GetByExchangeId(st, t.orderId).Some?
  }

  /** The fallback match: an open order with an exchange id, on the same symbol and side. */
  predicate SameSymbolAndSide(st: Store, t: Trade, normalize: string -> string, o: string) {
    && o in st.orders
    && st.orders[o].order.status.Submitted?
    && HasExchangeId(st.orders[o])
    && normalize(st.orders[o].order.symbol) == normalize(t.symbol)
    && Lower(SideValue(st.orders[o].order.side)) == Lower(t.side)
  }

  /**
   * The outcomes the matching rules allow for a trade. The fallback may pick any matching open
   * order: the source takes the first in dictionary order, which is not modelled.
   */
  ghost predicate Permitted(st: Store, t: Trade, normalize: string -> string, out: Outcome) {
    match out
    case Already => AlreadyFilled(st, t)
    case Matched(o) =>
      && !AlreadyFilled(st, t)
      && (if LinkedByOrderId(st, t) then o == st.index[t.orderId] else SameSymbolAndSide(st, t, normalize, o))
    case Unmatched =>
      && !AlreadyFilled(st, t) && !LinkedByOrderId(st, t)
      && (forall o :: !SameSymbolAndSide(st, t, normalize, o))
  }

  /** Lower case: letter by letter, the capitals A to Z shifted and everything else kept. */
  lemma {:induction false} LowerAt(s: string, i: nat)
    requires i < |s|
    ensures |Lower(s)| == |s|
    ensures 'A' <= s[i] <= 'Z' ==> 'a' <= Lower(s)[i] <= 'z' && Lower(s)[i] - s[i] == 'a' - 'A'
    ensures !('A' <= s[i] <= 'Z') ==> Lower(s)[i] == s[i]
  {
    if i > 0 {
      LowerAt(s[1..], i - 1);
    } else if |s| > 1 {
      LowerAt(s[1..], 0);
    }
  }

  /** The order waits for a fill on the trade's symbol and side: buys for "buy", sells for "sell". */
  ghost predicate Awaits(st: Store, o: string, t: Trade, normalize: string -> string) {
    && o in st.orders && st.orders[o].order.status == Submitted
    && st.orders[o].exchangeOrderId.Some? && st.orders[o].exchangeOrderId.value != ""
    && normalize(st.orders[o].order.symbol) == normalize(t.symbol)
    && (st.orders[o].order.side == Buy ==> Lower(t.side) == "buy")
    && (st.orders[o].order.side == Sell ==> Lower(t.side) == "sell")
  }

  lemma SidesInLowerCase()
    ensures Lower("buy") == "buy" && Lower("sell") == "sell"
  {
    assert "buy"[1..] == "uy" && "uy"[1..] == "y" && "y"[1..] == "";
    assert "sell"[1..] == "ell" && "ell"[1..] == "ll" && "ll"[1..] == "l" && "l"[1..] == "";
    assert Lower("y") == "y" && Lower("uy") == "uy";
    assert Lower("l") == "l" && Lower("ll") == "ll" && Lower("ell") == "ell";
  }

  lemma AwaitsIffSame(st: Store, o: string, t: Trade, normalize: string -> string)
    ensures SameSymbolAndSide(st, t, normalize, o) <==> Awaits(st, o, t, normalize)
  {
    SidesInLowerCase();
  }

  /**
   * The matching rules in the store's own terms. A trade is skipped exactly if its trade id leads to
   * a filled order. Else the order its order id leads to takes it; else some order that awaits it, on
   * its own side; and it stays unmatched only if there is none.
   */
  lemma MatchingRules(st: Store, t: Trade, normalize: string -> string, out: Outcome)
    requires Permitted(st, t, normalize, out)
    ensures var skipped := && t.tradeId in st.index && st.index[t.tradeId] in st.orders
                           && st.orders[st.index[t.tradeId]].fillPrice.Some?;
            var linked := t.orderId != "" && t.orderId in st.index && st.index[t.orderId] in st.orders;
            && (out.Already? <==> skipped)
            && (!skipped && linked ==> out == Matched(st.index[t.orderId]))
            && (!skipped && !linked ==>
                  && (out.Matched? <==> exists o :: Awaits(st, o, t, normalize))
                  && (out.Matched? ==> Awaits(st, out.orderId, t, normalize)))
  {
    hide SameSymbolAndSide, Awaits;
    forall o
      ensures SameSymbolAndSide(st, t, normalize, o) <==> Awaits(st, o, t, normalize)
    {
      AwaitsIffSame(st, o, t, normalize);
    }
  }

  // ------------------------------------------------------------------
  // Syncing, on values
  // ------------------------------------------------------------------

  datatype Desk = Desk(store: Store, log: seq<Event>, book: Book)

  function MandateOf(st: Store, o: string): Option<string> {
    if o in st.orders && st.orders[o].order.mandateId.Some? && st.orders[o].order.mandateId.value != ""
    then st.orders[o].order.mandateId else None
  }

  /** A P&L books to the order's mandate; a missing or empty mandate id books nowhere. */
  function Booked(book: Book, mandateId: Option<string>, pnl: real): Book {
    if mandateId.Some? && mandateId.value != "" then BookStep(book, Pnl(mandateId.value, pnl)) else book
  }

  function Settle(d: Desk, t: Trade, out: Outcome): Desk {
    match out
    case Matched(o) =>
      var op := Fill(o, t.price, t.quantity);
      Desk(LiveStore(d.store, op), d.log + LiveEvents(d.store, op),
           Booked(d.book, MandateOf(d.store, o), t.realizedPnl))
    case _ => d
  }

  function SettleAll(d: Desk, trades: seq<Trade>, outs: seq<Outcome>): Desk
    requires |trades| == |outs|
  {
    if trades == [] then d
    else
      var n := |trades| - 1;
      Settle(SettleAll(d, trades[..n], outs[..n]), trades[n], outs[n])
  }

  ghost predicate Explains(d: Desk, trades: seq<Trade>, normalize: string -> string, outs: seq<Outcome>) {
    |outs| == |trades| &&
    (trades == [] ||
     var n := |trades| - 1;
     Explains(d, trades[..n], normalize, outs[..n]) &&
     Permitted(SettleAll(d, trades[..n], outs[..n]).store, trades[n], normalize, outs[n]))
  }

  /** How many trades became what, counted from the outcomes. */
  function Tally(outs: seq<Outcome>): FillSyncResult {
    if outs == [] then FillSyncResult(0, 0, 0, 0)
    else
      var r := Tally(outs[..|outs| - 1]);
      match outs[|outs| - 1]
      case Already => r.(alreadyFilled := r.alreadyFilled + 1, total := r.total + 1)
      case Unmatched => r.(unmatched := r.unmatched + 1, total := r.total + 1)
      case Matched(_) => r.(matched := r.matched + 1, total := r.total + 1)
  }

  ghost function MatchedAt(outs: seq<Outcome>): set<int> {
    set i | 0 <= i < |outs| && outs[i].Matched?
  }

  lemma {:induction false} TallyMatched(outs: seq<Outcome>)
    ensures Tally(outs).matched == |MatchedAt(outs)|
  {
    if outs != [] {
      var n := |outs| - 1;
      TallyMatched(outs[..n]);
      assert MatchedAt(outs) == MatchedAt(outs[..n]) + (if outs[n].Matched? then {n} else {});
    }
  }

  ghost function UnmatchedAt(outs: seq<Outcome>): set<int> {
    set i | 0 <= i < |outs| && outs[i].Unmatched?
  }

  lemma {:induction false} TallyUnmatched(outs: seq<Outcome>)
    ensures Tally(outs).unmatched == |UnmatchedAt(outs)|
  {
    if outs != [] {
      var n := |outs| - 1;
      TallyUnmatched(outs[..n]);
      assert UnmatchedAt(outs) == UnmatchedAt(outs[..n]) + (if outs[n].Unmatched? then {n} else {});
    }
  }

  ghost function AlreadyAt(outs: seq<Outcome>): set<int> {
    set i | 0 <= i < |outs| && outs[i].Already?
  }

  lemma {:induction false} TallyAlready(outs: seq<Outcome>)
    ensures Tally(outs).alreadyFilled == |AlreadyAt(outs)|
  {
    if outs != [] {
      var n := |outs| - 1;
      TallyAlready(outs[..n]);
      assert AlreadyAt(outs) == AlreadyAt(outs[..n]) + (if outs[n].Already? then {n} else {});
    }
  }

  /** The counters count what they say. */
  lemma TallyCounts(outs: seq<Outcome>)
    ensures var r := Tally(outs);
            r.matched == |MatchedAt(outs)| && r.unmatched == |UnmatchedAt(outs)| && r.alreadyFilled == |AlreadyAt(outs)|
  {
    TallyMatched(outs);
    TallyUnmatched(outs);
    TallyAlready(outs);
  }

  // ------------------------------------------------------------------
  // Conservation
  // ------------------------------------------------------------------

  /** The fills a sync owes the log: order, price and quantity of each matched trade, in order. */
  function OwedFills(trades: seq<Trade>, outs: seq<Outcome>): seq<(string, real, real)>
    requires |trades| == |outs|
  {
    if trades == [] then []
    else
      var n := |trades| - 1;
      OwedFills(trades[..n], outs[..n])
        + (if outs[n].Matched? then [(outs[n].orderId, trades[n].price, trades[n].quantity)] else [])
  }

  /** The order is on the books of this mandate; an empty mandate id is none. */
  predicate BelongsTo(st: Store, o: string, mandateId: string) {
    o in st.orders && mandateId != "" && st.orders[o].order.mandateId == Some(mandateId)
  }

  /** The latest trade matched to an order. */
  function LatestMatch(trades: seq<Trade>, outs: seq<Outcome>, o: string): Option<Trade>
    requires |trades| == |outs|
  {
    if trades == [] then None
    else
      var n := |trades| - 1;
      if outs[n] == Matched(o) then Some(trades[n]) else LatestMatch(trades[..n], outs[..n], o)
  }

  /** The realised P&L of the trades matched to orders of one mandate, in order. */
  function OwedPnl(st: Store, trades: seq<Trade>, outs: seq<Outcome>, mandateId: string): seq<real>
    requires |trades| == |outs|
  {
    if trades == [] then []
    else
      var n := |trades| - 1;
      OwedPnl(st, trades[..n], outs[..n], mandateId)
        + (if outs[n].Matched? && BelongsTo(st, outs[n].orderId, mandateId)
           then [trades[n].realizedPnl] else [])
  }

  /** `events` are fill events carrying exactly these orders, prices and quantities. */
  ghost predicate AreFills(events: seq<Event>, fills: seq<(string, real, real)>) {
    && |events| == |fills|
    && forall i | 0 <= i < |events| ::
         events[i].OrderFill?
         && (events[i].orderId, events[i].fillPrice, events[i].fillQuantity) == fills[i]
  }

  /** An order filled by this trade; all else about it is as before. */
  ghost predicate FilledBy(before: Record, after: Record, t: Trade) {
    && after.fillPrice == Some(t.price) && after.fillQuantity == Some(t.quantity) && after.order.status == Filled
    && after == before.(order := before.order.(status := Filled),
                        fillPrice := after.fillPrice, fillQuantity := after.fillQuantity)
  }

  /** An order after a sync: filled by the latest trade matched to it, or untouched. */
  ghost predicate FilledOrKept(before: Record, after: Record, latest: Option<Trade>) {
    if latest.Some? then FilledBy(before, after, latest.value) else after == before
  }

  lemma {:induction false} LatestMatchIff(trades: seq<Trade>, outs: seq<Outcome>, o: string)
    requires |trades| == |outs|
    ensures LatestMatch(trades, outs, o).Some? <==> Matched(o) in outs
  {
    if trades != [] {
      LatestMatchIff(trades[..|trades| - 1], outs[..|outs| - 1], o);
    }
  }

  /** The mandate's daily P&L and running total both moved by exactly the sum of `pnl`. */
  ghost predicate Raised(book: Book, book': Book, mandateId: string, pnl: seq<real>) {
    var t, t' := TrackerOf(book, mandateId), TrackerOf(book', mandateId);
    t'.dailyPnl == t.dailyPnl + Sum(pnl) && t'.currentNav == t.currentNav + Sum(pnl)
  }

  ghost predicate Settled(d: Desk, d': Desk, trades: seq<Trade>, outs: seq<Outcome>)
    requires |trades| == |outs|
  {
    && d.log <= d'.log && AreFills(d'.log[|d.log|..], OwedFills(trades, outs))
    && (forall m :: Raised(d.book, d'.book, m, OwedPnl(d.store, trades, outs, m)))
    && d'.store.index == d.store.index
    && d'.store.orders.Keys == d.store.orders.Keys
    && (forall o | o in d.store.orders ::
          FilledOrKept(d.store.orders[o], d'.store.orders[o], LatestMatch(trades, outs, o)))
  }

  lemma MandatesStay(d: Desk, d': Desk, trades: seq<Trade>, outs: seq<Outcome>, o: string)
    requires |trades| == |outs| && Settled(d, d', trades, outs)
    ensures MandateOf(d'.store, o) == MandateOf(d.store, o)
  {
  }

  lemma SettleBooks(d: Desk, d': Desk, t: Trade, o: string, mandateId: string, pnl: seq<real>)
    requires MandateOf(d'.store, o) == MandateOf(d.store, o)
    requires Raised(d.book, d'.book, mandateId, pnl)
    ensures Raised(d.book, Settle(d', t, Matched(o)).book, mandateId,
                   pnl + (if BelongsTo(d.store, o, mandateId) then [t.realizedPnl] else []))
  {
    SumAppend(pnl, t.realizedPnl);
    assert pnl + [] == pnl;
  }

  lemma SettleMatched(d: Desk, d': Desk, trades: seq<Trade>, outs: seq<Outcome>, t: Trade, o: string)
    requires |trades| == |outs| && Settled(d, d', trades, outs)
    requires o in d.store.orders
    ensures var d'' := Settle(d', t, Matched(o));
            && d.log <= d''.log
            && AreFills(d''.log[|d.log|..], OwedFills(trades, outs) + [(o, t.price, t.quantity)])
            && d''.store.index == d.store.index
            && d''.store.orders.Keys == d.store.orders.Keys
            && (forall p | p in d.store.orders ::
                  FilledOrKept(d.store.orders[p], d''.store.orders[p],
                               if p == o then Some(t) else LatestMatch(trades, outs, p)))
  {
  }

  lemma OwedAppend(st: Store, trades: seq<Trade>, outs: seq<Outcome>, t: Trade, out: Outcome, mandateId: string)
    requires |trades| == |outs|
    ensures OwedFills(trades + [t], outs + [out])
         == OwedFills(trades, outs) + (if out.Matched? then [(out.orderId, t.price, t.quantity)] else [])
    ensures OwedPnl(st, trades + [t], outs + [out], mandateId)
         == OwedPnl(st, trades, outs, mandateId)
            + (if out.Matched? && BelongsTo(st, out.orderId, mandateId) then [t.realizedPnl] else [])
    ensures forall o :: LatestMatch(trades + [t], outs + [out], o)
                     == if out == Matched(o) then Some(t) else LatestMatch(trades, outs, o)
  {
  }

  lemma SettledStep(d: Desk, d': Desk, trades: seq<Trade>, outs: seq<Outcome>, t: Trade, out: Outcome)
    requires |trades| == |outs| && Settled(d, d', trades, outs)
    requires out.Matched? ==> out.orderId in d.store.orders
    ensures Settled(d, Settle(d', t, out), trades + [t], outs + [out])
  {
    OwedAppend(d.store, trades, outs, t, out, "");
    forall m
      ensures Raised(d.book, Settle(d', t, out).book, m, OwedPnl(d.store, trades + [t], outs + [out], m))
    {
      OwedAppend(d.store, trades, outs, t, out, m);
      if out.Matched? {
        MandatesStay(d, d', trades, outs, out.orderId);
        SettleBooks(d, d', t, out.orderId, m, OwedPnl(d.store, trades, outs, m));
      } else {
        assert OwedPnl(d.store, trades, outs, m) + [] == OwedPnl(d.store, trades, outs, m);
      }
    }
    if out.Matched? {
      SettleMatched(d, d', trades, outs, t, out.orderId);
    }
  }

  /**
   * Whatever a sync is handed, each matched trade adds one fill event and exactly its realised P&L
   * to its mandate; every other order, tracker and index entry is left as it was.
   */
  lemma {:induction false} SyncConserves(d: Desk, trades: seq<Trade>, normalize: string -> string, outs: seq<Outcome>)
    requires Explains(d, trades, normalize, outs)
    ensures Settled(d, SettleAll(d, trades, outs), trades, outs)
  {
    if trades != [] {
      var n := |trades| - 1;
      var d' := SettleAll(d, trades[..n], outs[..n]);
      SyncConserves(d, trades[..n], normalize, outs[..n]);
      assert trades == trades[..n] + [trades[n]] && outs == outs[..n] + [outs[n]];
      SettledStep(d, d', trades[..n], outs[..n], trades[n], outs[n]);
    }
  }

  /** The three counters split the trades, and one fill is owed for each match. */
  lemma {:induction false} CountsSplit(trades: seq<Trade>, outs: seq<Outcome>)
    requires |trades| == |outs|
    ensures var r := Tally(outs);
            r.matched + r.unmatched + r.alreadyFilled == r.total == |trades| && |OwedFills(trades, outs)| == r.matched
  {
    if trades != [] {
      CountsSplit(trades[..|trades| - 1], outs[..|outs| - 1]);
    }
  }

  /**
   * A crash right after a sync loses none of it: the restored store is the pruned live store, and
   * no order the sync matched is tracked as open again.
   */
  lemma {:induction false} SyncSurvivesCrash(d: Desk, trades: seq<Trade>, normalize: string -> string,
                                             outs: seq<Outcome>)
    requires Explains(d, trades, normalize, outs)
    requires Invariant(World(d.store, d.log))
    ensures var d' := SettleAll(d, trades, outs);
            && Invariant(World(d'.store, d'.log))
            && Restore(EMPTY, d'.log) == Prune(d'.store)
            && (forall out | out in outs && out.Matched? :: out.orderId !in Restore(EMPTY, d'.log).orders)
  {
    hide Settled, Invariant, Settle;
    SettleKeepsInvariant(d, trades, normalize, outs);
    SyncConserves(d, trades, normalize, outs);
    var d' := SettleAll(d, trades, outs);
    RestoreForgetsMemory(World(d'.store, d'.log));
    PruneAbsorbs(d'.store, Full(d'.log));
    forall out | out in outs && out.Matched?
      ensures out.orderId !in Prune(d'.store).orders
    {
      if out.orderId in d.store.orders {
        assert out == Matched(out.orderId);
        FilledBySync(d, d', trades, outs, out.orderId);
      }
    }
  }

  lemma FilledBySync(d: Desk, d': Desk, trades: seq<Trade>, outs: seq<Outcome>, o: string)
    requires |trades| == |outs| && Settled(d, d', trades, outs) && o in d.store.orders
    ensures if Matched(o) in outs then d'.store.orders[o].order.status.Filled? && d'.store.orders[o].fillPrice.Some?
            else d'.store.orders[o] == d.store.orders[o]
  {
    LatestMatchIff(trades, outs, o);
    assert FilledOrKept(d.store.orders[o], d'.store.orders[o], LatestMatch(trades, outs, o));
  }

  lemma {:induction false} SettleKeepsInvariant(d: Desk, trades: seq<Trade>, normalize: string -> string,
                                                outs: seq<Outcome>)
    requires Explains(d, trades, normalize, outs)
    requires Invariant(World(d.store, d.log))
    ensures var d' := SettleAll(d, trades, outs); Invariant(World(d'.store, d'.log))
  {
    if trades != [] {
      var n := |trades| - 1;
      SettleKeepsInvariant(d, trades[..n], normalize, outs[..n]);
      var d' := SettleAll(d, trades[..n], outs[..n]);
      if outs[n].Matched? {
        ActInvariant(World(d'.store, d'.log), Do(Fill(outs[n].orderId, trades[n].price, trades[n].quantity)));
      }
    }
  }

  // ------------------------------------------------------------------
  // Syncing the same trade again
  // ------------------------------------------------------------------

  /**
   * The source means to skip a trade it already matched, but looks its trade id up among exchange
   * order ids. So a repeated sync skips it exactly when its trade id is the filled order's exchange
   * id, and otherwise books it again exactly when the trade names its order, or when another open
   * order on its symbol and side is left.
   */
  lemma RepeatBooksAgainIff(d: Desk, t: Trade, normalize: string -> string, first: Outcome, second: Outcome)
    requires first.Matched? && Permitted(d.store, t, normalize, first)
    requires Permitted(Settle(d, t, first).store, t, normalize, second)
    ensures second.Already? <==> t.tradeId in d.store.index && d.store.index[t.tradeId] == first.orderId
    ensures second.Matched? <==>
              && !second.Already?
              && (LinkedByOrderId(d.store, t)
                  || exists o :: o != first.orderId && SameSymbolAndSide(d.store, t, normalize, o))
    ensures second.Matched? && second.orderId == first.orderId && MandateOf(d.store, first.orderId).Some? ==>
              var m := MandateOf(d.store, first.orderId).value;
              TrackerOf(Settle(Settle(d, t, first), t, second).book, m).dailyPnl
              == TrackerOf(d.book, m).dailyPnl + 2.0 * t.realizedPnl
  {
    var st, st' := d.store, Settle(d, t, first).store;
    assert forall o | o != first.orderId ::
      SameSymbolAndSide(st', t, normalize, o) <==> SameSymbolAndSide(st, t, normalize, o);
    assert !SameSymbolAndSide(st', t, normalize, first.orderId);
    assert LinkedByOrderId(st', t) <==> LinkedByOrderId(st, t);
  }

  // ------------------------------------------------------------------
  // Repeating a whole sync
  // ------------------------------------------------------------------

  ghost predicate Candidate(st: Store, t: Trade, normalize: string -> string) {
    exists o :: SameSymbolAndSide(st, t, normalize, o)
  }

  /** The rules match this trade to some order. */
  ghost predicate WouldMatch(st: Store, t: Trade, normalize: string -> string) {
    !AlreadyFilled(st, t) && (LinkedByOrderId(st, t) || Candidate(st, t, normalize))
  }

  ghost predicate AnyMatched(outs: seq<Outcome>) {
    exists i :: 0 <= i < |outs| && outs[i].Matched?
  }

  ghost predicate AnyWouldMatch(st: Store, trades: seq<Trade>, normalize: string -> string) {
    exists i :: 0 <= i < |trades| && WouldMatch(st, trades[i], normalize)
  }

  lemma MatchedIffWouldMatch(st: Store, t: Trade, normalize: string -> string, out: Outcome)
    requires Permitted(st, t, normalize, out)
    ensures out.Matched? <==> WouldMatch(st, t, normalize)
  {
  }

  /** A sync matches something if and only if some trade of its list matches where the sync starts. */
  lemma {:induction false} SyncMatchesIff(d: Desk, trades: seq<Trade>, normalize: string -> string, outs: seq<Outcome>)
    requires Explains(d, trades, normalize, outs)
    ensures AnyMatched(outs) <==> AnyWouldMatch(d.store, trades, normalize)
    ensures !AnyMatched(outs) ==> SettleAll(d, trades, outs) == d
  {
    if trades != [] {
      var n := |trades| - 1;
      SyncMatchesIff(d, trades[..n], normalize, outs[..n]);
      MatchedIffWouldMatch(SettleAll(d, trades[..n], outs[..n]).store, trades[n], normalize, outs[n]);
      if AnyMatched(outs[..n]) {
        var i :| 0 <= i < n && outs[..n][i].Matched?;
        assert outs[i].Matched?;
        var j :| 0 <= j < n && WouldMatch(d.store, trades[..n][j], normalize);
        assert WouldMatch(d.store, trades[j], normalize);
      } else {
        assert forall i | 0 <= i < n :: outs[..n][i] == outs[i] && trades[..n][i] == trades[i];
      }
    }
  }

  /** The first sync filled the very order whose exchange id is this trade's own id. */
  predicate FilledUnderTradeId(st: Store, t: Trade, outs: seq<Outcome>) {
    t.tradeId in st.index && st.index[t.tradeId] in st.orders && Matched(st.index[t.tradeId]) in outs
  }

  /** What a settled sync did to the matching rules: its orders count as filled and are open no more. */
  lemma RulesAfterSync(d: Desk, d': Desk, trades: seq<Trade>, outs: seq<Outcome>, t: Trade, normalize: string -> string)
    requires |trades| == |outs| && Settled(d, d', trades, outs)
    ensures LinkedByOrderId(d'.store, t) <==> LinkedByOrderId(d.store, t)
    ensures AlreadyFilled(d'.store, t) <==> AlreadyFilled(d.store, t) || FilledUnderTradeId(d.store, t, outs)
    ensures forall o :: SameSymbolAndSide(d'.store, t, normalize, o)
                        <==> SameSymbolAndSide(d.store, t, normalize, o) && Matched(o) !in outs
  {
    forall o
      ensures SameSymbolAndSide(d'.store, t, normalize, o)
              <==> SameSymbolAndSide(d.store, t, normalize, o) && Matched(o) !in outs
    {
      if o in d.store.orders {
        FilledBySync(d, d', trades, outs, o);
      }
    }
    if t.tradeId in d.store.index && d.store.index[t.tradeId] in d.store.orders {
      FilledBySync(d, d', trades, outs, d.store.index[t.tradeId]);
    }
  }

  /** An open order on the trade's symbol and side that the first sync left over. */
  ghost predicate LeftOver(st: Store, t: Trade, normalize: string -> string, outs: seq<Outcome>) {
    exists o :: SameSymbolAndSide(st, t, normalize, o) && Matched(o) !in outs
  }

  /** What lets a trade match once more, read off the state before the first sync and its outcomes. */
  ghost predicate MatchesAgain(st: Store, t: Trade, normalize: string -> string, outs: seq<Outcome>) {
    && !AlreadyFilled(st, t) && !FilledUnderTradeId(st, t, outs)
    && (LinkedByOrderId(st, t) || LeftOver(st, t, normalize, outs))
  }

  lemma MatchesAgainMeans(d: Desk, d': Desk, trades: seq<Trade>, outs: seq<Outcome>, t: Trade,
                          normalize: string -> string)
    requires |trades| == |outs| && Settled(d, d', trades, outs)
    ensures WouldMatch(d'.store, t, normalize) <==> MatchesAgain(d.store, t, normalize, outs)
  {
    hide Settled, SameSymbolAndSide, AlreadyFilled, LinkedByOrderId, FilledUnderTradeId;
    RulesAfterSync(d, d', trades, outs, t, normalize);
    if Candidate(d'.store, t, normalize) {
      var o :| SameSymbolAndSide(d'.store, t, normalize, o);
      assert SameSymbolAndSide(d.store, t, normalize, o) && Matched(o) !in outs;
    }
    if LeftOver(d.store, t, normalize, outs) {
      var o :| SameSymbolAndSide(d.store, t, normalize, o) && Matched(o) !in outs;
      assert SameSymbolAndSide(d'.store, t, normalize, o);
    }
  }

  /**
   * Repeating a sync on the same list changes nothing, and matches nothing, if and only if none of
   * its trades matches again. What it books a second time is added to the mandates once more.
   */
  lemma RepeatedSyncIff(d: Desk, trades: seq<Trade>, normalize: string -> string, outs: seq<Outcome>,
                        again: seq<Outcome>)
    requires Explains(d, trades, normalize, outs)
    requires Explains(SettleAll(d, trades, outs), trades, normalize, again)
    ensures var once := SettleAll(d, trades, outs);
            var twice := SettleAll(once, trades, again);
            && (twice == once <==> !AnyMatched(again))
            && (AnyMatched(again) <==>
                  exists i :: 0 <= i < |trades| && MatchesAgain(d.store, trades[i], normalize, outs))
            && (forall m :: Raised(once.book, twice.book, m, OwedPnl(once.store, trades, again, m)))
  {
    var once := SettleAll(d, trades, outs);
    SyncConserves(d, trades, normalize, outs);
    SyncConserves(once, trades, normalize, again);
    SyncMatchesIff(once, trades, normalize, again);
    if i :| 0 <= i < |again| && again[i].Matched? {
      MatchOwesFill(trades, again, i);
    }
    forall i | 0 <= i < |trades|
      ensures WouldMatch(once.store, trades[i], normalize) <==> MatchesAgain(d.store, trades[i], normalize, outs)
    {
      MatchesAgainMeans(d, once, trades, outs, trades[i], normalize);
    }
  }

  lemma {:induction false} MatchOwesFill(trades: seq<Trade>, outs: seq<Outcome>, i: nat)
    requires |trades| == |outs| && i < |outs| && outs[i].Matched?
    ensures OwedFills(trades, outs) != []
  {
    if i < |outs| - 1 {
      MatchOwesFill(trades[..|trades| - 1], outs[..|outs| - 1], i);
    }
  }

  /** What does not match now does not match later in a sync: its rules only ever get stricter. */
  lemma MatchingShrinks(st: Store, st': Store, s: Trade, o: string, t: Trade, normalize: string -> string)
    requires st' == LiveStore(st, Fill(o, s.price, s.quantity))
    ensures WouldMatch(st', t, normalize) ==> WouldMatch(st, t, normalize)
  {
    if Candidate(st', t, normalize) {
      var p :| SameSymbolAndSide(st', t, normalize, p);
      assert SameSymbolAndSide(st, t, normalize, p);
    }
  }

  lemma {:induction false} MatchingShrinksOver(d: Desk, trades: seq<Trade>, outs: seq<Outcome>, i: nat, t: Trade,
                                               normalize: string -> string)
    requires i <= |trades| == |outs|
    ensures WouldMatch(SettleAll(d, trades, outs).store, t, normalize)
            ==> WouldMatch(SettleAll(d, trades[..i], outs[..i]).store, t, normalize)
  {
    if i == |trades| {
      assert trades[..i] == trades && outs[..i] == outs;
    } else {
      hide WouldMatch;
      var n := |trades| - 1;
      var before := SettleAll(d, trades[..n], outs[..n]);
      assert trades[..n][..i] == trades[..i] && outs[..n][..i] == outs[..i];
      MatchingShrinksOver(d, trades[..n], outs[..n], i, t, normalize);
      if outs[n].Matched? {
        MatchingShrinks(before.store, SettleAll(d, trades, outs).store, trades[n], outs[n].orderId, t, normalize);
      }
    }
  }

  lemma {:induction false} ExplainsAt(d: Desk, trades: seq<Trade>, normalize: string -> string, outs: seq<Outcome>,
                                      i: nat)
    requires Explains(d, trades, normalize, outs) && i < |trades|
    ensures Permitted(SettleAll(d, trades[..i], outs[..i]).store, trades[i], normalize, outs[i])
  {
    if i < |trades| - 1 {
      var n := |trades| - 1;
      ExplainsAt(d, trades[..n], normalize, outs[..n], i);
      assert trades[..n][..i] == trades[..i] && outs[..n][..i] == outs[..i];
    }
  }

  /** Whatever a repeated sync matches, the first one had matched too: it is booked twice. */
  lemma MatchedAgainWasMatched(d: Desk, trades: seq<Trade>, normalize: string -> string, outs: seq<Outcome>,
                               again: seq<Outcome>, i: nat)
    requires Explains(d, trades, normalize, outs)
    requires Explains(SettleAll(d, trades, outs), trades, normalize, again)
    requires i < |trades| && again[i].Matched?
    ensures outs[i].Matched?
  {
    var once := SettleAll(d, trades, outs);
    ExplainsAt(d, trades, normalize, outs, i);
    ExplainsAt(once, trades, normalize, again, i);
    MatchedIffWouldMatch(SettleAll(once, trades[..i], again[..i]).store, trades[i], normalize, again[i]);
    MatchedIffWouldMatch(SettleAll(d, trades[..i], outs[..i]).store, trades[i], normalize, outs[i]);
    MatchingShrinksOver(once, trades[..i], again[..i], 0, trades[i], normalize);
    assert trades[..i][..0] == [] && again[..i][..0] == [];
    MatchingShrinksOver(d, trades, outs, i, trades[i], normalize);
  }

  lemma {:induction false} ExplainsPrefix(d: Desk, trades: seq<Trade>, normalize: string -> string,
                                          outs: seq<Outcome>, i: nat)
    requires Explains(d, trades, normalize, outs) && i <= |trades|
    ensures Explains(d, trades[..i], normalize, outs[..i])
  {
    if i == |trades| {
      assert trades[..i] == trades && outs[..i] == outs;
    } else {
      var n := |trades| - 1;
      ExplainsPrefix(d, trades[..n], normalize, outs[..n], i);
      assert trades[..n][..i] == trades[..i] && outs[..n][..i] == outs[..i];
    }
  }

  lemma LinkedTradeMatches(d: Desk, trades: seq<Trade>, normalize: string -> string, outs: seq<Outcome>, i: nat)
    requires Explains(d, trades, normalize, outs) && i < |trades|
    requires LinkedByOrderId(d.store, trades[i]) && trades[i].tradeId !in d.store.index
    ensures outs[i] == Matched(d.store.index[trades[i].orderId])
  {
    ExplainsPrefix(d, trades, normalize, outs, i);
    SyncConserves(d, trades[..i], normalize, outs[..i]);
    ExplainsAt(d, trades, normalize, outs, i);
  }

  /** A trade that names a known order, under a trade id of its own, is booked by every sync that sees it. */
  lemma LinkedTradeBooksTwice(d: Desk, trades: seq<Trade>, normalize: string -> string, outs: seq<Outcome>,
                              again: seq<Outcome>, i: nat)
    requires Explains(d, trades, normalize, outs)
    requires Explains(SettleAll(d, trades, outs), trades, normalize, again)
    requires i < |trades| && LinkedByOrderId(d.store, trades[i]) && trades[i].tradeId !in d.store.index
    ensures outs[i] == again[i] == Matched(d.store.index[trades[i].orderId])
  {
    SyncConserves(d, trades, normalize, outs);
    LinkedTradeMatches(d, trades, normalize, outs, i);
    LinkedTradeMatches(SettleAll(d, trades, outs), trades, normalize, again, i);
  }

  /** A list that books twice: five of P&L become ten. */
  lemma SyncTwiceDoubles(normalize: string -> string)
    ensures exists d: Desk, trades: seq<Trade>, outs: seq<Outcome> ::
              && Explains(d, trades, normalize, outs)
              && Explains(SettleAll(d, trades, outs), trades, normalize, outs)
              && TrackerOf(SettleAll(d, trades, outs).book, "m").dailyPnl == 5.0
              && TrackerOf(SettleAll(SettleAll(d, trades, outs), trades, outs).book, "m").dailyPnl == 10.0
  {
    var order := Order("o", "s", "BTC", Buy, 1.0, None, 100.0, "", "", Some("m"), None, Submitted, 0);
    var d := Desk(Store(map["o" := Record(order, Some("x"), None, None, "v")], map["x" := "o"]), [], map[]);
    var t := Trade("t", "BTC", "buy", 100.0, 1.0, 5.0, "x");
    var trades, outs := [t], [Matched("o")];
    var once := Settle(d, t, Matched("o"));
    assert trades[..0] == [] && outs[..0] == [];
    assert SettleAll(d, trades, outs) == once;
    assert Permitted(d.store, t, normalize, outs[0]) && Permitted(once.store, t, normalize, outs[0]);
    assert Explains(d, [], normalize, []) && SettleAll(d, [], []) == d;
    assert Explains(once, [], normalize, []) && SettleAll(once, [], []) == once;
    assert Explains(d, trades, normalize, outs) && Explains(once, trades, normalize, outs);
    assert SettleAll(once, trades, outs) == Settle(once, t, Matched("o"));
  }

  // ------------------------------------------------------------------
  // The tracker object
  // ------------------------------------------------------------------

  lemma SettledAs(d: Desk, t: Trade, o: string, after: Desk)
    requires o in d.store.orders
    requires after.store == LiveStore(d.store, Fill(o, t.price, t.quantity))
    requires after.log == d.log + LiveEvents(d.store, Fill(o, t.price, t.quantity))
    requires after.book == Booked(d.book, d.store.orders[o].order.mandateId, t.realizedPnl)
    ensures after == Settle(d, t, Matched(o))
  {
  }

  /** The loop invariant of a sync: what the trades so far became, and where that left the desk. */
  ghost predicate Progress(start: Desk, trades: seq<Trade>, normalize: string -> string, outs: seq<Outcome>,
                           now: Desk, r: FillSyncResult) {
    Explains(start, trades, normalize, outs) && now == SettleAll(start, trades, outs) && r == Tally(outs)
  }

  lemma ProgressStep(start: Desk, trades: seq<Trade>, i: nat, normalize: string -> string, outs: seq<Outcome>,
                     now: Desk, r: FillSyncResult, out: Outcome, r': FillSyncResult)
    requires i < |trades| && Progress(start, trades[..i], normalize, outs, now, r)
    requires Permitted(now.store, trades[i], normalize, out)
    requires r' == FillSyncResult(r.matched + (if out.Matched? then 1 else 0),
                                  r.unmatched + (if out.Unmatched? then 1 else 0),
                                  r.alreadyFilled + (if out.Already? then 1 else 0), r.total + 1)
    ensures Progress(start, trades[..i + 1], normalize, outs + [out], Settle(now, trades[i], out), r')
  {
    assert trades[..i + 1][..i] == trades[..i] && (outs + [out])[..i] == outs;
  }

  class FillTracker {
    const orderStore: OrderStore
    const memory: SharedMemory
    const normalize: string -> string

    constructor (orderStore: OrderStore, memory: SharedMemory, normalize: string -> string)
      ensures this.orderStore == orderStore && this.memory == memory && this.normalize == normalize
    {
      this.orderStore := orderStore;
      this.memory := memory;
      this.normalize := normalize;
    }

    ghost function State(): Desk
      reads orderStore, orderStore.orders.Values, orderStore.eventStore, memory, memory.mandateTrackers.Values
    {
      Desk(orderStore.Contents(), orderStore.eventStore.events, memory.Ledger())
    }

    method MatchTradeToOrder(trade: Trade) returns (record: OrderRecord?)
      requires orderStore.Valid() && !AlreadyFilled(orderStore.Contents(), trade)
      ensures Permitted(orderStore.Contents(), trade, normalize,
                        if record == null then Unmatched else Matched(record.order.orderId))
      ensures record != null ==>
                record.order.orderId in orderStore.orders && record == orderStore.orders[record.order.orderId]
    {
      if trade.orderId != "" {
        record := orderStore.LookupExchangeId(trade.orderId);
        if record != null {
          return;
        }
      }
      var rest := orderStore.OpenOrderIds();
      ghost var candidates := rest;
      record := null;
      while rest != {}
        invariant rest <= candidates
        invariant forall o | o in candidates - rest :: !SameSymbolAndSide(orderStore.Contents(), trade, normalize, o)
        decreases rest
      {
        var o :| o in rest;
        var candidate := orderStore.orders[o];
        if && HasExchangeId(candidate.Value())
           && normalize(candidate.order.symbol) == normalize(trade.symbol)
           && Lower(SideValue(candidate.order.side)) == Lower(trade.side)
        {
          return candidate;
        }
        rest := rest - {o};
      }
    }

    /** Decides what a trade is: filled before, unmatched, or the fill of some order. */
    method Classify(trade: Trade) returns (out: Outcome)
      requires orderStore.Valid()
      ensures Permitted(orderStore.Contents(), trade, normalize, out)
      ensures out.Matched? ==> out.orderId in orderStore.orders
    {
      var existing := orderStore.LookupExchangeId(trade.tradeId);
      if existing != null && existing.fillPrice.Some? {
        return Already;
      }
      var record := MatchTradeToOrder(trade);
      out := if record == null then Unmatched else Matched(record.order.orderId);
    }

    /** Books a P&L to an order's mandate, if it has one. */
    method BookPnl(mandateId: Option<string>, pnl: real)
      requires memory.Valid()
      modifies memory`mandateTrackers, memory.mandateTrackers.Values
      ensures memory.Valid()
      ensures forall t | t in memory.mandateTrackers.Values :: t in old(memory.mandateTrackers.Values) || fresh(t)
      ensures memory.Ledger() == Booked(old(memory.Ledger()), mandateId, pnl)
      ensures unchanged(orderStore) && unchanged(orderStore.orders.Values) && unchanged(orderStore.eventStore)
    {
      if mandateId.Some? && mandateId.value != "" {
        memory.UpdateMandatePnl(mandateId.value, pnl);
      }
    }

    /** Records the fill, then books the trade's P&L. */
    method FillAndBook(record: OrderRecord, trade: Trade, ghost before: Desk, ghost o: string)
      requires orderStore.Valid() && memory.Valid() && before == State()
      requires o in orderStore.orders && record == orderStore.orders[o]
      modifies orderStore.orders.Values, orderStore.eventStore
      modifies memory`mandateTrackers, memory.mandateTrackers.Values
      ensures orderStore.Valid() && memory.Valid() && unchanged(orderStore)
      ensures forall t | t in memory.mandateTrackers.Values :: t in old(memory.mandateTrackers.Values) || fresh(t)
      ensures orderStore.Contents() == LiveStore(before.store, Fill(o, trade.price, trade.quantity))
      ensures orderStore.eventStore.events
           == before.log + LiveEvents(before.store, Fill(o, trade.price, trade.quantity))
      ensures memory.Ledger() == Booked(before.book, before.store.orders[o].order.mandateId, trade.realizedPnl)
    {
      var mandateId := record.order.mandateId;
      assert record.Value() == before.store.orders[o];
      var _ := orderStore.RecordFill(record.order.orderId, trade.price, trade.quantity);
      assert memory.Ledger() == before.book;
      BookPnl(mandateId, trade.realizedPnl);
    }

    /** Fills the order a trade was matched to, if it was matched. */
    method SyncTrade(trade: Trade, ghost before: Desk) returns (out: Outcome)
      requires orderStore.Valid() && memory.Valid() && before == State()
      modifies orderStore.orders.Values, orderStore.eventStore
      modifies memory`mandateTrackers, memory.mandateTrackers.Values
      ensures orderStore.Valid() && memory.Valid() && unchanged(orderStore)
      ensures forall t | t in memory.mandateTrackers.Values :: t in old(memory.mandateTrackers.Values) || fresh(t)
      ensures Permitted(before.store, trade, normalize, out)
      ensures State() == Settle(before, trade, out)
    {
      out := Classify(trade);
      if out.Matched? {
        FillAndBook(orderStore.orders[out.orderId], trade, before, out.orderId);
        SettledAs(before, trade, out.orderId, State());
      }
    }

    /** `sync_fills` on the trades the exchange returned; `outs` says what became of each. */
    method SyncFills(trades: seq<Trade>) returns (result: FillSyncResult, ghost outs: seq<Outcome>)
      requires orderStore.Valid() && memory.Valid()
      modifies orderStore.orders.Values, orderStore.eventStore
      modifies memory`mandateTrackers, memory.mandateTrackers.Values
      ensures orderStore.Valid() && memory.Valid() && unchanged(orderStore)
      ensures Explains(old(State()), trades, normalize, outs)
      ensures State() == SettleAll(old(State()), trades, outs)
      ensures result == Tally(outs)
      ensures result.matched + result.unmatched + result.alreadyFilled == result.total == |trades|
    {
      outs := [];
      ghost var start := State();
      var matched, unmatched, alreadyFilled := 0, 0, 0;
      for i := 0 to |trades|
        invariant orderStore.Valid() && memory.Valid() && unchanged(orderStore)
        invariant forall t | t in memory.mandateTrackers.Values :: t in old(memory.mandateTrackers.Values) || fresh(t)
        invariant Progress(start, trades[..i], normalize, outs, State(),
                           FillSyncResult(matched, unmatched, alreadyFilled, i))
      {
        ghost var now, r := State(), FillSyncResult(matched, unmatched, alreadyFilled, i);
        var out := SyncTrade(trades[i], now);
        match out {
          case Already => alreadyFilled := alreadyFilled + 1;
          case Unmatched => unmatched := unmatched + 1;
          case Matched(_) => matched := matched + 1;
        }
        ProgressStep(start, trades, i, normalize, outs, now, r, out,
                     FillSyncResult(matched, unmatched, alreadyFilled, i + 1));
        outs := outs + [out];
      }
      result := FillSyncResult(matched, unmatched, alreadyFilled, |trades|);
      assert trades[..|trades|] == trades;
      CountsSplit(trades, outs);
    }
  }
}
