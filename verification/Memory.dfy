/** Shared portfolio and mandate state (`aiswarm/orchestration/memory.py`). */
module Memory {
  import opened Common
  import opened Drift

  // ------------------------------------------------------------------
  // Mandate trackers, on values
  // ------------------------------------------------------------------

  datatype Tracker = Tracker(dailyPnl: real, peakNav: real, currentNav: real, grossExposure: real)

  const NEW_TRACKER := Tracker(0.0, 0.0, 0.0, 0.0)

  type Book = map<string, Tracker>

  function TrackerOf(book: Book, mandateId: string): Tracker {
    if mandateId in book then book[mandateId] else NEW_TRACKER
  }

  function DrawdownOf(t: Tracker): real {
    if t.peakNav <= 0.0 then 0.0 else (t.peakNav - t.currentNav) / t.peakNav
  }

  function AddPnl(t: Tracker, delta: real): Tracker {
    var nav := t.currentNav + delta;
    Tracker(t.dailyPnl + delta, if nav > t.peakNav then nav else t.peakNav, nav, t.grossExposure)
  }

  /** One call on the mandate book: a P&L update, or the daily reset at session start. */
  datatype BookOp = Pnl(mandateId: string, delta: real) | ResetDaily

  function BookStep(book: Book, op: BookOp): Book {
    match op
    case Pnl(m, delta) => book[m := AddPnl(TrackerOf(book, m), delta)]
    case ResetDaily => map m | m in book :: book[m].(dailyPnl := 0.0)
  }

  function BookRun(ops: seq<BookOp>): Book {
    if ops == [] then map[] else BookStep(BookRun(ops[..|ops| - 1]), ops[|ops| - 1])
  }

  /** All P&L ever booked to a mandate, in order. */
  function Deltas(ops: seq<BookOp>, mandateId: string): seq<real> {
    if ops == [] then []
    else
      var last := ops[|ops| - 1];
      Deltas(ops[..|ops| - 1], mandateId)
        + (if last.Pnl? && last.mandateId == mandateId then [last.delta] else [])
  }

  /** The calls after the last daily reset. */
  function Today(ops: seq<BookOp>): seq<BookOp> {
    if ops == [] || ops[|ops| - 1].ResetDaily? then []
    else Today(ops[..|ops| - 1]) + [ops[|ops| - 1]]
  }

  lemma DeltasAppend(ops: seq<BookOp>, op: BookOp, mandateId: string)
    ensures Deltas(ops + [op], mandateId)
         == if op.Pnl? && op.mandateId == mandateId then Deltas(ops, mandateId) + [op.delta] else Deltas(ops, mandateId)
  {
  }

  /** The parts of a tracker that P&L updates and resets determine. */
  ghost predicate Books(t: Tracker, today: seq<real>, deltas: seq<real>) {
    t.dailyPnl == Sum(today) && t.currentNav == Sum(deltas) && t.peakNav == Peak(deltas) && t.grossExposure == 0.0
  }

  lemma AddPnlBooks(t: Tracker, today: seq<real>, deltas: seq<real>, delta: real)
    requires Books(t, today, deltas)
    ensures Books(AddPnl(t, delta), today + [delta], deltas + [delta])
  {
  }

  lemma StepTracker(book: Book, op: BookOp, mandateId: string)
    ensures TrackerOf(BookStep(book, op), mandateId)
         == if op.ResetDaily? then TrackerOf(book, mandateId).(dailyPnl := 0.0)
            else if op.mandateId == mandateId then AddPnl(TrackerOf(book, mandateId), op.delta)
            else TrackerOf(book, mandateId)
  {
  }

  lemma {:induction false} TrackerBooks(ops: seq<BookOp>, mandateId: string)
    ensures Books(TrackerOf(BookRun(ops), mandateId), Deltas(Today(ops), mandateId), Deltas(ops, mandateId))
  {
    if ops != [] {
      hide AddPnl, TrackerOf, BookStep;
      var before, last := ops[..|ops| - 1], ops[|ops| - 1];
      assert ops == before + [last];
      TrackerBooks(before, mandateId);
      StepTracker(BookRun(before), last, mandateId);
      DeltasAppend(before, last, mandateId);
      if last.Pnl? {
        hide Books;
        DeltasAppend(Today(before), last, mandateId);
        AddPnlBooks(TrackerOf(BookRun(before), mandateId), Deltas(Today(before), mandateId), Deltas(before, mandateId),
                    last.delta);
      }
    }
  }

  /**
   * After any run of updates and resets a tracker is a function of what was booked to it: today's
   * sum, the overall sum, and the running peak of that sum. Its money drawdown is therefore the
   * downward CUSUM accumulator of the mandate's P&L.
   */
  lemma TrackerExplained(ops: seq<BookOp>, mandateId: string)
    ensures var t, deltas := TrackerOf(BookRun(ops), mandateId), Deltas(ops, mandateId);
            && t.dailyPnl == Sum(Deltas(Today(ops), mandateId))
            && t.currentNav == Sum(deltas)
            && t.peakNav == Peak(deltas) && t.grossExposure == 0.0
            && t.peakNav - t.currentNav == Accumulator(Falls(deltas, 0.0))
  {
    TrackerBooks(ops, mandateId);
    PeakGapIsCusum(Deltas(ops, mandateId));
  }

  /** A tracker's drawdown is the exact fraction below its peak, and zero while it never rose. */
  lemma MandateDrawdown(ops: seq<BookOp>, mandateId: string)
    ensures var t, deltas := TrackerOf(BookRun(ops), mandateId), Deltas(ops, mandateId);
            && (Peak(deltas) == 0.0 ==> DrawdownOf(t) == 0.0)
            && (Peak(deltas) > 0.0 ==>
                  DrawdownOf(t) * Peak(deltas) == Peak(deltas) - Sum(deltas) && DrawdownOf(t) >= 0.0)
            && Peak(deltas) >= 0.0
  {
    hide BookRun, Deltas;
    TrackerBooks(ops, mandateId);
    PeakBounds(Deltas(ops, mandateId));
    var t := TrackerOf(BookRun(ops), mandateId);
    if t.peakNav > 0.0 {
      FractionBelowPeak(t.peakNav, t.currentNav);
    }
  }

  lemma {:induction false} PeakBounds(deltas: seq<real>)
    ensures Peak(deltas) >= 0.0 && Peak(deltas) >= Sum(deltas)
  {
    if deltas != [] { PeakBounds(deltas[..|deltas| - 1]); }
  }

  lemma FractionBelowPeak(peak: real, nav: real)
    requires peak > 0.0 && nav <= peak
    ensures (peak - nav) / peak * peak == peak - nav && (peak - nav) / peak >= 0.0
  {
    var f := (peak - nav) / peak;
    assert f * peak == peak - nav;
    assert f < 0.0 ==> f * peak < 0.0;
  }

  // ------------------------------------------------------------------
  // Portfolio snapshots, on values
  // ------------------------------------------------------------------

  datatype Snapshot = Snapshot(nav: real, grossExposure: real)

  datatype Portfolio = Portfolio(latest: Option<Snapshot>, peakNav: real, rollingDrawdown: real, leverage: real)

  const NO_PORTFOLIO := Portfolio(None, 0.0, 0.0, 0.0)

  function Observe(p: Portfolio, s: Snapshot): Portfolio {
    var peak := if s.nav > p.peakNav then s.nav else p.peakNav;
    Portfolio(Some(s), peak,
              if peak > 0.0 then (peak - s.nav) / peak else p.rollingDrawdown,
              if s.nav > 0.0 then s.grossExposure / s.nav else p.leverage)
  }

  function ObserveAll(snapshots: seq<Snapshot>): Portfolio {
    if snapshots == [] then NO_PORTFOLIO
    else Observe(ObserveAll(snapshots[..|snapshots| - 1]), snapshots[|snapshots| - 1])
  }

  /** A snapshot carries a positive NAV, so the drawdown is the exact fraction below the highest NAV seen. */
  lemma {:induction false} DrawdownFromHighestNav(snapshots: seq<Snapshot>)
    requires snapshots != [] && forall s | s in snapshots :: s.nav > 0.0
    ensures var p, last := ObserveAll(snapshots), snapshots[|snapshots| - 1];
            && p.latest == Some(last)
            && (forall s | s in snapshots :: s.nav <= p.peakNav)
            && (exists s :: s in snapshots && s.nav == p.peakNav)
            && p.rollingDrawdown * p.peakNav == p.peakNav - last.nav
            && 0.0 <= p.rollingDrawdown < 1.0
            && p.leverage * last.nav == last.grossExposure
  {
    var before, last := snapshots[..|snapshots| - 1], snapshots[|snapshots| - 1];
    assert snapshots == before + [last];
    HighestNav(snapshots);
    FractionBelow(ObserveAll(snapshots).peakNav, last.nav);
  }

  lemma {:induction false} HighestNav(snapshots: seq<Snapshot>)
    requires snapshots != [] && forall s | s in snapshots :: s.nav > 0.0
    ensures var peak := ObserveAll(snapshots).peakNav;
            (forall s | s in snapshots :: s.nav <= peak) && (exists s :: s in snapshots && s.nav == peak)
  {
    var before, last := snapshots[..|snapshots| - 1], snapshots[|snapshots| - 1];
    assert snapshots == before + [last];
    assert last in snapshots;
    if before != [] {
      HighestNav(before);
      var best :| best in before && best.nav == ObserveAll(before).peakNav;
      assert best in snapshots;
    }
  }

  lemma FractionBelow(peak: real, nav: real)
    requires 0.0 < nav <= peak
    ensures (peak - nav) / peak * peak == peak - nav && 0.0 <= (peak - nav) / peak < 1.0
  {
    var f := (peak - nav) / peak;
    assert f * peak == peak - nav;
    assert f < 0.0 ==> f * peak < 0.0;
    assert f >= 1.0 ==> f * peak >= peak;
  }

  // ------------------------------------------------------------------
  // The mutable objects
  // ------------------------------------------------------------------

  class MandatePnLTracker {
    var dailyPnl: real
    var peakNav: real
    var currentNav: real
    var grossExposure: real

    constructor ()
      ensures Value() == NEW_TRACKER
    {
      dailyPnl, peakNav, currentNav, grossExposure := 0.0, 0.0, 0.0, 0.0;
    }

    function Value(): Tracker
      reads this
    {
      Tracker(dailyPnl, peakNav, currentNav, grossExposure)
    }

    method Add(delta: real)
      modifies this
      ensures Value() == AddPnl(old(Value()), delta)
    {
      dailyPnl := dailyPnl + delta;
      currentNav := currentNav + delta;
      if currentNav > peakNav {
        peakNav := currentNav;
      }
    }
  }

  class SharedMemory {
    var latestSnapshot: Option<Snapshot>
    var rollingDrawdown: real
    var currentLeverage: real
    var peakNav: real
    var mandateTrackers: map<string, MandatePnLTracker>

    constructor ()
      ensures Valid() && Ledger() == map[] && PortfolioState() == NO_PORTFOLIO
      ensures mandateTrackers == map[]
    {
      latestSnapshot, rollingDrawdown, currentLeverage, peakNav := None, 0.0, 0.0, 0.0;
      mandateTrackers := map[];
    }

    ghost predicate Valid()
      reads this
    {
      forall a, b | a in mandateTrackers && b in mandateTrackers && mandateTrackers[a] == mandateTrackers[b] :: a == b
    }

    ghost function Ledger(): Book
      reads this, mandateTrackers.Values
    {
      map m | m in mandateTrackers :: mandateTrackers[m].Value()
    }

    ghost function PortfolioState(): Portfolio
      reads this
    {
      Portfolio(latestSnapshot, peakNav, rollingDrawdown, currentLeverage)
    }

    method UpdateSnapshot(snapshot: Snapshot)
      modifies this`latestSnapshot, this`rollingDrawdown, this`currentLeverage, this`peakNav
      ensures PortfolioState() == Observe(old(PortfolioState()), snapshot)
    {
      latestSnapshot := Some(snapshot);
      if snapshot.nav > peakNav {
        peakNav := snapshot.nav;
      }
      if peakNav > 0.0 {
        rollingDrawdown := (peakNav - snapshot.nav) / peakNav;
      }
      if snapshot.nav > 0.0 {
        currentLeverage := snapshot.grossExposure / snapshot.nav;
      }
    }

    method GetMandateTracker(mandateId: string) returns (tracker: MandatePnLTracker)
      requires Valid()
      modifies this`mandateTrackers
      ensures Valid() && mandateId in mandateTrackers && tracker == mandateTrackers[mandateId]
      ensures forall t | t in mandateTrackers.Values :: t in old(mandateTrackers.Values) || fresh(t)
      ensures Ledger() == old(Ledger())[mandateId := TrackerOf(old(Ledger()), mandateId)]
    {
      if mandateId !in mandateTrackers {
        var created := new MandatePnLTracker();
        mandateTrackers := mandateTrackers[mandateId := created];
      }
      tracker := mandateTrackers[mandateId];
    }

    method UpdateMandatePnl(mandateId: string, pnlDelta: real)
      requires Valid()
      modifies this`mandateTrackers, mandateTrackers.Values
      ensures Valid()
      ensures forall t | t in mandateTrackers.Values :: t in old(mandateTrackers.Values) || fresh(t)
      ensures Ledger() == BookStep(old(Ledger()), Pnl(mandateId, pnlDelta))
    {
      hide AddPnl;
      var tracker := GetMandateTracker(mandateId);
      ghost var found := Ledger();
      assert found == old(Ledger())[mandateId := TrackerOf(old(Ledger()), mandateId)];
      tracker.Add(pnlDelta);
      forall m | m in mandateTrackers && m != mandateId
        ensures mandateTrackers[m].Value() == found[m]
      {
        assert mandateTrackers[m] != tracker;
      }
      assert Ledger() == found[mandateId := AddPnl(found[mandateId], pnlDelta)];
    }

    method ResetDailyMandatePnl()
      requires Valid()
      modifies mandateTrackers.Values
      ensures Ledger() == BookStep(old(Ledger()), ResetDaily)
    {
      var rest := mandateTrackers.Keys;
      while rest != {}
        invariant rest <= mandateTrackers.Keys
        invariant forall m | m in mandateTrackers ::
          mandateTrackers[m].Value() ==
            if m in rest then old(mandateTrackers[m].Value()) else old(mandateTrackers[m].Value()).(dailyPnl := 0.0)
        decreases rest
      {
        var m :| m in rest;
        mandateTrackers[m].dailyPnl := 0.0;
        rest := rest - {m};
      }
    }
  }
}
