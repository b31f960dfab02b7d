/** Performance-based agent weights (`aiswarm/evolution/darwinian.py`). */
module Darwinian {
  import opened Common
  import opened Ranking

  datatype Outcome = Outcome(agentId: string, signalId: string, direction: int, confidence: real,
                             expectedReturn: real, actualReturn: real, timestamp: real)

  /** `stat` is the Sharpe statistic of two or more returns; it is not interpreted here. */
  datatype Config = Config(window: real, minObservations: int, boost: real, decay: real,
                           minWeight: real, maxWeight: real, stat: seq<real> -> Sharpe)

  /** The weights keep the order in which agents were added, as a Python dictionary does. */
  datatype Manager = Manager(order: seq<string>, weights: map<string, real>,
                             outcomes: Journal, updates: nat)

  datatype Performance = Performance(agentId: string, sharpe: Sharpe, hitRate: real, trades: nat,
                                     weight: real, quartile: nat)

  ghost predicate Valid(m: Manager) {
    && (forall i | 0 <= i < |m.order| :: m.order[i] in m.weights)
    && (forall a | a in m.weights :: a in m.order)
    && (forall i, j | 0 <= i < j < |m.order| :: m.order[i] != m.order[j])
  }

  // ------------------------------------------------------------------
  // Reading outcomes
  // ------------------------------------------------------------------

  type Journal = map<string, seq<Outcome>>

  function OutcomesOf(journal: Journal, agent: string): seq<Outcome> {
    if agent in journal then journal[agent] else []
  }

  function Recent(outcomes: seq<Outcome>, cutoff: real): seq<Outcome> {
    if outcomes == [] then []
    else
      var before, last := Recent(outcomes[..|outcomes| - 1], cutoff), outcomes[|outcomes| - 1];
      if last.timestamp >= cutoff then before + [last] else before
  }

  function ConvictionReturns(outcomes: seq<Outcome>): seq<real> {
    if outcomes == [] then []
    else
      var last := outcomes[|outcomes| - 1];
      ConvictionReturns(outcomes[..|outcomes| - 1]) + [Times(last.actualReturn, last.confidence)]
  }

  function RollingSharpe(cfg: Config, m: Manager, agent: string, cutoff: real): Option<Sharpe> {
    var recent := Recent(OutcomesOf(m.outcomes, agent), cutoff);
    if |recent| < cfg.minObservations || |recent| < 2 then None
    else Some(cfg.stat(ConvictionReturns(recent)))
  }

  function Winners(outcomes: seq<Outcome>): nat {
    if outcomes == [] then 0
    else Winners(outcomes[..|outcomes| - 1]) + (if outcomes[|outcomes| - 1].actualReturn > 0.0 then 1 else 0)
  }

  function HitRate(m: Manager, agent: string, cutoff: real): real {
    var recent := Recent(OutcomesOf(m.outcomes, agent), cutoff);
    if recent == [] then 0.0 else Winners(recent) as real / |recent| as real
  }

  /** An agent with its Sharpe, neutral when there is too little data. */
  function EntryOf(cfg: Config, m: Manager, agent: string, cutoff: real): Entry {
    var s := RollingSharpe(cfg, m, agent, cutoff);
    Entry(agent, if s.None? then Fin(0.0) else s.value)
  }

  function EntriesUpTo(cfg: Config, m: Manager, cutoff: real, k: nat): (entries: seq<Entry>)
    requires k <= |m.order|
    ensures |entries| == k
  {
    if k == 0 then [] else EntriesUpTo(cfg, m, cutoff, k - 1) + [EntryOf(cfg, m, m.order[k - 1], cutoff)]
  }

  function Entries(cfg: Config, m: Manager, cutoff: real): seq<Entry> {
    EntriesUpTo(cfg, m, cutoff, |m.order|)
  }

  function GroupSize(n: nat): nat {
    if n / 4 >= 1 then n / 4 else 1
  }

  function Quartile(n: nat, rank: nat): nat {
    if rank < GroupSize(n) then 1
    else if rank >= n - GroupSize(n) then 4
    else if rank < n / 2 then 2 else 3
  }

  function PerformanceOf(m: Manager, e: Entry, cutoff: real, quartile: nat): Performance {
    Performance(e.agentId, e.sharpe, HitRate(m, e.agentId, cutoff), |Recent(OutcomesOf(m.outcomes, e.agentId), cutoff)|,
                if e.agentId in m.weights then m.weights[e.agentId] else 0.0, quartile)
  }

  function PerformancesUpTo(m: Manager, sorted: seq<Entry>, cutoff: real, k: nat): (perfs: seq<Performance>)
    requires k <= |sorted|
    ensures |perfs| == k
  {
    if k == 0 then []
    else
      PerformancesUpTo(m, sorted, cutoff, k - 1)
        + [PerformanceOf(m, sorted[k - 1], cutoff, Quartile(|sorted|, k - 1))]
  }

  function TableOf(m: Manager, sorted: seq<Entry>, cutoff: real): seq<Performance> {
    PerformancesUpTo(m, sorted, cutoff, |sorted|)
  }

  function Performances(cfg: Config, m: Manager, cutoff: real): seq<Performance> {
    TableOf(m, SortDescending(Entries(cfg, m, cutoff)), cutoff)
  }

  // ------------------------------------------------------------------
  // Operations
  // ------------------------------------------------------------------

  function Prune(m: Manager, cutoff: real): Manager {
    m.(outcomes := map a | a in m.outcomes :: Recent(m.outcomes[a], cutoff))
  }

  function Clamp(cfg: Config, w: real): real {
    Max(cfg.minWeight, Min(cfg.maxWeight, w))
  }

  function Factor(cfg: Config, quartile: nat): real {
    if quartile == 1 then cfg.boost else if quartile == 4 then cfg.decay else 1.0
  }

  function Scaled(cfg: Config, w: real, factor: real): real {
    Clamp(cfg, w * factor)
  }

  /** The weights after the first `k` performances have been applied. */
  function Reweigh(cfg: Config, weights: map<string, real>, perfs: seq<Performance>, k: nat): map<string, real>
    requires k <= |perfs|
  {
    if k == 0 then weights
    else
      var before, p := Reweigh(cfg, weights, perfs, k - 1), perfs[k - 1];
      if p.agentId in before
      then before[p.agentId := Scaled(cfg, before[p.agentId], Factor(cfg, p.quartile))] else before
  }

  function Reweighted(cfg: Config, m: Manager, cutoff: real): Manager {
    var perfs := Performances(cfg, m, cutoff);
    m.(weights := Reweigh(cfg, m.weights, perfs, |perfs|), updates := m.updates + 1)
  }

  /** Pruning at a cutoff, unless the manager is the one that never forgets. */
  function Kept(m: Manager, cutoff: real, pruning: bool): Manager {
    if pruning then Prune(m, cutoff) else m
  }

  function WorstUpTo(cfg: Config, m: Manager, cutoff: real, k: nat): (Option<string>, Sharpe)
    requires k <= |m.order|
  {
    if k == 0 then (None, Inf)
    else
      var (worst, bar) := WorstUpTo(cfg, m, cutoff, k - 1);
      var s := RollingSharpe(cfg, m, m.order[k - 1], cutoff);
      if s.Some? && Less(s.value, bar) then (Some(m.order[k - 1]), s.value) else (worst, bar)
  }

  function WorstAgent(cfg: Config, m: Manager, cutoff: real): Option<string> {
    WorstUpTo(cfg, m, cutoff, |m.order|).0
  }

  function WithWeight(m: Manager, agent: string, w: real): Manager {
    m.(order := if agent in m.weights then m.order else m.order + [agent], weights := m.weights[agent := w])
  }

  /** The agents of a list in order of first mention. */
  function Distinct(ids: seq<string>): seq<string> {
    if ids == [] then []
    else
      var before, last := Distinct(ids[..|ids| - 1]), ids[|ids| - 1];
      if last in before then before else before + [last]
  }

  function InitialWeight(initial: map<string, real>, agent: string): real {
    if agent in initial then initial[agent] else 1.0
  }

  datatype Op =
    | RecordOutcome(outcome: Outcome)
    | ComputePerformance(now: real)
    | UpdateWeights(now: real)
    | SetWeight(agent: string, weight: real)
    | AddAgent(agent: string, weight: real)

  /** One call. The reference manager, which never forgets, has `pruning` off. */
  function Step(cfg: Config, m: Manager, op: Op, pruning: bool): Manager {
    match op
    case RecordOutcome(o) => m.(outcomes := m.outcomes[o.agentId := OutcomesOf(m.outcomes, o.agentId) + [o]])
    case ComputePerformance(now) => Kept(m, now - cfg.window, pruning)
    case UpdateWeights(now) => Reweighted(cfg, Kept(m, now - cfg.window, pruning), now - cfg.window)
    case SetWeight(a, w) => WithWeight(m, a, Clamp(cfg, w))
    case AddAgent(a, w) => if a in m.weights then m else WithWeight(m, a, w)
  }

  function Run(cfg: Config, m: Manager, ops: seq<Op>, pruning: bool): Manager {
    if ops == [] then m else Step(cfg, Run(cfg, m, ops[..|ops| - 1], pruning), ops[|ops| - 1], pruning)
  }

  // ------------------------------------------------------------------
  // What an update does to the weights
  // ------------------------------------------------------------------

  lemma {:induction false} ReweighKeys(cfg: Config, weights: map<string, real>, perfs: seq<Performance>, k: nat)
    requires k <= |perfs|
    ensures Reweigh(cfg, weights, perfs, k).Keys == weights.Keys
  {
    if k > 0 { ReweighKeys(cfg, weights, perfs, k - 1); }
  }

  /** `perfs` lists the sorted entries with their quartiles, and every entry has its own weight. */
  ghost predicate Lists(perfs: seq<Performance>, entries: seq<Entry>, weights: map<string, real>) {
    && |perfs| == |entries|
    && (forall r | 0 <= r < |perfs| ::
          perfs[r].agentId == SortDescending(entries)[r].agentId && perfs[r].quartile == Quartile(|entries|, r))
    && (forall i | 0 <= i < |entries| :: entries[i].agentId in weights)
    && (forall i, j | 0 <= i < j < |entries| :: entries[i].agentId != entries[j].agentId)
  }

  /** After `k` turns of the loop exactly the `k` best-ranked agents have been reweighted. */
  lemma {:induction false} ReweighByRank(cfg: Config, weights: map<string, real>, perfs: seq<Performance>,
                                         entries: seq<Entry>, k: nat, i: nat)
    requires Lists(perfs, entries, weights) && i < |entries| && k <= |entries|
    ensures var rank, a := Rank(entries, i, |entries|), entries[i].agentId;
            var after := Reweigh(cfg, weights, perfs, k);
            && after.Keys == weights.Keys
            && after[a] ==
                 if rank < k then Scaled(cfg, weights[a], Factor(cfg, Quartile(|entries|, rank))) else weights[a]
    decreases k
  {
    ReweighKeys(cfg, weights, perfs, k);
    if k > 0 {
      var j := HolderOf(entries, k - 1);
      SortedByRank(entries, j);
      assert perfs[k - 1].agentId == entries[j].agentId;
      ReweighByRank(cfg, weights, perfs, entries, k - 1, i);
      ReweighKeys(cfg, weights, perfs, k - 1);
      if i != j {
        RanksOrder(entries, i, j);
      }
    }
  }

  /** The agents to boost: the best `GroupSize` by rank. */
  ghost function Top(entries: seq<Entry>): set<nat> {
    Ranked(entries, 0, GroupSize(|entries|))
  }

  /** The agents to decay: the worst `GroupSize` by rank, unless they are already boosted. */
  ghost function Bottom(entries: seq<Entry>): set<nat> {
    Ranked(entries, if |entries| == 1 then 1 else |entries| - GroupSize(|entries|), |entries|)
  }

  /**
   * The groups are what they claim: max(1, n/4) agents each, disjoint for two agents or more, nobody
   * outside the top has a better Sharpe than anybody in it, nor anybody outside the bottom a worse one.
   */
  lemma GroupsAreExtremes(entries: seq<Entry>)
    requires entries != []
    ensures var n, q := |entries|, GroupSize(|entries|);
            && |Top(entries)| == q && (n >= 2 ==> |Bottom(entries)| == q) && Top(entries) !! Bottom(entries)
            && (n < 4 ==> q == 1) && (n >= 4 ==> 4 * q <= n < 4 * (q + 1))
    ensures forall i, j | i in Top(entries) && 0 <= j < |entries| && j !in Top(entries) ::
              !Less(entries[i].sharpe, entries[j].sharpe)
    ensures forall i, j | i in Bottom(entries) && 0 <= j < |entries| && j !in Bottom(entries) ::
              !Less(entries[j].sharpe, entries[i].sharpe)
  {
    var n, q := |entries|, GroupSize(|entries|);
    RankedSize(entries, 0, q);
    if n >= 2 { RankedSize(entries, n - q, n); }
    forall i, j | i in Top(entries) && 0 <= j < n && j !in Top(entries)
      ensures !Less(entries[i].sharpe, entries[j].sharpe)
    {
      RanksOrder(entries, j, i);
    }
    forall i, j | i in Bottom(entries) && 0 <= j < n && j !in Bottom(entries)
      ensures !Less(entries[j].sharpe, entries[i].sharpe)
    {
      SortedByRank(entries, j);
      RanksOrder(entries, i, j);
    }
  }

  /** The factor that the quartile of an agent's rank stands for. */
  lemma FactorByGroup(cfg: Config, entries: seq<Entry>, i: nat)
    requires i < |entries|
    ensures Factor(cfg, Quartile(|entries|, Rank(entries, i, |entries|)))
         == if i in Top(entries) then cfg.boost else if i in Bottom(entries) then cfg.decay else 1.0
  {
    SortedByRank(entries, i);
  }

  lemma {:induction false} EntryAt(cfg: Config, m: Manager, cutoff: real, k: nat, i: nat)
    requires i < k <= |m.order|
    ensures EntriesUpTo(cfg, m, cutoff, k)[i] == EntryOf(cfg, m, m.order[i], cutoff)
  {
    if i < k - 1 { EntryAt(cfg, m, cutoff, k - 1, i); }
  }

  lemma {:induction false} PerformanceAt(m: Manager, sorted: seq<Entry>, cutoff: real, k: nat, r: nat)
    requires r < k <= |sorted|
    ensures PerformancesUpTo(m, sorted, cutoff, k)[r] == PerformanceOf(m, sorted[r], cutoff, Quartile(|sorted|, r))
  {
    if r < k - 1 { PerformanceAt(m, sorted, cutoff, k - 1, r); }
  }

  lemma PerformancesList(cfg: Config, m: Manager, cutoff: real)
    requires Valid(m)
    ensures Lists(Performances(cfg, m, cutoff), Entries(cfg, m, cutoff), m.weights)
    ensures forall i | 0 <= i < |m.order| :: Entries(cfg, m, cutoff)[i].agentId == m.order[i]
  {
    var entries := Entries(cfg, m, cutoff);
    var sorted := SortDescending(entries);
    forall i | 0 <= i < |m.order|
      ensures entries[i].agentId == m.order[i]
    {
      EntryAt(cfg, m, cutoff, |m.order|, i);
    }
    forall r | 0 <= r < |sorted|
      ensures Performances(cfg, m, cutoff)[r].agentId == sorted[r].agentId
      ensures Performances(cfg, m, cutoff)[r].quartile == Quartile(|entries|, r)
    {
      PerformanceAt(m, sorted, cutoff, |sorted|, r);
    }
  }

  lemma ReweightedByGroup(cfg: Config, m: Manager, cutoff: real, i: nat)
    requires Valid(m) && i < |m.order|
    ensures var entries, after := Entries(cfg, m, cutoff), Reweighted(cfg, m, cutoff);
            && after.weights.Keys == m.weights.Keys
            && after.weights[m.order[i]] == Scaled(cfg, m.weights[m.order[i]],
                 if i in Top(entries) then cfg.boost else if i in Bottom(entries) then cfg.decay else 1.0)
  {
    var entries, perfs := Entries(cfg, m, cutoff), Performances(cfg, m, cutoff);
    PerformancesList(cfg, m, cutoff);
    ReweighKeys(cfg, m.weights, perfs, |perfs|);
    ReweighByRank(cfg, m.weights, perfs, entries, |perfs|, i);
    SortedByRank(entries, i);
    FactorByGroup(cfg, entries, i);
  }

  /** One weight update boosts exactly the top group, decays exactly the bottom group, and clamps everybody. */
  lemma UpdateSelects(cfg: Config, m: Manager, now: real, pruning: bool, i: nat)
    requires Valid(m) && i < |m.order|
    ensures var entries := Entries(cfg, Kept(m, now - cfg.window, pruning), now - cfg.window);
            var after := Step(cfg, m, UpdateWeights(now), pruning);
            && after.order == m.order && after.weights.Keys == m.weights.Keys
            && after.weights[m.order[i]] == Scaled(cfg, m.weights[m.order[i]],
                 if i in Top(entries) then cfg.boost else if i in Bottom(entries) then cfg.decay else 1.0)
  {
    hide Performances;
    ReweightedByGroup(cfg, Kept(m, now - cfg.window, pruning), now - cfg.window, i);
  }

  lemma ReweightedValid(cfg: Config, m: Manager, cutoff: real)
    requires Valid(m)
    ensures Valid(Reweighted(cfg, m, cutoff))
  {
    var perfs := Performances(cfg, m, cutoff);
    ReweighKeys(cfg, m.weights, perfs, |perfs|);
  }

  lemma WithWeightValid(m: Manager, agent: string, w: real)
    requires Valid(m)
    ensures Valid(WithWeight(m, agent, w))
  {
  }

  function Ids(ids: seq<string>): set<string> {
    set a | a in ids
  }

  lemma IdsAppend(ids: seq<string>, a: string)
    ensures Ids(ids + [a]) == Ids(ids) + {a}
    ensures Distinct(ids + [a]) == if a in Distinct(ids) then Distinct(ids) else Distinct(ids) + [a]
  {
    assert (ids + [a])[..|ids|] == ids;
  }

  /** A new manager for these agents: listed in order of first mention, each with its initial weight. */
  ghost predicate Initialised(m: Manager, ids: seq<string>, initial: map<string, real>) {
    && Valid(m) && m.order == Distinct(ids) && m.outcomes == map[] && m.updates == 0
    && m.weights.Keys == Ids(ids)
    && (forall a | a in m.weights :: m.weights[a] == InitialWeight(initial, a))
  }

  lemma ListedIff(m: Manager, agent: string)
    requires Valid(m)
    ensures agent in m.order <==> agent in m.weights
  {
  }

  lemma NothingInitialised(initial: map<string, real>)
    ensures Initialised(Manager([], map[], map[], 0), [], initial)
  {
  }

  lemma InitialisedStep(m: Manager, ids: seq<string>, initial: map<string, real>, agent: string)
    requires Initialised(m, ids, initial)
    ensures Initialised(WithWeight(m, agent, InitialWeight(initial, agent)), ids + [agent], initial)
  {
    hide Valid, Ids, Distinct, InitialWeight;
    ListedIff(m, agent);
    WithWeightValid(m, agent, InitialWeight(initial, agent));
    IdsAppend(ids, agent);
  }

  /** Every operation keeps one weight per listed agent. */
  lemma StepKeepsValid(cfg: Config, m: Manager, op: Op, pruning: bool, m': Manager)
    requires Valid(m) && m' == Step(cfg, m, op, pruning)
    ensures Valid(m')
  {
    hide Performances;
    match op
    case RecordOutcome(_) =>
    case ComputePerformance(_) =>
    case UpdateWeights(now) => ReweightedValid(cfg, Kept(m, now - cfg.window, pruning), now - cfg.window);
    case SetWeight(a, w) => WithWeightValid(m, a, Clamp(cfg, w));
    case AddAgent(a, w) => WithWeightValid(m, a, w);
  }

  /** After an update every weight is within the bounds. */
  lemma UpdateClamps(cfg: Config, m: Manager, now: real, pruning: bool, agent: string)
    requires Valid(m) && agent in m.weights && cfg.minWeight <= cfg.maxWeight
    ensures var after := Step(cfg, m, UpdateWeights(now), pruning);
            agent in after.weights && cfg.minWeight <= after.weights[agent] <= cfg.maxWeight
  {
    var i :| 0 <= i < |m.order| && m.order[i] == agent;
    UpdateSelects(cfg, m, now, pruning, i);
  }

  lemma {:induction false} WorstMeaning(cfg: Config, m: Manager, cutoff: real, k: nat)
    requires k <= |m.order|
    ensures var (worst, bar) := WorstUpTo(cfg, m, cutoff, k);
            && (worst.None? ==> bar == Inf)
            && (forall i | 0 <= i < k ::
                  var s := RollingSharpe(cfg, m, m.order[i], cutoff); s.Some? ==> !Less(s.value, bar))
            && (worst.Some? ==>
                  exists i :: 0 <= i < k && worst == Some(m.order[i])
                    && RollingSharpe(cfg, m, m.order[i], cutoff) == Some(bar) && bar.Fin?
                    && forall j | 0 <= j < i ::
                         var s := RollingSharpe(cfg, m, m.order[j], cutoff); s.Some? ==> Less(bar, s.value))
  {
    if k > 0 {
      WorstMeaning(cfg, m, cutoff, k - 1);
      var (worst, bar) := WorstUpTo(cfg, m, cutoff, k - 1);
      var s := RollingSharpe(cfg, m, m.order[k - 1], cutoff);
      if s.Some? && Less(s.value, bar) {
        forall j | 0 <= j < k - 1
          ensures var t := RollingSharpe(cfg, m, m.order[j], cutoff); t.Some? ==> Less(s.value, t.value)
        {
        }
      } else if worst.Some? {
        var i :| 0 <= i < k - 1 && worst == Some(m.order[i])
                 && RollingSharpe(cfg, m, m.order[i], cutoff) == Some(bar) && bar.Fin?
                 && forall j | 0 <= j < i ::
                      var t := RollingSharpe(cfg, m, m.order[j], cutoff); t.Some? ==> Less(bar, t.value);
        assert 0 <= i < k;
      }
    }
  }

  /**
   * `get_worst_agent` names the first agent, in dictionary order, whose Sharpe is least among those
   * with enough data; nobody, exactly when no agent has enough data and a finite Sharpe.
   */
  lemma WorstIsFirstLeast(cfg: Config, m: Manager, cutoff: real)
    ensures WorstAgent(cfg, m, cutoff).None? <==>
              forall i | 0 <= i < |m.order| ::
                var s := RollingSharpe(cfg, m, m.order[i], cutoff); s.None? || s.value == Inf
    ensures WorstAgent(cfg, m, cutoff).Some? ==>
              exists i :: 0 <= i < |m.order| && WorstAgent(cfg, m, cutoff) == Some(m.order[i])
                && FirstLeast(cfg, m, cutoff, i)
  {
    WorstMeaning(cfg, m, cutoff, |m.order|);
    var (worst, bar) := WorstUpTo(cfg, m, cutoff, |m.order|);
    if worst.Some? {
      var i :| 0 <= i < |m.order| && worst == Some(m.order[i])
               && RollingSharpe(cfg, m, m.order[i], cutoff) == Some(bar) && bar.Fin?
               && forall j | 0 <= j < i ::
                    var t := RollingSharpe(cfg, m, m.order[j], cutoff); t.Some? ==> Less(bar, t.value);
      assert FirstLeast(cfg, m, cutoff, i);
    }
  }

  ghost predicate FirstLeast(cfg: Config, m: Manager, cutoff: real, i: nat)
    requires i < |m.order|
  {
    var s := RollingSharpe(cfg, m, m.order[i], cutoff);
    && s.Some? && s.value.Fin?
    && (forall j | 0 <= j < |m.order| ::
          var t := RollingSharpe(cfg, m, m.order[j], cutoff);
          t.Some? ==> !Less(t.value, s.value) && (j < i ==> Less(s.value, t.value)))
  }

  // ------------------------------------------------------------------
  // Pruning is invisible
  // ------------------------------------------------------------------

  /** The two managers agree on weights, and on every outcome that a cutoff from `floor` on can see. */
  ghost predicate SameView(p: Manager, f: Manager, floor: real) {
    && p.order == f.order && p.weights == f.weights && p.updates == f.updates
    && SameRecent(p.outcomes, f.outcomes, floor)
  }

  ghost predicate SameRecent(p: Journal, f: Journal, floor: real) {
    forall a, c {:trigger AgreeOn(p, f, a, c)} :: c >= floor ==> AgreeOn(p, f, a, c)
  }

  ghost predicate AgreeOn(p: Journal, f: Journal, agent: string, cutoff: real) {
    Recent(OutcomesOf(p, agent), cutoff) == Recent(OutcomesOf(f, agent), cutoff)
  }

  lemma {:induction false} RecentTwice(outcomes: seq<Outcome>, early: real, late: real)
    requires early <= late
    ensures Recent(Recent(outcomes, early), late) == Recent(outcomes, late)
  {
    if outcomes != [] {
      var before, last := outcomes[..|outcomes| - 1], outcomes[|outcomes| - 1];
      RecentTwice(before, early, late);
      RecentAppend(Recent(before, early), last, late);
    }
  }

  lemma RecentAppend(outcomes: seq<Outcome>, o: Outcome, c: real)
    ensures Recent(outcomes + [o], c) == if o.timestamp >= c then Recent(outcomes, c) + [o] else Recent(outcomes, c)
  {
  }

  lemma PruneSameRecent(p: Journal, f: Journal, floor: real, cutoff: real)
    requires SameRecent(p, f, floor) && floor <= cutoff
    ensures SameRecent(map a | a in p :: Recent(p[a], cutoff), f, cutoff)
  {
    var p' := map a | a in p :: Recent(p[a], cutoff);
    forall a, c | c >= cutoff
      ensures AgreeOn(p', f, a, c)
    {
      RecentTwice(OutcomesOf(p, a), cutoff, c);
      assert AgreeOn(p, f, a, c);
      assert OutcomesOf(p', a) == Recent(OutcomesOf(p, a), cutoff);
    }
  }

  lemma RecordSameRecent(p: Journal, f: Journal, floor: real, o: Outcome)
    requires SameRecent(p, f, floor)
    ensures SameRecent(p[o.agentId := OutcomesOf(p, o.agentId) + [o]],
                       f[o.agentId := OutcomesOf(f, o.agentId) + [o]], floor)
  {
    var p', f' := p[o.agentId := OutcomesOf(p, o.agentId) + [o]], f[o.agentId := OutcomesOf(f, o.agentId) + [o]];
    forall a, c | c >= floor
      ensures AgreeOn(p', f', a, c)
    {
      assert AgreeOn(p, f, a, c);
      RecentAppend(OutcomesOf(p, o.agentId), o, c);
      RecentAppend(OutcomesOf(f, o.agentId), o, c);
    }
  }

  lemma PruneSameView(p: Manager, f: Manager, floor: real, cutoff: real)
    requires SameView(p, f, floor) && floor <= cutoff
    ensures SameView(Prune(p, cutoff), f, cutoff)
  {
    PruneSameRecent(p.outcomes, f.outcomes, floor, cutoff);
  }

  lemma {:induction false} SameEntries(cfg: Config, p: Manager, f: Manager, cutoff: real, k: nat)
    requires SameView(p, f, cutoff) && k <= |p.order|
    ensures EntriesUpTo(cfg, p, cutoff, k) == EntriesUpTo(cfg, f, cutoff, k)
    ensures WorstUpTo(cfg, p, cutoff, k) == WorstUpTo(cfg, f, cutoff, k)
  {
    if k > 0 {
      SameEntries(cfg, p, f, cutoff, k - 1);
      assert AgreeOn(p.outcomes, f.outcomes, p.order[k - 1], cutoff);
    }
  }

  lemma {:induction false} SameTable(p: Manager, f: Manager, sorted: seq<Entry>, cutoff: real, k: nat)
    requires SameView(p, f, cutoff) && k <= |sorted|
    ensures PerformancesUpTo(p, sorted, cutoff, k) == PerformancesUpTo(f, sorted, cutoff, k)
  {
    if k > 0 {
      SameTable(p, f, sorted, cutoff, k - 1);
      assert AgreeOn(p.outcomes, f.outcomes, sorted[k - 1].agentId, cutoff);
    }
  }

  /** Everything a manager reports: its weights, performance table and worst agent. */
  datatype Report = Report(order: seq<string>, weights: map<string, real>, updates: nat,
                           performances: seq<Performance>, worst: Option<string>)

  function ReportOf(cfg: Config, m: Manager, cutoff: real): Report {
    Report(m.order, m.weights, m.updates, Performances(cfg, m, cutoff), WorstAgent(cfg, m, cutoff))
  }

  /** Managers with the same view compute the same performances and name the same worst agent. */
  lemma SameViewSameAnswers(cfg: Config, p: Manager, f: Manager, floor: real, cutoff: real)
    requires SameView(p, f, floor) && floor <= cutoff
    ensures ReportOf(cfg, p, cutoff) == ReportOf(cfg, f, cutoff)
  {
    assert SameView(p, f, cutoff);
    SameEntries(cfg, p, f, cutoff, |p.order|);
    var sorted := SortDescending(Entries(cfg, p, cutoff));
    SameTable(p, f, sorted, cutoff, |sorted|);
  }

  predicate Timed(op: Op) {
    op.ComputePerformance? || op.UpdateWeights?
  }

  /** The cutoff of the latest call that looked at the clock. */
  function Floor(cfg: Config, start: real, ops: seq<Op>): real {
    if ops == [] then start
    else if Timed(ops[|ops| - 1]) then ops[|ops| - 1].now - cfg.window
    else Floor(cfg, start, ops[..|ops| - 1])
  }

  /** The clock never runs backwards over the run. */
  predicate ClockForward(cfg: Config, start: real, ops: seq<Op>) {
    ops == [] ||
    (ClockForward(cfg, start, ops[..|ops| - 1])
     && (Timed(ops[|ops| - 1]) ==> Floor(cfg, start, ops[..|ops| - 1]) <= ops[|ops| - 1].now - cfg.window))
  }

  lemma ReweightedSameView(cfg: Config, p: Manager, f: Manager, cutoff: real)
    requires SameView(p, f, cutoff)
    ensures SameView(Reweighted(cfg, p, cutoff), Reweighted(cfg, f, cutoff), cutoff)
  {
    SameViewSameAnswers(cfg, p, f, cutoff, cutoff);
  }

  lemma UpdateSameView(cfg: Config, p: Manager, f: Manager, floor: real, cutoff: real)
    requires SameView(p, f, floor) && floor <= cutoff
    ensures SameView(Reweighted(cfg, Kept(p, cutoff, true), cutoff),
                     Reweighted(cfg, Kept(f, cutoff, false), cutoff), cutoff)
  {
    PruneSameView(p, f, floor, cutoff);
    ReweightedSameView(cfg, Kept(p, cutoff, true), f, cutoff);
  }

  lemma StepSameView(cfg: Config, p: Manager, f: Manager, floor: real, op: Op, p': Manager, f': Manager)
    requires SameView(p, f, floor)
    requires Timed(op) ==> floor <= op.now - cfg.window
    requires p' == Step(cfg, p, op, true) && f' == Step(cfg, f, op, false)
    ensures SameView(p', f', if Timed(op) then op.now - cfg.window else floor)
  {
    hide Performances;
    match op
    case RecordOutcome(o) =>
      RecordSameRecent(p.outcomes, f.outcomes, floor, o);
      assert SameRecent(p'.outcomes, f'.outcomes, floor);
    case ComputePerformance(now) =>
      PruneSameView(p, f, floor, now - cfg.window);
      assert p' == Prune(p, now - cfg.window) && f' == f;
    case UpdateWeights(now) =>
      UpdateSameView(cfg, p, f, floor, now - cfg.window);
    case SetWeight(_, _) =>
      assert p'.outcomes == p.outcomes && f'.outcomes == f.outcomes;
    case AddAgent(_, _) =>
      assert p'.outcomes == p.outcomes && f'.outcomes == f.outcomes;
  }

  lemma {:induction false} RunSameView(cfg: Config, m: Manager, ops: seq<Op>, start: real)
    requires ClockForward(cfg, start, ops)
    ensures SameView(Run(cfg, m, ops, true), Run(cfg, m, ops, false), Floor(cfg, start, ops))
  {
    if ops != [] {
      var before := ops[..|ops| - 1];
      RunSameView(cfg, m, before, start);
      StepSameView(cfg, Run(cfg, m, before, true), Run(cfg, m, before, false), Floor(cfg, start, before),
                   ops[|ops| - 1],
                   Run(cfg, m, ops, true), Run(cfg, m, ops, false));
    }
  }

  ghost predicate SameReport(cfg: Config, p: Manager, f: Manager, cutoff: real) {
    ReportOf(cfg, p, cutoff) == ReportOf(cfg, f, cutoff)
  }

  /** No question asked at cutoff `floor` or later tells the two managers apart. */
  ghost predicate Indistinguishable(cfg: Config, p: Manager, f: Manager, floor: real) {
    forall c {:trigger SameReport(cfg, p, f, c)} :: c >= floor ==> SameReport(cfg, p, f, c)
  }

  lemma SameViewIndistinguishable(cfg: Config, p: Manager, f: Manager, floor: real)
    requires SameView(p, f, floor)
    ensures Indistinguishable(cfg, p, f, floor)
  {
    forall c | c >= floor
      ensures SameReport(cfg, p, f, c)
    {
      SameViewSameAnswers(cfg, p, f, floor, c);
    }
  }

  /**
   * Throwing old outcomes away changes nothing: after any run under a non-decreasing clock, the
   * weights, the performance table and the worst agent are, now and at any later time, those of a
   * manager that keeps every outcome for ever.
   */
  lemma PruningInvisible(cfg: Config, m: Manager, ops: seq<Op>, start: real)
    requires ClockForward(cfg, start, ops)
    ensures Indistinguishable(cfg, Run(cfg, m, ops, true), Run(cfg, m, ops, false), Floor(cfg, start, ops))
  {
    RunSameView(cfg, m, ops, start);
    SameViewIndistinguishable(cfg, Run(cfg, m, ops, true), Run(cfg, m, ops, false), Floor(cfg, start, ops));
  }

  // ------------------------------------------------------------------
  // What the numbers are
  // ------------------------------------------------------------------

  lemma {:induction false} ConvictionAt(outcomes: seq<Outcome>, i: nat)
    requires i < |outcomes|
    ensures |ConvictionReturns(outcomes)| == |outcomes|
    ensures ConvictionReturns(outcomes)[i] == outcomes[i].actualReturn * outcomes[i].confidence
  {
    var n := |outcomes| - 1;
    if i < n {
      ConvictionAt(outcomes[..n], i);
    } else if n > 0 {
      ConvictionAt(outcomes[..n], 0);
    }
  }

  ghost function Winning(outcomes: seq<Outcome>): set<int> {
    set i | 0 <= i < |outcomes| && outcomes[i].actualReturn > 0.0
  }

  lemma {:induction false} WinnersCount(outcomes: seq<Outcome>)
    ensures Winners(outcomes) == |Winning(outcomes)|
  {
    if outcomes != [] {
      var n := |outcomes| - 1;
      WinnersCount(outcomes[..n]);
      assert Winning(outcomes) == Winning(outcomes[..n]) + (if outcomes[n].actualReturn > 0.0 then {n} else {});
    }
  }

  /** The outcomes of an agent that a run recorded, in order. */
  function Recorded(ops: seq<Op>, agent: string): seq<Outcome> {
    if ops == [] then []
    else
      var last := ops[|ops| - 1];
      Recorded(ops[..|ops| - 1], agent)
        + (if last.RecordOutcome? && last.outcome.agentId == agent then [last.outcome] else [])
  }

  lemma ReweightedKeepsOutcomes(cfg: Config, m: Manager, cutoff: real)
    ensures Reweighted(cfg, m, cutoff).outcomes == m.outcomes
  {
  }

  /** Without pruning the journal of an agent is all that was ever recorded for it. */
  lemma {:induction false} JournalIsRecord(cfg: Config, m: Manager, ops: seq<Op>, agent: string)
    ensures OutcomesOf(Run(cfg, m, ops, false).outcomes, agent) == OutcomesOf(m.outcomes, agent) + Recorded(ops, agent)
  {
    if ops != [] {
      hide Reweighted, Performances;
      var n := |ops| - 1;
      var before := Run(cfg, m, ops[..n], false);
      JournalIsRecord(cfg, m, ops[..n], agent);
      if ops[n].UpdateWeights? {
        ReweightedKeepsOutcomes(cfg, before, ops[n].now - cfg.window);
      }
    }
  }

  /** The weight updates of a run. */
  function Updates(ops: seq<Op>): nat {
    if ops == [] then 0 else Updates(ops[..|ops| - 1]) + (if ops[|ops| - 1].UpdateWeights? then 1 else 0)
  }

  /** The update counter counts them, and nothing else. */
  lemma {:induction false} UpdatesCounted(cfg: Config, m: Manager, ops: seq<Op>, pruning: bool)
    ensures Run(cfg, m, ops, pruning).updates == m.updates + Updates(ops)
  {
    hide Performances, Reweigh;
    if ops != [] {
      UpdatesCounted(cfg, m, ops[..|ops| - 1], pruning);
    }
  }

  /**
   * An agent's rolling Sharpe, after any run of the pruning manager, is the statistic of all outcomes
   * ever recorded for it from the cutoff on, and none with fewer than two or the configured minimum.
   */
  lemma SharpeOverRun(cfg: Config, m: Manager, ops: seq<Op>, start: real, agent: string, cutoff: real)
    requires ClockForward(cfg, start, ops) && cutoff >= Floor(cfg, start, ops)
    ensures var seen := Recent(OutcomesOf(m.outcomes, agent) + Recorded(ops, agent), cutoff);
            RollingSharpe(cfg, Run(cfg, m, ops, true), agent, cutoff)
            == if |seen| >= 2 && |seen| >= cfg.minObservations then Some(cfg.stat(ConvictionReturns(seen))) else None
  {
    hide Run, SameView;
    RunSameView(cfg, m, ops, start);
    JournalIsRecord(cfg, m, ops, agent);
    ViewAgrees(Run(cfg, m, ops, true), Run(cfg, m, ops, false), Floor(cfg, start, ops), agent, cutoff);
  }

  lemma ViewAgrees(p: Manager, f: Manager, floor: real, agent: string, cutoff: real)
    requires SameView(p, f, floor) && cutoff >= floor
    ensures Recent(OutcomesOf(p.outcomes, agent), cutoff) == Recent(OutcomesOf(f.outcomes, agent), cutoff)
  {
    assert AgreeOn(p.outcomes, f.outcomes, agent, cutoff);
  }

  /** The row of the agent with rank `r` in the performance table. */
  ghost predicate RowSays(cfg: Config, m: Manager, cutoff: real, row: Performance, agent: string, r: nat) {
    var recent, n := Recent(OutcomesOf(m.outcomes, agent), cutoff), |m.order|;
    && row.agentId == agent && agent in m.weights && row.weight == m.weights[agent]
    && row.sharpe == (match RollingSharpe(cfg, m, agent, cutoff) case Some(x) => x case None => Fin(0.0))
    && row.trades == |recent| && row.hitRate * row.trades as real == |Winning(recent)| as real
    && (recent == [] ==> row.hitRate == 0.0)
    && (row.quartile == 1 <==> r == 0 || 4 * (r + 1) <= n)
    && (row.quartile == 4 <==> r > 0 && (r == n - 1 || 4 * (n - r) <= n))
    && (row.quartile == 2 <==> r > 0 && 4 * (r + 1) > n && 2 * r + 1 < n && !(r == n - 1 || 4 * (n - r) <= n))
    && 1 <= row.quartile <= 4
  }

  lemma QuartileBounds(n: nat, r: nat)
    requires r < n
    ensures var k := Quartile(n, r);
            && (k == 1 <==> r == 0 || 4 * (r + 1) <= n)
            && (k == 4 <==> r > 0 && (r == n - 1 || 4 * (n - r) <= n))
            && (k == 2 <==> r > 0 && 4 * (r + 1) > n && 2 * r + 1 < n && !(r == n - 1 || 4 * (n - r) <= n))
            && 1 <= k <= 4
  {
    if r > 0 && 4 * (r + 1) <= n {
      assert 4 * (r + 1) > n || r + 1 <= n / 4;
    }
  }

  lemma HitRateMeans(m: Manager, agent: string, cutoff: real)
    ensures var recent := Recent(OutcomesOf(m.outcomes, agent), cutoff);
            && HitRate(m, agent, cutoff) * |recent| as real == |Winning(recent)| as real
            && (recent == [] ==> HitRate(m, agent, cutoff) == 0.0)
  {
    WinnersCount(Recent(OutcomesOf(m.outcomes, agent), cutoff));
  }

  lemma RowAt(cfg: Config, m: Manager, cutoff: real, i: nat)
    requires i < |m.order|
    ensures var entries, perfs := Entries(cfg, m, cutoff), Performances(cfg, m, cutoff);
            && |entries| == |perfs| == |m.order|
            && var r := Rank(entries, i, |entries|);
               && r < |perfs|
               && perfs[r] == PerformanceOf(m, EntryOf(cfg, m, m.order[i], cutoff), cutoff, Quartile(|m.order|, r))
  {
    hide Quartile, SortDescending, Rank, EntryOf, PerformanceOf;
    var entries := Entries(cfg, m, cutoff);
    var r, sorted := Rank(entries, i, |entries|), SortDescending(entries);
    EntryAt(cfg, m, cutoff, |m.order|, i);
    SortedByRank(entries, i);
    PerformanceAt(m, sorted, cutoff, |sorted|, r);
  }

  lemma RowMeans(cfg: Config, m: Manager, cutoff: real, agent: string, r: nat)
    requires agent in m.weights && r < |m.order|
    ensures RowSays(cfg, m, cutoff,
                    PerformanceOf(m, EntryOf(cfg, m, agent, cutoff), cutoff, Quartile(|m.order|, r)), agent, r)
  {
    hide Quartile, HitRate, Winning, RollingSharpe, Recent;
    QuartileBounds(|m.order|, r);
    HitRateMeans(m, agent, cutoff);
  }

  /** The performance table, row by row: the agent that is `r`-th best stands in row `r`. */
  lemma TableRow(cfg: Config, m: Manager, cutoff: real, i: nat)
    requires Valid(m) && i < |m.order|
    ensures var entries, perfs := Entries(cfg, m, cutoff), Performances(cfg, m, cutoff);
            && |entries| == |perfs| == |m.order|
            && var r := Rank(entries, i, |entries|);
               r < |perfs| && RowSays(cfg, m, cutoff, perfs[r], m.order[i], r)
  {
    hide RowSays, Performances, PerformanceOf, Quartile, Rank, EntryOf;
    RowAt(cfg, m, cutoff, i);
    RowMeans(cfg, m, cutoff, m.order[i], Rank(Entries(cfg, m, cutoff), i, |m.order|));
  }

  // ------------------------------------------------------------------
  // How weights move
  // ------------------------------------------------------------------

  /** `v` is `x`, kept within the bounds; the lower one wins if they cross. */
  predicate Bounded(cfg: Config, x: real, v: real) {
    if x < cfg.minWeight || cfg.maxWeight < cfg.minWeight then v == cfg.minWeight
    else if x > cfg.maxWeight then v == cfg.maxWeight else v == x
  }

  /**
   * A weight multiplied by a factor and kept within the bounds. A positive weight strictly inside
   * them rises with a factor above one, falls with one below, and stays otherwise.
   */
  ghost predicate Moved(cfg: Config, w: real, factor: real, w': real) {
    && Bounded(cfg, w * factor, w')
    && (w > 0.0 && cfg.minWeight < w < cfg.maxWeight ==>
          && (factor > 1.0 ==> w' > w) && (factor < 1.0 ==> w' < w) && (factor == 1.0 ==> w' == w))
  }

  lemma ScaledMoves(cfg: Config, w: real, factor: real)
    ensures Moved(cfg, w, factor, Scaled(cfg, w, factor))
  {
    assert w * factor - w == w * (factor - 1.0);
  }

  /** The factor of an agent's group: the boost at the top, the decay at the bottom, one in between. */
  ghost function GroupFactor(cfg: Config, entries: seq<Entry>, i: nat): real {
    if i in Top(entries) then cfg.boost else if i in Bottom(entries) then cfg.decay else 1.0
  }

  /** What one update does to every weight. */
  lemma UpdateMoves(cfg: Config, m: Manager, now: real, pruning: bool, i: nat)
    requires Valid(m) && i < |m.order|
    ensures var a, entries := m.order[i], Entries(cfg, Kept(m, now - cfg.window, pruning), now - cfg.window);
            var after := Step(cfg, m, UpdateWeights(now), pruning);
            && a in after.weights
            && Moved(cfg, m.weights[a], GroupFactor(cfg, entries, i), after.weights[a])
  {
    hide Step, Top, Bottom, Scaled, Entries, Moved;
    var entries := Entries(cfg, Kept(m, now - cfg.window, pruning), now - cfg.window);
    UpdateSelects(cfg, m, now, pruning, i);
    ScaledMoves(cfg, m.weights[m.order[i]], GroupFactor(cfg, entries, i));
  }

  /** Setting a weight keeps it within the bounds; adding an agent does not. Nobody else is touched. */
  lemma WeightsSet(cfg: Config, m: Manager, agent: string, w: real, pruning: bool)
    ensures var after := Step(cfg, m, SetWeight(agent, w), pruning);
            && agent in after.weights && Bounded(cfg, w, after.weights[agent])
            && after.weights == m.weights[agent := after.weights[agent]]
            && after.outcomes == m.outcomes && after.updates == m.updates
    ensures var after := Step(cfg, m, AddAgent(agent, w), pruning);
            if agent in m.weights then after == m
            else after.weights == m.weights[agent := w] && after.order == m.order + [agent]
                 && after.outcomes == m.outcomes && after.updates == m.updates
  {
  }
}
