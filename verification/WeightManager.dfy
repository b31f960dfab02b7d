/** `DarwinianWeightManager` itself (`aiswarm/evolution/darwinian.py`), proved against `Darwinian`. */
module WeightManagers {
  import opened Common
  import opened Ranking
  import D = Darwinian

  class DarwinianWeightManager {
    const cfg: D.Config
    var order: seq<string>
    var weights: map<string, real>
    var outcomes: D.Journal
    var updateCount: nat

    function State(): D.Manager
      reads this
    {
      D.Manager(order, weights, outcomes, updateCount)
    }

    /** Every listed agent once, in order of first mention, with its initial weight or 1.0. */
    constructor (cfg: D.Config, agentIds: seq<string>, initialWeights: map<string, real>)
      ensures D.Valid(State()) && outcomes == map[] && updateCount == 0 && this.cfg == cfg
      ensures order == D.Distinct(agentIds)
      ensures forall a :: a in weights <==> a in agentIds
      ensures forall a | a in weights :: weights[a] == if a in initialWeights then initialWeights[a] else 1.0
    {
      this.cfg := cfg;
      order, weights, outcomes, updateCount := [], map[], map[], 0;
      new;
      Initialise(agentIds, initialWeights);
    }

    /** The constructor's loop. */
    method Initialise(agentIds: seq<string>, initialWeights: map<string, real>)
      requires State() == D.Manager([], map[], map[], 0)
      modifies this`order, this`weights
      ensures D.Initialised(State(), agentIds, initialWeights)
    {
      hide D.Valid, D.Distinct;
      assert D.Initialised(State(), [], initialWeights) by {
        D.NothingInitialised(initialWeights);
      }
      hide D.Initialised;
      for i := 0 to |agentIds|
        invariant D.Initialised(State(), agentIds[..i], initialWeights)
      {
        var a := agentIds[i];
        D.InitialisedStep(State(), agentIds[..i], initialWeights, a);
        assert agentIds[..i + 1] == agentIds[..i] + [a];
        if a !in weights {
          order := order + [a];
        }
        weights := weights[a := if a in initialWeights then initialWeights[a] else 1.0];
      }
      assert agentIds[..|agentIds|] == agentIds;
    }

    method RecordOutcome(outcome: D.Outcome)
      modifies this`outcomes
      ensures State() == D.Step(cfg, old(State()), D.RecordOutcome(outcome), true)
    {
      var a := outcome.agentId;
      if a !in outcomes {
        outcomes := outcomes[a := []];
      }
      outcomes := outcomes[a := outcomes[a] + [outcome]];
    }

    method PruneOldOutcomes(cutoff: real)
      modifies this`outcomes
      ensures State() == D.Prune(old(State()), cutoff)
    {
      var rest := outcomes.Keys;
      while rest != {}
        invariant rest <= outcomes.Keys == old(outcomes).Keys
        invariant forall a | a in outcomes ::
          outcomes[a] == if a in rest then old(outcomes)[a] else D.Recent(old(outcomes)[a], cutoff)
        decreases rest
      {
        var a :| a in rest;
        outcomes := outcomes[a := D.Recent(outcomes[a], cutoff)];
        rest := rest - {a};
      }
      assert outcomes == D.Prune(old(State()), cutoff).outcomes;
    }

    /** Each agent with its rolling Sharpe, in dictionary order. */
    method CollectSharpes(cutoff: real) returns (entries: seq<Entry>)
      ensures entries == D.Entries(cfg, State(), cutoff)
    {
      entries := [];
      for i := 0 to |order|
        invariant entries == D.EntriesUpTo(cfg, State(), cutoff, i)
      {
        var sharpe := D.RollingSharpe(cfg, State(), order[i], cutoff);
        entries := entries + [Entry(order[i], if sharpe.None? then Fin(0.0) else sharpe.value)];
      }
    }

    /** The ranked table over the sorted agents. */
    method Tabulate(sorted: seq<Entry>, cutoff: real) returns (perfs: seq<D.Performance>)
      ensures perfs == D.PerformancesUpTo(State(), sorted, cutoff, |sorted|)
    {
      perfs := [];
      var n := |sorted|;
      var q := if n / 4 >= 1 then n / 4 else 1;
      for rank := 0 to n
        invariant perfs == D.PerformancesUpTo(State(), sorted, cutoff, rank)
      {
        var quartile := if rank < q then 1 else if rank >= n - q then 4 else if rank < n / 2 then 2 else 3;
        assert quartile == D.Quartile(n, rank);
        var row := D.PerformanceOf(State(), sorted[rank], cutoff, quartile);
        perfs := perfs + [row];
      }
    }

    /** The performance table, best agent first; old outcomes are dropped on the way. */
    method ComputePerformance(now: real) returns (perfs: seq<D.Performance>)
      modifies this`outcomes
      ensures State() == D.Step(cfg, old(State()), D.ComputePerformance(now), true)
      ensures perfs == D.Performances(cfg, State(), now - cfg.window)
    {
      PruneOldOutcomes(now - cfg.window);
      var entries := CollectSharpes(now - cfg.window);
      perfs := Tabulate(SortDescending(entries), now - cfg.window);
    }

    method ApplyPerformances(perfs: seq<D.Performance>)
      modifies this`weights
      ensures weights == D.Reweigh(cfg, old(weights), perfs, |perfs|)
    {
      for k := 0 to |perfs|
        invariant weights == D.Reweigh(cfg, old(weights), perfs, k)
      {
        var p := perfs[k];
        if p.agentId in weights {
          var oldWeight := weights[p.agentId];
          var newWeight;
          if p.quartile == 1 {
            newWeight := D.Scaled(cfg, oldWeight, cfg.boost);
          } else if p.quartile == 4 {
            newWeight := D.Scaled(cfg, oldWeight, cfg.decay);
          } else {
            newWeight := D.Scaled(cfg, oldWeight, 1.0);
          }
          weights := weights[p.agentId := newWeight];
        }
      }
    }

    method UpdateWeights(now: real) returns (updated: map<string, real>)
      modifies this
      ensures State() == D.Step(cfg, old(State()), D.UpdateWeights(now), true)
      ensures updated == weights
    {
      hide D.Performances;
      var perfs := ComputePerformance(now);
      ApplyPerformances(perfs);
      updateCount := updateCount + 1;
      updated := weights;
    }

    /** The agent with the least Sharpe among those with enough data. Nothing is pruned here. */
    method GetWorstAgent(now: real) returns (worst: Option<string>)
      ensures worst == D.WorstAgent(cfg, State(), now - cfg.window)
    {
      var cutoff := now - cfg.window;
      worst := None;
      var worstSharpe := Inf;
      for i := 0 to |order|
        invariant (worst, worstSharpe) == D.WorstUpTo(cfg, State(), cutoff, i)
      {
        var sharpe := D.RollingSharpe(cfg, State(), order[i], cutoff);
        if sharpe.Some? && Less(sharpe.value, worstSharpe) {
          worstSharpe := sharpe.value;
          worst := Some(order[i]);
        }
      }
    }

    method SetWeight(agent: string, weight: real)
      requires D.Valid(State())
      modifies this`order, this`weights
      ensures State() == D.Step(cfg, old(State()), D.SetWeight(agent, weight), true)
      ensures D.Valid(State())
    {
      if agent !in weights {
        order := order + [agent];
      }
      weights := weights[agent := Max(cfg.minWeight, Min(cfg.maxWeight, weight))];
    }

    method AddAgent(agent: string, weight: real)
      requires D.Valid(State())
      modifies this`order, this`weights
      ensures State() == D.Step(cfg, old(State()), D.AddAgent(agent, weight), true)
      ensures D.Valid(State())
    {
      if agent !in weights {
        order := order + [agent];
        weights := weights[agent := weight];
      }
    }
  }
}
