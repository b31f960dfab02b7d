/**
 * The autoresearch loop on top of the weight manager: `AutoresearchLoop` as an object
 * (`aiswarm/evolution/autoresearch.py`), and the proof that the manager's pruning of old outcomes
 * never shows in what gets tried, kept or reverted.
 */
module Evolution {
  import opened Common
  import opened Ranking
  import D = Darwinian
  import A = Autoresearch
  import opened WeightManagers

  // ------------------------------------------------------------------
  // The two together, on values
  // ------------------------------------------------------------------

  /** What the weight manager answers to the research loop at one instant. */
  function ViewOf(cfg: D.Config, m: D.Manager, now: real): A.View {
    A.View(D.WorstAgent(cfg, m, now - cfg.window), D.Performances(cfg, m, now - cfg.window))
  }

  /** Whether a research cycle asks for the performance table, which prunes the manager. */
  predicate Consults(s: A.Settings, loop: A.Loop, view: A.View, choice: A.Choice) {
    if loop.active.Some? then loop.active.value.cyclesElapsed + 1 >= s.trialCycles
    else A.Target(s, loop.(cycle := loop.cycle + 1), view, choice).Some?
  }

  datatype System = System(manager: D.Manager, loop: A.Loop)

  datatype Op =
    | Weigh(op: D.Op)
    | Research(now: real, choice: A.Choice)
    | Register(agent: string, params: seq<A.Param>)

  function Step(cfg: D.Config, s: A.Settings, sys: System, op: Op, pruning: bool): System {
    match op
    case Weigh(dop) => sys.(manager := D.Step(cfg, sys.manager, dop, pruning))
    case Research(now, choice) =>
      var view := ViewOf(cfg, sys.manager, now);
      System(if Consults(s, sys.loop, view, choice) then D.Step(cfg, sys.manager, D.ComputePerformance(now), pruning)
             else sys.manager,
             A.Cycle(s, sys.loop, view, choice))
    case Register(agent, params) => sys.(loop := A.RegisterAgent(sys.loop, agent, params))
  }

  function Run(cfg: D.Config, s: A.Settings, sys: System, ops: seq<Op>, pruning: bool): System {
    if ops == [] then sys
    else Step(cfg, s, Run(cfg, s, sys, ops[..|ops| - 1], pruning), ops[|ops| - 1], pruning)
  }

  function TimeOf(op: Op): Option<real> {
    match op
    case Weigh(dop) => if D.Timed(dop) then Some(dop.now) else None
    case Research(now, _) => Some(now)
    case Register(_, _) => None
  }

  function Floor(cfg: D.Config, start: real, ops: seq<Op>): real {
    if ops == [] then start
    else if TimeOf(ops[|ops| - 1]).Some? then TimeOf(ops[|ops| - 1]).value - cfg.window
    else Floor(cfg, start, ops[..|ops| - 1])
  }

  predicate ClockForward(cfg: D.Config, start: real, ops: seq<Op>) {
    ops == [] ||
    (ClockForward(cfg, start, ops[..|ops| - 1])
     && (TimeOf(ops[|ops| - 1]).Some? ==>
           Floor(cfg, start, ops[..|ops| - 1]) <= TimeOf(ops[|ops| - 1]).value - cfg.window))
  }

  /** Raising the floor of a common view, with or without pruning one side. */
  lemma RaiseFloor(p: D.Manager, f: D.Manager, floor: real, cutoff: real)
    requires D.SameView(p, f, floor) && floor <= cutoff
    ensures D.SameView(p, f, cutoff) && D.SameView(D.Prune(p, cutoff), f, cutoff)
  {
    D.PruneSameView(p, f, floor, cutoff);
  }

  lemma SameViews(cfg: D.Config, p: D.Manager, f: D.Manager, floor: real, now: real)
    requires D.SameView(p, f, floor) && floor <= now - cfg.window
    ensures ViewOf(cfg, p, now) == ViewOf(cfg, f, now)
  {
    D.SameViewSameAnswers(cfg, p, f, floor, now - cfg.window);
  }

  lemma ResearchSameView(cfg: D.Config, s: A.Settings, p: System, f: System, floor: real, now: real, choice: A.Choice,
                         view: A.View)
    requires D.SameView(p.manager, f.manager, floor) && p.loop == f.loop && floor <= now - cfg.window
    requires view == ViewOf(cfg, p.manager, now) && view == ViewOf(cfg, f.manager, now)
    ensures var p', f' := Step(cfg, s, p, Research(now, choice), true), Step(cfg, s, f, Research(now, choice), false);
            D.SameView(p'.manager, f'.manager, now - cfg.window) && p'.loop == f'.loop
  {
    hide D.Performances;
    RaiseFloor(p.manager, f.manager, floor, now - cfg.window);
  }

  lemma StepSameView(cfg: D.Config, s: A.Settings, p: System, f: System, floor: real, op: Op)
    requires D.SameView(p.manager, f.manager, floor) && p.loop == f.loop
    requires TimeOf(op).Some? ==> floor <= TimeOf(op).value - cfg.window
    ensures var p', f' := Step(cfg, s, p, op, true), Step(cfg, s, f, op, false);
            var floor' := if TimeOf(op).Some? then TimeOf(op).value - cfg.window else floor;
            D.SameView(p'.manager, f'.manager, floor') && p'.loop == f'.loop
  {
    hide D.Performances;
    match op
    case Weigh(dop) =>
      D.StepSameView(cfg, p.manager, f.manager, floor, dop,
                     D.Step(cfg, p.manager, dop, true), D.Step(cfg, f.manager, dop, false));
    case Research(now, choice) =>
      SameViews(cfg, p.manager, f.manager, floor, now);
      ResearchSameView(cfg, s, p, f, floor, now, choice, ViewOf(cfg, p.manager, now));
    case Register(_, _) =>
  }

  lemma {:induction false} RunSameView(cfg: D.Config, s: A.Settings, sys: System, ops: seq<Op>, start: real)
    requires ClockForward(cfg, start, ops)
    ensures var p, f := Run(cfg, s, sys, ops, true), Run(cfg, s, sys, ops, false);
            D.SameView(p.manager, f.manager, Floor(cfg, start, ops)) && p.loop == f.loop
  {
    if ops != [] {
      var n := |ops| - 1;
      RunSameView(cfg, s, sys, ops[..n], start);
      StepSameView(cfg, s, Run(cfg, s, sys, ops[..n], true), Run(cfg, s, sys, ops[..n], false),
                   Floor(cfg, start, ops[..n]), ops[n]);
    }
  }

  /**
   * Pruning is invisible to evolution as a whole: after any interleaving of outcomes, weight updates
   * and research cycles, the weights, the trial, the history and every tuned parameter are those of
   * a system whose manager never forgets.
   */
  lemma EvolutionIgnoresPruning(cfg: D.Config, s: A.Settings, sys: System, ops: seq<Op>, start: real)
    requires ClockForward(cfg, start, ops)
    ensures var pruned, full := Run(cfg, s, sys, ops, true), Run(cfg, s, sys, ops, false);
            pruned.loop == full.loop && pruned.manager.weights == full.manager.weights
  {
    RunSameView(cfg, s, sys, ops, start);
  }

  // ------------------------------------------------------------------
  // The loop object
  // ------------------------------------------------------------------

  /** The table computed after pruning at a cutoff is the table before it. */
  lemma PrunedTable(cfg: D.Config, m: D.Manager, cutoff: real)
    ensures D.Performances(cfg, D.Prune(m, cutoff), cutoff) == D.Performances(cfg, m, cutoff)
  {
    D.PruneSameView(m, m, cutoff, cutoff);
    D.SameViewSameAnswers(cfg, D.Prune(m, cutoff), m, cutoff, cutoff);
  }

  /** The defaults with the caller's current values put in. */
  method CopyParams(defaults: seq<A.Param>, currentParams: map<string, real>) returns (params: seq<A.Param>)
    ensures params == A.WithCurrent(defaults, currentParams)
  {
    params := [];
    for i := 0 to |defaults|
      invariant params + A.WithCurrent(defaults[i..], currentParams) == A.WithCurrent(defaults, currentParams)
    {
      var bound := defaults[i];
      var current := if bound.name in currentParams then currentParams[bound.name] else bound.current;
      params := params + [A.Param(bound.name, bound.minValue, bound.maxValue, bound.step, current)];
      assert defaults[i..][1..] == defaults[i + 1..];
    }
    assert defaults[|defaults|..] == [] && params + [] == params;
  }

  method LookUpSharpe(performances: seq<D.Performance>, agentId: string) returns (sharpe: Sharpe)
    ensures sharpe == A.SharpeIn(performances, agentId)
  {
    for i := 0 to |performances|
      invariant A.SharpeIn(performances, agentId) == A.SharpeIn(performances[i..], agentId)
    {
      if performances[i].agentId == agentId {
        return performances[i].sharpe;
      }
      assert performances[i..][1..] == performances[i + 1..];
    }
    return Fin(0.0);
  }

  class AutoresearchLoop {
    const darwinian: DarwinianWeightManager
    const settings: A.Settings
    var tuning: map<string, A.AgentConfig>
    var activeModification: Option<A.Modification>
    var history: seq<A.Modification>
    var cycleCount: nat
    var modificationCounter: nat

    constructor (darwinian: DarwinianWeightManager, tuning: map<string, A.AgentConfig>, settings: A.Settings)
      ensures this.darwinian == darwinian && this.settings == settings
      ensures State() == A.Loop(tuning, None, [], 0, 0)
    {
      this.darwinian, this.settings, this.tuning := darwinian, settings, tuning;
      activeModification, history, cycleCount, modificationCounter := None, [], 0, 0;
    }

    function State(): A.Loop
      reads this
    {
      A.Loop(tuning, activeModification, history, cycleCount, modificationCounter)
    }

    ghost function Whole(): System
      reads this, darwinian
    {
      System(darwinian.State(), State())
    }

    method RegisterAgent(agentId: string, strategy: string, currentParams: map<string, real>)
      modifies this`tuning
      ensures State() == A.RegisterAgent(old(State()), agentId, A.TunableParams(strategy, currentParams))
    {
      if agentId in tuning {
        return;
      }
      var params: seq<A.Param> := [];
      if strategy in A.DEFAULT_TUNING {
        params := CopyParams(A.DEFAULT_TUNING[strategy], currentParams);
      }
      tuning := tuning[agentId := A.AgentConfig(params, A.NEVER_MODIFIED)];
    }

    /** The performance table; the manager prunes itself, which does not change the table. */
    method FreshTable(now: real) returns (performances: seq<D.Performance>)
      modifies darwinian`outcomes
      ensures darwinian.State() == D.Step(darwinian.cfg, old(darwinian.State()), D.ComputePerformance(now), true)
      ensures performances == D.Performances(darwinian.cfg, old(darwinian.State()), now - darwinian.cfg.window)
    {
      hide D.Performances;
      ghost var before := darwinian.State();
      performances := darwinian.ComputePerformance(now);
      assert darwinian.State() == D.Prune(before, now - darwinian.cfg.window);
      PrunedTable(darwinian.cfg, before, now - darwinian.cfg.window);
    }

    /** The agent's Sharpe in a fresh performance table; zero if it is not listed. */
    method CurrentSharpe(agentId: string, now: real) returns (sharpe: Sharpe)
      modifies darwinian`outcomes
      ensures darwinian.State() == D.Step(darwinian.cfg, old(darwinian.State()), D.ComputePerformance(now), true)
      ensures sharpe == A.SharpeIn(ViewOf(darwinian.cfg, old(darwinian.State()), now).performances, agentId)
    {
      var performances := FreshTable(now);
      sharpe := LookUpSharpe(performances, agentId);
    }

    method ProposeModification(now: real, choice: A.Choice) returns (proposed: Option<A.Modification>)
      modifies this, darwinian`outcomes
      ensures var view := ViewOf(darwinian.cfg, old(darwinian.State()), now);
              && State() == A.Propose(settings, old(State()), view, choice)
              && darwinian.State() ==
                   (if A.Target(settings, old(State()), view, choice).Some?
                    then D.Step(darwinian.cfg, old(darwinian.State()), D.ComputePerformance(now), true)
                    else old(darwinian.State()))
              && proposed == if A.Target(settings, old(State()), view, choice).Some? then activeModification else None
    {
      hide D.Performances, D.WorstAgent;
      var worst := darwinian.GetWorstAgent(now);
      if worst.None? || worst.value !in tuning {
        return None;
      }
      var agent := worst.value;
      var config := tuning[agent];
      if cycleCount - config.lastModified < settings.cooldownCycles || config.parameters == [] {
        return None;
      }
      var k := choice.pick % |config.parameters|;
      var param := config.parameters[k];
      var delta := if choice.up then param.step else -param.step;
      var newValue := Max(param.minValue, Min(param.maxValue, param.current + delta));
      if newValue == param.current {
        newValue := Max(param.minValue, Min(param.maxValue, param.current - delta));
      }
      if newValue == param.current {
        return None;
      }
      var baseline := CurrentSharpe(agent, now);
      modificationCounter := modificationCounter + 1;
      activeModification := Some(A.Modification(modificationCounter, agent, param.name, param.current, newValue,
                                                baseline, A.Active, None, 0));
      tuning := tuning[agent := A.AgentConfig(config.parameters[k := param.(current := newValue)], cycleCount)];
      proposed := activeModification;
    }

    method ResolveTrial(now: real) returns (resolved: A.Modification)
      requires activeModification.Some?
      modifies this, darwinian`outcomes
      ensures State() == A.Resolve(settings, old(State()), ViewOf(darwinian.cfg, old(darwinian.State()), now))
      ensures darwinian.State() == D.Step(darwinian.cfg, old(darwinian.State()), D.ComputePerformance(now), true)
      ensures history == old(history) + [resolved]
    {
      var mod := activeModification.value;
      var sharpe := CurrentSharpe(mod.agentId, now);
      var kept := A.Improved(settings, mod.baseline, sharpe);
      if !kept && mod.agentId in tuning {
        var config := tuning[mod.agentId];
        var params := SetFirstNamed(config.parameters, mod.parameter, mod.oldValue);
        tuning := tuning[mod.agentId := config.(parameters := params)];
      }
      mod := mod.(finalSharpe := Some(sharpe), status := if kept then A.Kept else A.Reverted);
      history := history + [mod];
      activeModification := None;
      resolved := mod;
    }

    /**
     * `step`: waits on the active trial, resolves it when it is due, or proposes a new one. It returns
     * the trial it left active or has just resolved.
     */
    method StepCycle(now: real, choice: A.Choice) returns (current: Option<A.Modification>)
      modifies this, darwinian`outcomes
      ensures Whole() == Step(darwinian.cfg, settings, old(Whole()), Research(now, choice), true)
      ensures current == if activeModification.Some? then activeModification
                         else if history != old(history) then Some(history[|history| - 1]) else None
    {
      ghost var before, view := State(), ViewOf(darwinian.cfg, darwinian.State(), now);
      cycleCount := cycleCount + 1;
      if activeModification.Some? {
        var mod := activeModification.value;
        activeModification := Some(mod.(cyclesElapsed := mod.cyclesElapsed + 1));
        if mod.cyclesElapsed + 1 >= settings.trialCycles {
          var resolved := ResolveTrial(now);
          current := Some(resolved);
        } else {
          current := activeModification;
        }
      } else {
        current := ProposeModification(now, choice);
      }
      assert State() == A.Cycle(settings, before, view, choice);
    }
  }

  /** The revert loop: the first parameter of that name gets the value back. */
  method SetFirstNamed(params: seq<A.Param>, name: string, v: real) returns (result: seq<A.Param>)
    ensures result == A.SetFirst(params, name, v)
  {
    for i := 0 to |params|
      invariant A.SetFirst(params, name, v) == params[..i] + A.SetFirst(params[i..], name, v)
    {
      if params[i].name == name {
        result := params[i := params[i].(current := v)];
        assert result == params[..i] + ([params[i].(current := v)] + params[i..][1..]);
        return;
      }
      assert params[..i] + ([params[i]] + A.SetFirst(params[i..][1..], name, v))
          == params[..i + 1] + A.SetFirst(params[i + 1..], name, v);
    }
    result := params;
    assert params[|params|..] == [] && params[..|params|] == params;
  }
}
