/** The trial, keep or revert loop over agent parameters (`aiswarm/evolution/autoresearch.py`), on values. */
module Autoresearch {
  import opened Common
  import opened Ranking
  import D = Darwinian

  datatype Param = Param(name: string, minValue: real, maxValue: real, step: real, current: real)

  datatype AgentConfig = AgentConfig(parameters: seq<Param>, lastModified: int)

  datatype Status = Active | Kept | Reverted

  datatype Modification = Modification(
    id: nat,
    agentId: string,
    parameter: string,
    oldValue: real,
    newValue: real,
    baseline: Sharpe,
    status: Status,
    finalSharpe: Option<Sharpe>,
    cyclesElapsed: nat
  )

  datatype Settings = Settings(trialCycles: int, cooldownCycles: int, threshold: real)

  datatype Loop = Loop(tuning: map<string, AgentConfig>, active: Option<Modification>,
                       history: seq<Modification>, cycle: nat, counter: nat)

  const NEVER_MODIFIED := -999

  const DEFAULT_TUNING: map<string, seq<Param>> := map[
    "momentum_ma_crossover" := [
      Param("fast_period", 5.0, 50.0, 5.0, 20.0),
      Param("slow_period", 20.0, 200.0, 10.0, 50.0)],
    "mean_reversion" := [
      Param("lookback_period", 10.0, 100.0, 5.0, 20.0),
      Param("z_score_threshold", 1.0, 3.0, 0.25, 2.0)],
    "volatility_breakout" := [
      Param("atr_period", 5.0, 30.0, 1.0, 14.0),
      Param("breakout_multiplier", 1.0, 3.0, 0.25, 1.5)],
    "rsi_divergence" := [
      Param("rsi_period", 7.0, 28.0, 1.0, 14.0),
      Param("overbought", 65.0, 85.0, 5.0, 70.0),
      Param("oversold", 15.0, 35.0, 5.0, 30.0)],
    "funding_rate_contrarian" := [
      Param("threshold", 0.0005, 0.005, 0.0005, 0.001)]]

  // ------------------------------------------------------------------
  // Steps
  // ------------------------------------------------------------------

  /** What the weight manager answers at a step: its worst agent and its performance table. */
  datatype View = View(worst: Option<string>, performances: seq<D.Performance>)

  /** The random picks of a step: a parameter, by position, and a direction. */
  datatype Choice = Choice(pick: nat, up: bool)

  function SharpeIn(perfs: seq<D.Performance>, agent: string): Sharpe {
    if perfs == [] then Fin(0.0)
    else if perfs[0].agentId == agent then perfs[0].sharpe
    else SharpeIn(perfs[1..], agent)
  }

  function Clamp(p: Param, v: real): real {
    Max(p.minValue, Min(p.maxValue, v))
  }

  /** The proposed value: one step, or one step the other way when the first does not move. */
  function Proposed(p: Param, up: bool): real {
    var delta := if up then p.step else -p.step;
    var v := Clamp(p, p.current + delta);
    if v == p.current then Clamp(p, p.current - delta) else v
  }

  /** The position of the parameter to try, if this step may try one. */
  function Candidate(s: Settings, st: Loop, view: View, choice: Choice): Option<nat> {
    if view.worst.None? || view.worst.value !in st.tuning then None
    else
      var config := st.tuning[view.worst.value];
      if st.cycle - config.lastModified < s.cooldownCycles || config.parameters == [] then None
      else Some(choice.pick % |config.parameters|)
  }

  /** The parameter to try, if trying it would change it. */
  function Target(s: Settings, st: Loop, view: View, choice: Choice): Option<nat> {
    var k := Candidate(s, st, view, choice);
    if k.None? then None
    else
      var p := st.tuning[view.worst.value].parameters[k.value];
      if Proposed(p, choice.up) == p.current then None else k
  }

  function Propose(s: Settings, st: Loop, view: View, choice: Choice): Loop {
    var k := Target(s, st, view, choice);
    if k.None? then st
    else
      var agent := view.worst.value;
      var config := st.tuning[agent];
      var p := config.parameters[k.value];
      var v := Proposed(p, choice.up);
      var mod := Modification(st.counter + 1, agent, p.name, p.current, v,
                              SharpeIn(view.performances, agent), Active, None, 0);
      st.(counter := st.counter + 1, active := Some(mod),
          tuning := st.tuning[agent := AgentConfig(config.parameters[k.value := p.(current := v)], st.cycle)])
  }

  /**
   * Whether the trial met the relative improvement threshold. Infinite ratios compare as IEEE
   * floats do: from an infinite baseline the difference is not a number, and nothing is an improvement.
   */
  predicate Improved(s: Settings, baseline: Sharpe, current: Sharpe) {
    match (baseline, current)
    case (Fin(b), Fin(c)) => (if b != 0.0 then (c - b) / Abs(b) else c) >= s.threshold
    case (Fin(_), Inf) => true
    case (Inf, _) => false
  }

  /** Sets the first parameter of that name. */
  function SetFirst(params: seq<Param>, name: string, v: real): seq<Param> {
    if params == [] then []
    else if params[0].name == name then [params[0].(current := v)] + params[1..]
    else [params[0]] + SetFirst(params[1..], name, v)
  }

  function Resolve(s: Settings, st: Loop, view: View): Loop
    requires st.active.Some?
  {
    var mod := st.active.value;
    var sharpe := SharpeIn(view.performances, mod.agentId);
    var kept := Improved(s, mod.baseline, sharpe);
    var resolved := mod.(finalSharpe := Some(sharpe), status := if kept then Kept else Reverted);
    var tuning :=
      if kept || mod.agentId !in st.tuning then st.tuning
      else
        var config := st.tuning[mod.agentId];
        st.tuning[mod.agentId := config.(parameters := SetFirst(config.parameters, mod.parameter, mod.oldValue))];
    st.(tuning := tuning, history := st.history + [resolved], active := None)
  }

  function Cycle(s: Settings, st: Loop, view: View, choice: Choice): Loop {
    var next := st.(cycle := st.cycle + 1);
    if st.active.Some? then
      var mod := st.active.value.(cyclesElapsed := st.active.value.cyclesElapsed + 1);
      var waited := next.(active := Some(mod));
      if mod.cyclesElapsed >= s.trialCycles then Resolve(s, waited, view) else waited
    else Propose(s, next, view, choice)
  }

  /** Parameters of a strategy, with the caller's current values put in. */
  function TunableParams(strategy: string, current: map<string, real>): seq<Param> {
    if strategy !in DEFAULT_TUNING then [] else WithCurrent(DEFAULT_TUNING[strategy], current)
  }

  function WithCurrent(params: seq<Param>, current: map<string, real>): seq<Param> {
    if params == [] then []
    else
      [if params[0].name in current then params[0].(current := current[params[0].name]) else params[0]]
        + WithCurrent(params[1..], current)
  }

  function RegisterAgent(st: Loop, agent: string, params: seq<Param>): Loop {
    if agent in st.tuning then st
    else st.(tuning := st.tuning[agent := AgentConfig(params, NEVER_MODIFIED)])
  }

  // ------------------------------------------------------------------
  // Runs, with what was registered and when trials began
  // ------------------------------------------------------------------

  datatype Op = Register(agent: string, params: seq<Param>) | Research(view: View, choice: Choice)

  datatype Proposal = Proposal(cycle: nat, agent: string)

  /** The loop beside a record of the registered configurations and of every trial begun. */
  datatype Trace = Trace(loop: Loop, registered: map<string, AgentConfig>, proposals: seq<Proposal>)

  function Next(s: Settings, t: Trace, op: Op): Trace {
    match op
    case Register(agent, params) =>
      var loop := RegisterAgent(t.loop, agent, params);
      t.(loop := loop,
         registered := if agent in t.registered then t.registered
                       else t.registered[agent := AgentConfig(params, NEVER_MODIFIED)])
    case Research(view, choice) =>
      var loop := Cycle(s, t.loop, view, choice);
      t.(loop := loop,
         proposals := if loop.counter > t.loop.counter && loop.active.Some?
                      then t.proposals + [Proposal(loop.cycle, loop.active.value.agentId)] else t.proposals)
  }

  function Begin(tuning: map<string, AgentConfig>): Trace {
    Trace(Loop(tuning, None, [], 0, 0), tuning, [])
  }

  function Run(s: Settings, tuning: map<string, AgentConfig>, ops: seq<Op>): Trace {
    if ops == [] then Begin(tuning) else Next(s, Run(s, tuning, ops[..|ops| - 1]), ops[|ops| - 1])
  }

  ghost predicate DistinctNames(params: seq<Param>) {
    forall i, j | 0 <= i < j < |params| :: params[i].name != params[j].name
  }

  /** No agent is set up with two parameters of one name. */
  ghost predicate DistinctSetup(tuning: map<string, AgentConfig>, ops: seq<Op>) {
    && (forall a | a in tuning :: DistinctNames(tuning[a].parameters))
    && (forall op | op in ops && op.Register? :: DistinctNames(op.params))
  }

  lemma DefaultsDistinct(strategy: string, current: map<string, real>)
    ensures DistinctNames(TunableParams(strategy, current))
  {
    if strategy in DEFAULT_TUNING {
      assert DistinctNames(DEFAULT_TUNING[strategy]);
      WithCurrentKeeps(DEFAULT_TUNING[strategy], current);
    }
  }

  lemma {:induction false} WithCurrentKeeps(params: seq<Param>, current: map<string, real>)
    ensures var w := WithCurrent(params, current);
            |w| == |params| && forall i | 0 <= i < |params| ::
              w[i] == params[i].(current :=
                if params[i].name in current then current[params[i].name] else params[i].current)
  {
    if params != [] {
      var w := WithCurrent(params, current);
      WithCurrentKeeps(params[1..], current);
      forall i | 0 < i < |params|
        ensures w[i] == WithCurrent(params[1..], current)[i - 1] && params[i] == params[1..][i - 1]
      {
      }
    }
  }

  // ------------------------------------------------------------------
  // History explains parameters
  // ------------------------------------------------------------------

  /** The value of the last modification of this parameter that was kept. */
  function LastKept(history: seq<Modification>, agent: string, name: string): Option<real> {
    if history == [] then None
    else
      var last := history[|history| - 1];
      if last.status.Kept? && last.agentId == agent && last.parameter == name then Some(last.newValue)
      else LastKept(history[..|history| - 1], agent, name)
  }

  /** The value a parameter has when nothing is on trial. */
  function Settled(history: seq<Modification>, agent: string, registered: Param): real {
    var kept := LastKept(history, agent, registered.name);
    if kept.Some? then kept.value else registered.current
  }

  /** The value a parameter should have: the active trial's, else the settled one. */
  function Explained(st: Loop, agent: string, registered: Param): real {
    if st.active.Some? && st.active.value.agentId == agent && st.active.value.parameter == registered.name
    then st.active.value.newValue
    else Settled(st.history, agent, registered)
  }

  ghost predicate ParamsExplained(st: Loop, agent: string, now: seq<Param>, registered: seq<Param>) {
    && |now| == |registered|
    && forall k | 0 <= k < |now| :: now[k] == registered[k].(current := Explained(st, agent, registered[k]))
  }

  /** The active trial replaced the settled value of a registered parameter by a different one. */
  ghost predicate TrialExplained(st: Loop, registered: map<string, AgentConfig>) {
    st.active.Some? ==>
      var mod := st.active.value;
      && mod.agentId in registered
      && exists k :: 0 <= k < |registered[mod.agentId].parameters|
           && registered[mod.agentId].parameters[k].name == mod.parameter
           && mod.oldValue == Settled(st.history, mod.agentId, registered[mod.agentId].parameters[k])
  }

  ghost predicate HistoryExplains(st: Loop, registered: map<string, AgentConfig>) {
    && st.tuning.Keys == registered.Keys
    && (forall a | a in registered ::
          DistinctNames(registered[a].parameters)
          && ParamsExplained(st, a, st.tuning[a].parameters, registered[a].parameters))
    && (forall mod | mod in st.history :: mod.agentId in registered)
    && TrialExplained(st, registered)
  }

  lemma {:induction false} SetFirstSets(params: seq<Param>, k: nat, v: real)
    requires k < |params| && DistinctNames(params)
    ensures SetFirst(params, params[k].name, v) == params[k := params[k].(current := v)]
  {
    if k > 0 {
      SetFirstSets(params[1..], k - 1, v);
      assert params[1..][k - 1] == params[k];
      assert params[k := params[k].(current := v)] == [params[0]] + params[1..][k - 1 := params[k].(current := v)];
    } else {
      assert params[k := params[k].(current := v)] == [params[0].(current := v)] + params[1..];
    }
  }

  lemma {:induction false} NeverModified(history: seq<Modification>, agent: string, name: string)
    requires forall mod | mod in history :: mod.agentId != agent
    ensures LastKept(history, agent, name) == None
  {
    if history != [] {
      assert history[|history| - 1] in history;
      NeverModified(history[..|history| - 1], agent, name);
    }
  }

  lemma ProposeExplains(s: Settings, st: Loop, registered: map<string, AgentConfig>, view: View, choice: Choice)
    requires HistoryExplains(st, registered) && st.active.None?
    ensures HistoryExplains(Propose(s, st, view, choice), registered)
  {
    var k := Target(s, st, view, choice);
    if k.Some? {
      var st', agent := Propose(s, st, view, choice), view.worst.value;
      var before, after := st.tuning[agent].parameters, st'.tuning[agent].parameters;
      var base := registered[agent].parameters;
      forall i | 0 <= i < |after|
        ensures after[i] == base[i].(current := Explained(st', agent, base[i]))
      {
        assert before[i] == base[i].(current := Explained(st, agent, base[i]));
        assert i != k.value ==> base[i].name != base[k.value].name;
      }
      assert before[k.value] == base[k.value].(current := Explained(st, agent, base[k.value]));
      forall a | a in registered && a != agent
        ensures ParamsExplained(st', a, st'.tuning[a].parameters, registered[a].parameters)
      {
        assert ParamsExplained(st, a, st.tuning[a].parameters, registered[a].parameters);
      }
    }
  }

  lemma LastKeptAppend(history: seq<Modification>, mod: Modification, agent: string, name: string)
    ensures LastKept(history + [mod], agent, name) ==
            if mod.status.Kept? && mod.agentId == agent && mod.parameter == name then Some(mod.newValue)
            else LastKept(history, agent, name)
  {
  }

  lemma ExplainedDistinct(st: Loop, agent: string, now: seq<Param>, registered: seq<Param>)
    requires ParamsExplained(st, agent, now, registered) && DistinctNames(registered)
    ensures DistinctNames(now)
  {
  }

  /** Resolving the trial of parameter `k`: what every parameter of an agent is afterwards. */
  lemma ResolvedParams(st: Loop, st': Loop, registered: map<string, AgentConfig>, k: nat, a: string)
    requires HistoryExplains(st, registered) && st.active.Some? && a in registered && st'.active.None?
    requires a in st'.tuning && |st'.history| == |st.history| + 1
    requires var mod := st.active.value;
             && k < |registered[mod.agentId].parameters| && registered[mod.agentId].parameters[k].name == mod.parameter
             && mod.oldValue == Settled(st.history, mod.agentId, registered[mod.agentId].parameters[k])
             && var resolved := st'.history[|st.history|];
             && st'.history == st.history + [resolved]
             && resolved.agentId == mod.agentId && resolved.parameter == mod.parameter
             && resolved.newValue == mod.newValue
             && var params := st.tuning[a].parameters;
             st'.tuning[a].parameters ==
               if a == mod.agentId && !resolved.status.Kept? && k < |params|
               then params[k := params[k].(current := mod.oldValue)] else params
    ensures ParamsExplained(st', a, st'.tuning[a].parameters, registered[a].parameters)
  {
  }

  lemma ResolveExplains(s: Settings, st: Loop, registered: map<string, AgentConfig>, view: View)
    requires HistoryExplains(st, registered) && st.active.Some?
    ensures HistoryExplains(Resolve(s, st, view), registered)
  {
    hide Improved, SharpeIn, LastKept, SetFirst;
    var st', mod := Resolve(s, st, view), st.active.value;
    var resolved := st'.history[|st.history|];
    var base := registered[mod.agentId].parameters;
    var k :| 0 <= k < |base| && base[k].name == mod.parameter
             && mod.oldValue == Settled(st.history, mod.agentId, base[k]);
    var before := st.tuning[mod.agentId].parameters;
    assert ParamsExplained(st, mod.agentId, before, base);
    ExplainedDistinct(st, mod.agentId, before, base);
    assert before[k] == base[k].(current := Explained(st, mod.agentId, base[k]));
    SetFirstSets(before, k, mod.oldValue);
    forall a | a in registered
      ensures ParamsExplained(st', a, st'.tuning[a].parameters, registered[a].parameters)
    {
      assert ParamsExplained(st, a, st.tuning[a].parameters, registered[a].parameters);
      ResolvedParams(st, st', registered, k, a);
    }
  }

  lemma RegisterExplains(st: Loop, registered: map<string, AgentConfig>, agent: string, params: seq<Param>)
    requires HistoryExplains(st, registered) && DistinctNames(params)
    ensures HistoryExplains(RegisterAgent(st, agent, params),
                            if agent in registered then registered
                            else registered[agent := AgentConfig(params, NEVER_MODIFIED)])
  {
    if agent !in registered {
      var st' := RegisterAgent(st, agent, params);
      forall k | 0 <= k < |params|
        ensures params[k] == params[k].(current := Explained(st', agent, params[k]))
      {
        NeverModified(st.history, agent, params[k].name);
      }
      forall a | a in registered
        ensures ParamsExplained(st', a, st'.tuning[a].parameters, registered[a].parameters)
      {
        assert ParamsExplained(st, a, st.tuning[a].parameters, registered[a].parameters);
      }
    }
  }

  /** Waiting changes nothing that the explanation depends on. */
  lemma WaitExplains(st: Loop, st': Loop, registered: map<string, AgentConfig>)
    requires HistoryExplains(st, registered)
    requires st'.tuning == st.tuning && st'.history == st.history
    requires if st.active.None? then st'.active.None?
             else exists n :: st'.active == Some(st.active.value.(cyclesElapsed := n))
    ensures HistoryExplains(st', registered)
  {
  }

  lemma TrialCycleExplains(s: Settings, st: Loop, registered: map<string, AgentConfig>, view: View, choice: Choice,
                           st': Loop)
    requires HistoryExplains(st, registered) && st.active.Some? && st' == Cycle(s, st, view, choice)
    ensures HistoryExplains(st', registered)
  {
    var n := st.active.value.cyclesElapsed + 1;
    var waited := st.(cycle := st.cycle + 1, active := Some(st.active.value.(cyclesElapsed := n)));
    WaitExplains(st, waited, registered);
    if n >= s.trialCycles {
      ResolveExplains(s, waited, registered, view);
      assert st' == Resolve(s, waited, view);
    }
  }

  lemma IdleCycleExplains(s: Settings, st: Loop, registered: map<string, AgentConfig>, view: View, choice: Choice,
                          st': Loop)
    requires HistoryExplains(st, registered) && st.active.None? && st' == Cycle(s, st, view, choice)
    ensures HistoryExplains(st', registered)
  {
    var next := st.(cycle := st.cycle + 1);
    WaitExplains(st, next, registered);
    ProposeExplains(s, next, registered, view, choice);
    assert st' == Propose(s, next, view, choice);
  }

  /**
   * In every reachable state each parameter has the active trial's value, else the value of its last
   * kept modification, else the value it was registered with; and the trial's old value is the one
   * that was settled before it.
   */
  lemma {:induction false} HistoryExplainsRun(s: Settings, tuning: map<string, AgentConfig>, ops: seq<Op>)
    requires DistinctSetup(tuning, ops)
    ensures var t := Run(s, tuning, ops); HistoryExplains(t.loop, t.registered)
  {
    if ops == [] {
      forall a | a in tuning
        ensures ParamsExplained(Begin(tuning).loop, a, tuning[a].parameters, tuning[a].parameters)
      {
      }
    } else {
      var before, op := Run(s, tuning, ops[..|ops| - 1]), ops[|ops| - 1];
      assert op in ops;
      HistoryExplainsRun(s, tuning, ops[..|ops| - 1]);
      match op
      case Register(agent, params) => RegisterExplains(before.loop, before.registered, agent, params);
      case Research(view, choice) =>
        var loop := Cycle(s, before.loop, view, choice);
        if before.loop.active.Some? {
          TrialCycleExplains(s, before.loop, before.registered, view, choice, loop);
        } else {
          IdleCycleExplains(s, before.loop, before.registered, view, choice, loop);
        }
    }
  }

  lemma {:induction false} RevertedKeepsSettled(history: seq<Modification>, reverted: seq<Modification>,
                                                agent: string, name: string)
    requires forall mod | mod in reverted :: mod.status.Reverted?
    ensures LastKept(history + reverted, agent, name) == LastKept(history, agent, name)
  {
    if reverted == [] {
      assert history + reverted == history;
    } else {
      var n := |reverted| - 1;
      assert reverted[n] in reverted;
      RevertedKeepsSettled(history, reverted[..n], agent, name);
      LastKeptAppend(history + reverted[..n], reverted[n], agent, name);
      assert history + reverted == (history + reverted[..n]) + [reverted[n]];
    }
  }

  lemma RevertsRestoreBetween(st: Loop, st': Loop, registered: map<string, AgentConfig>,
                              registered': map<string, AgentConfig>, reverted: seq<Modification>, agent: string)
    requires HistoryExplains(st, registered) && HistoryExplains(st', registered')
    requires st.active.None? && st'.active.None?
    requires st'.history == st.history + reverted && forall mod | mod in reverted :: mod.status.Reverted?
    requires agent in registered && agent in registered' && registered'[agent] == registered[agent]
    ensures st'.tuning[agent].parameters == st.tuning[agent].parameters
  {
    var base := registered[agent].parameters;
    assert ParamsExplained(st, agent, st.tuning[agent].parameters, base);
    assert ParamsExplained(st', agent, st'.tuning[agent].parameters, base);
    forall k | 0 <= k < |base|
      ensures st'.tuning[agent].parameters[k] == st.tuning[agent].parameters[k]
    {
      RevertedKeepsSettled(st.history, reverted, agent, base[k].name);
    }
  }

  /** Later calls only add to the history, and never change what was registered. */
  lemma {:induction false} RunExtends(s: Settings, tuning: map<string, AgentConfig>, ops: seq<Op>, more: seq<Op>,
                                      agent: string)
    ensures var t, t' := Run(s, tuning, ops), Run(s, tuning, ops + more);
            && t.loop.history <= t'.loop.history
            && (agent in t.registered ==> agent in t'.registered && t'.registered[agent] == t.registered[agent])
  {
    if more == [] {
      assert ops + more == ops;
    } else {
      var n := |more| - 1;
      assert (ops + more)[..|ops + more| - 1] == ops + more[..n] && (ops + more)[|ops + more| - 1] == more[n];
      RunExtends(s, tuning, ops, more[..n], agent);
      NextExtends(s, Run(s, tuning, ops + more[..n]), more[n], agent);
    }
  }

  lemma NextExtends(s: Settings, t: Trace, op: Op, agent: string)
    ensures var t' := Next(s, t, op);
            && t.loop.history <= t'.loop.history
            && (agent in t.registered ==> agent in t'.registered && t'.registered[agent] == t.registered[agent])
  {
    hide Improved, SharpeIn, SetFirst, Proposed;
  }

  /**
   * A revert restores exactly what preceded the trial: run on from any quiet point to another, and
   * if every trial resolved in between was reverted, every parameter of every agent is back where
   * it was.
   */
  lemma RevertsRestore(s: Settings, tuning: map<string, AgentConfig>, ops: seq<Op>, more: seq<Op>, agent: string)
    requires DistinctSetup(tuning, ops + more)
    requires agent in Run(s, tuning, ops).registered
    ensures var st, st' := Run(s, tuning, ops).loop, Run(s, tuning, ops + more).loop;
            && st.history <= st'.history
            && agent in st.tuning && agent in st'.tuning
            && (&& st.active.None? && st'.active.None?
                && (forall mod | mod in st'.history[|st.history|..] :: mod.status.Reverted?) ==>
                  st'.tuning[agent].parameters == st.tuning[agent].parameters)
  {
    hide Run;
    var t, t' := Run(s, tuning, ops), Run(s, tuning, ops + more);
    assert DistinctSetup(tuning, ops);
    HistoryExplainsRun(s, tuning, ops);
    HistoryExplainsRun(s, tuning, ops + more);
    RunExtends(s, tuning, ops, more, agent);
    var rest := t'.loop.history[|t.loop.history|..];
    assert t'.loop.history == t.loop.history + rest;
    if t.loop.active.None? && t'.loop.active.None? && forall mod | mod in rest :: mod.status.Reverted? {
      RevertsRestoreBetween(t.loop, t'.loop, t.registered, t'.registered, rest, agent);
    }
  }

  // ------------------------------------------------------------------
  // Bounds
  // ------------------------------------------------------------------

  predicate Within(p: Param, v: real) {
    p.minValue <= v <= p.maxValue
  }

  /** Every modification of this parameter, tried or on trial, proposed a value within its bounds. */
  ghost predicate ProposalsWithin(st: Loop, agent: string, p: Param) {
    && (forall mod | mod in st.history && mod.agentId == agent && mod.parameter == p.name :: Within(p, mod.newValue))
    && (st.active.Some? && st.active.value.agentId == agent && st.active.value.parameter == p.name ==>
          Within(p, st.active.value.newValue))
  }

  lemma {:induction false} LastKeptWithin(history: seq<Modification>, agent: string, p: Param)
    requires forall mod | mod in history && mod.agentId == agent && mod.parameter == p.name :: Within(p, mod.newValue)
    ensures LastKept(history, agent, p.name).Some? ==> Within(p, LastKept(history, agent, p.name).value)
  {
    if history != [] {
      assert history[|history| - 1] in history;
      LastKeptWithin(history[..|history| - 1], agent, p);
    }
  }

  lemma CycleWithin(s: Settings, st: Loop, registered: map<string, AgentConfig>, view: View, choice: Choice,
                    agent: string, k: nat)
    requires HistoryExplains(st, registered)
    requires agent in registered && k < |registered[agent].parameters|
    requires var p := registered[agent].parameters[k]; Within(p, p.current) && ProposalsWithin(st, agent, p)
    ensures ProposalsWithin(Cycle(s, st, view, choice), agent, registered[agent].parameters[k])
  {
  }

  lemma {:induction false} ProposalsWithinRun(s: Settings, tuning: map<string, AgentConfig>, ops: seq<Op>,
                                              agent: string, k: nat)
    requires DistinctSetup(tuning, ops)
    requires var t := Run(s, tuning, ops); agent in t.registered && k < |t.registered[agent].parameters|
    requires var p := Run(s, tuning, ops).registered[agent].parameters[k]; Within(p, p.current)
    ensures var t := Run(s, tuning, ops); ProposalsWithin(t.loop, agent, t.registered[agent].parameters[k])
  {
    if ops != [] {
      var before, op := Run(s, tuning, ops[..|ops| - 1]), ops[|ops| - 1];
      HistoryExplainsRun(s, tuning, ops[..|ops| - 1]);
      if agent in before.registered {
        ProposalsWithinRun(s, tuning, ops[..|ops| - 1], agent, k);
        if op.Research? {
          CycleWithin(s, before.loop, before.registered, op.view, op.choice, agent, k);
        }
      } else {
        assert op.Register?;
      }
    }
  }

  /** A parameter registered within its bounds never leaves them. */
  lemma BoundsHold(s: Settings, tuning: map<string, AgentConfig>, ops: seq<Op>, agent: string, k: nat)
    requires DistinctSetup(tuning, ops)
    requires var t := Run(s, tuning, ops); agent in t.registered && k < |t.registered[agent].parameters|
    requires var p := Run(s, tuning, ops).registered[agent].parameters[k]; Within(p, p.current)
    ensures var t := Run(s, tuning, ops);
            && agent in t.loop.tuning && k < |t.loop.tuning[agent].parameters|
            && var p := t.loop.tuning[agent].parameters[k]; Within(p, p.current)
  {
    var t := Run(s, tuning, ops);
    var p := t.registered[agent].parameters[k];
    HistoryExplainsRun(s, tuning, ops);
    ProposalsWithinRun(s, tuning, ops, agent, k);
    LastKeptWithin(t.loop.history, agent, p);
    assert ParamsExplained(t.loop, agent, t.loop.tuning[agent].parameters, t.registered[agent].parameters);
  }

  // ------------------------------------------------------------------
  // Trial discipline
  // ------------------------------------------------------------------

  function TrialLength(s: Settings): nat {
    if s.trialCycles >= 1 then s.trialCycles else 1
  }

  /** Proposals are far enough apart: a whole trial and one cycle, and per agent the cooldown. */
  ghost predicate Spaced(s: Settings, proposals: seq<Proposal>) {
    && (forall i | 0 <= i < |proposals| - 1 ::
          proposals[i + 1].cycle - proposals[i].cycle >= TrialLength(s) + 1)
    && (forall i, j | 0 <= i < j < |proposals| && proposals[i].agent == proposals[j].agent ::
          proposals[j].cycle - proposals[i].cycle >= s.cooldownCycles)
  }

  /** The bookkeeping of trials: numbering, resolution, and where the clock stands since the last proposal. */
  ghost predicate Disciplined(s: Settings, t: Trace) {
    var st, n := t.loop, |t.proposals|;
    && st.counter == n == |st.history| + (if st.active.Some? then 1 else 0)
    && (forall i | 0 <= i < |st.history| ::
          && st.history[i].id == i + 1 && !st.history[i].status.Active?
          && st.history[i].finalSharpe.Some? && st.history[i].cyclesElapsed == TrialLength(s)
          && st.history[i].agentId == t.proposals[i].agent)
    && (st.active.Some? ==>
          && st.active.value.id == n && st.active.value.status.Active?
          && st.active.value.cyclesElapsed < TrialLength(s)
          && st.active.value.newValue != st.active.value.oldValue
          && st.active.value.agentId == t.proposals[n - 1].agent
          && st.cycle == t.proposals[n - 1].cycle + st.active.value.cyclesElapsed)
    && (st.active.None? && n > 0 ==> st.cycle >= t.proposals[n - 1].cycle + TrialLength(s))
  }

  /** `last_modified_cycle` is the cycle of the agent's latest proposal. */
  ghost predicate Remembered(t: Trace) {
    && (forall i | 0 <= i < |t.proposals| :: t.proposals[i].agent in t.loop.tuning)
    && (forall i | 0 <= i < |t.proposals| :: t.proposals[i].cycle <= t.loop.tuning[t.proposals[i].agent].lastModified)
  }

  ghost predicate InOrder(t: Trace) {
    forall i | 0 <= i < |t.proposals| :: 1 <= t.proposals[i].cycle <= t.loop.cycle
  }

  ghost predicate TrialInvariant(s: Settings, t: Trace) {
    Disciplined(s, t) && Remembered(t) && Spaced(s, t.proposals) && InOrder(t)
  }

  lemma NextDisciplined(s: Settings, t: Trace, op: Op)
    requires Disciplined(s, t)
    ensures Disciplined(s, Next(s, t, op))
  {
    hide Improved, SharpeIn, SetFirst, Proposed;
  }

  lemma NextRemembered(s: Settings, t: Trace, op: Op)
    requires Disciplined(s, t) && Remembered(t) && InOrder(t)
    ensures Remembered(Next(s, t, op)) && InOrder(Next(s, t, op))
  {
    hide Improved, SharpeIn, SetFirst, Proposed;
  }

  lemma SpacedAppend(s: Settings, proposals: seq<Proposal>, p: Proposal)
    requires Spaced(s, proposals)
    requires proposals != [] ==> p.cycle - proposals[|proposals| - 1].cycle >= TrialLength(s) + 1
    requires forall i | 0 <= i < |proposals| && proposals[i].agent == p.agent ::
               p.cycle - proposals[i].cycle >= s.cooldownCycles
    ensures Spaced(s, proposals + [p])
  {
  }

  lemma NextSpaced(s: Settings, t: Trace, op: Op)
    requires Disciplined(s, t) && Remembered(t) && Spaced(s, t.proposals)
    ensures Spaced(s, Next(s, t, op).proposals)
  {
    hide Spaced;
    var t' := Next(s, t, op);
    if t'.proposals != t.proposals {
      SpacedAppend(s, t.proposals, Proposal(t'.loop.cycle, t'.loop.active.value.agentId));
    }
  }

  lemma NextTrialInvariant(s: Settings, t: Trace, op: Op, t': Trace)
    requires TrialInvariant(s, t) && t' == Next(s, t, op)
    ensures TrialInvariant(s, t')
  {
    NextDisciplined(s, t, op);
    NextRemembered(s, t, op);
    NextSpaced(s, t, op);
  }

  /**
   * Over every run: at most one trial is active, the counter is the history plus that trial, history
   * is fully resolved after exactly max(1, trial_cycles) cycles each, consecutive proposals are at
   * least one cycle more than that apart, and those for one agent at least the cooldown.
   */
  lemma {:induction false} TrialDiscipline(s: Settings, tuning: map<string, AgentConfig>, ops: seq<Op>)
    ensures TrialInvariant(s, Run(s, tuning, ops))
  {
    if ops != [] {
      var before, op := Run(s, tuning, ops[..|ops| - 1]), ops[|ops| - 1];
      TrialDiscipline(s, tuning, ops[..|ops| - 1]);
      NextTrialInvariant(s, before, op, Next(s, before, op));
    }
  }

  // ------------------------------------------------------------------
  // How a trial is judged
  // ------------------------------------------------------------------

  /** The Sharpe of the agent's first row in the table; zero if it has none. */
  ghost predicate TableSays(perfs: seq<D.Performance>, agent: string, sharpe: Sharpe) {
    || (exists i :: FirstRow(perfs, agent, i) && perfs[i].sharpe == sharpe)
    || ((forall i | 0 <= i < |perfs| :: perfs[i].agentId != agent) && sharpe == Fin(0.0))
  }

  predicate FirstRow(perfs: seq<D.Performance>, agent: string, i: int) {
    0 <= i < |perfs| && perfs[i].agentId == agent && forall j | 0 <= j < i :: perfs[j].agentId != agent
  }

  lemma {:induction false} SharpeInSays(perfs: seq<D.Performance>, agent: string)
    ensures TableSays(perfs, agent, SharpeIn(perfs, agent))
  {
    if perfs == [] {
    } else if perfs[0].agentId == agent {
      assert FirstRow(perfs, agent, 0);
    } else {
      var rest := perfs[1..];
      SharpeInSays(rest, agent);
      if i :| FirstRow(rest, agent, i) && rest[i].sharpe == SharpeIn(rest, agent) {
        assert FirstRow(perfs, agent, i + 1) by {
          forall j | 0 <= j < i + 1
            ensures perfs[j].agentId != agent
          {
            assert j > 0 ==> perfs[j] == rest[j - 1];
          }
        }
      } else {
        assert forall j | 0 < j < |perfs| :: perfs[j] == rest[j - 1];
      }
    }
  }

  /** A gain of the threshold, as a share of the size of the baseline; of the threshold itself from zero. */
  ghost predicate Gained(threshold: real, baseline: Sharpe, final: Sharpe) {
    match (baseline, final)
    case (Fin(b), Fin(c)) =>
      if b == 0.0 then c >= threshold
      else if b > 0.0 then c - b >= threshold * b
      else c - b >= threshold * -b
    case (Fin(_), Inf) => true
    case (Inf, _) => false
  }

  lemma ImprovedIffGained(s: Settings, baseline: Sharpe, final: Sharpe)
    ensures Improved(s, baseline, final) <==> Gained(s.threshold, baseline, final)
  {
    if baseline.Fin? && final.Fin? && baseline.value != 0.0 {
      ShareArithmetic(final.value - baseline.value, Abs(baseline.value), s.threshold);
    }
  }

  lemma ShareArithmetic(gain: real, size: real, threshold: real)
    requires size > 0.0
    ensures gain / size >= threshold <==> gain >= threshold * size
  {
    var share := gain / size;
    assert share * size == gain;
    if share >= threshold {
      assert (share - threshold) * size >= 0.0;
    } else {
      assert (threshold - share) * size > 0.0;
    }
  }

  /** With a positive threshold a kept trial did better than its baseline, and doing better still keeps it. */
  lemma KeptMeansBetter(s: Settings, baseline: Sharpe, final: Sharpe, better: Sharpe)
    requires Improved(s, baseline, final)
    ensures s.threshold > 0.0 && baseline != Inf ==> Less(baseline, final)
    ensures !Less(better, final) ==> Improved(s, baseline, better)
  {
    ImprovedIffGained(s, baseline, final);
    ImprovedIffGained(s, baseline, better);
    if baseline.Fin? && baseline.value != 0.0 && s.threshold > 0.0 {
      assert s.threshold * Abs(baseline.value) > 0.0;
    }
  }

  /** The entry of the history was judged by this table: its final Sharpe, and whether it was kept. */
  ghost predicate JudgedBy(s: Settings, mod: Modification, view: View) {
    && mod.finalSharpe.Some? && TableSays(view.performances, mod.agentId, mod.finalSharpe.value)
    && (mod.status.Kept? <==> Gained(s.threshold, mod.baseline, mod.finalSharpe.value))
    && (mod.status.Reverted? <==> !Gained(s.threshold, mod.baseline, mod.finalSharpe.value))
  }

  lemma ResolveJudges(s: Settings, st: Loop, view: View)
    requires st.active.Some?
    ensures var st' := Resolve(s, st, view);
            && st'.active.None? && |st'.history| == |st.history| + 1 && st'.history[..|st.history|] == st.history
            && JudgedBy(s, st'.history[|st.history|], view)
            && SameTrial(st'.history[|st.history|], st.active.value)
  {
    hide Gained, Improved, TableSays, SetFirst;
    var mod := st.active.value;
    SharpeInSays(view.performances, mod.agentId);
    ImprovedIffGained(s, mod.baseline, SharpeIn(view.performances, mod.agentId));
  }

  /** All that was fixed when the trial began. */
  predicate SameTrial(a: Modification, b: Modification) {
    a == b.(status := a.status, finalSharpe := a.finalSharpe, cyclesElapsed := a.cyclesElapsed)
  }

  /** Call `k` of the run resolved entry `i` of the history. */
  ghost predicate ResolvedAt(s: Settings, tuning: map<string, AgentConfig>, ops: seq<Op>, i: nat, k: int)
    requires i < |Run(s, tuning, ops).loop.history|
  {
    && 0 <= k < |ops| && ops[k].Research?
    && |Run(s, tuning, ops[..k]).loop.history| == i
    && JudgedBy(s, Run(s, tuning, ops).loop.history[i], ops[k].view)
  }

  lemma CycleJudges(s: Settings, st: Loop, view: View, choice: Choice, st': Loop)
    requires st' == Cycle(s, st, view, choice)
    ensures st'.history == st.history
            || (|st'.history| == |st.history| + 1 && st'.history[..|st.history|] == st.history
                && JudgedBy(s, st'.history[|st.history|], view))
  {
    hide JudgedBy, Resolve, Propose, SameTrial;
    if st.active.Some? {
      var n := st.active.value.cyclesElapsed + 1;
      ResolveJudges(s, st.(cycle := st.cycle + 1, active := Some(st.active.value.(cyclesElapsed := n))), view);
    } else {
      ProposeKeepsHistory(s, st.(cycle := st.cycle + 1), view, choice);
    }
  }

  lemma ProposeKeepsHistory(s: Settings, st: Loop, view: View, choice: Choice)
    ensures Propose(s, st, view, choice).history == st.history
  {
  }

  /**
   * Over every run: each entry of the history was judged by the performance table of the very cycle
   * that resolved it, and was kept exactly if its agent had gained enough there.
   */
  lemma {:induction false} HistoryJudged(s: Settings, tuning: map<string, AgentConfig>, ops: seq<Op>, i: nat)
    requires i < |Run(s, tuning, ops).loop.history|
    ensures exists k :: ResolvedAt(s, tuning, ops, i, k)
  {
    hide JudgedBy, Cycle;
    var n := |ops| - 1;
    var before, t := Run(s, tuning, ops[..n]), Run(s, tuning, ops);
    if ops[n].Research? {
      CycleJudges(s, before.loop, ops[n].view, ops[n].choice, t.loop);
    }
    if i < |before.loop.history| {
      HistoryJudged(s, tuning, ops[..n], i);
      var k :| ResolvedAt(s, tuning, ops[..n], i, k);
      assert ops[..n][..k] == ops[..k];
      assert before.loop.history[i] == t.loop.history[..|before.loop.history|][i];
      assert ResolvedAt(s, tuning, ops, i, k);
    } else {
      assert ResolvedAt(s, tuning, ops, i, n);
    }
  }

  // ------------------------------------------------------------------
  // What is tried
  // ------------------------------------------------------------------

  /** `v` is `x`, cut off at the parameter's bounds; the lower one wins if they cross. */
  predicate CutOff(p: Param, x: real, v: real) {
    if x < p.minValue || p.maxValue < p.minValue then v == p.minValue
    else if x > p.maxValue then v == p.maxValue else v == x
  }

  /** One step in the chosen direction, or in the other one if that leads nowhere; never no move. */
  ghost predicate OneStep(p: Param, up: bool, v: real) {
    var d := if up then p.step else -p.step;
    && v != p.current
    && (CutOff(p, p.current + d, v) || (CutOff(p, p.current + d, p.current) && CutOff(p, p.current - d, v)))
  }

  lemma ProposedIsOneStep(p: Param, up: bool)
    ensures Proposed(p, up) != p.current ==> OneStep(p, up, Proposed(p, up))
    ensures Proposed(p, up) == p.current <==> forall v :: !OneStep(p, up, v)
  {
    if Proposed(p, up) == p.current {
      forall v
        ensures !OneStep(p, up, v)
      {
      }
    }
  }

  /** From a value within the bounds the move is no longer than a step. */
  lemma OneStepIsShort(p: Param, up: bool, v: real)
    requires OneStep(p, up, v) && Within(p, p.current) && p.step >= 0.0
    ensures 0.0 < Abs(v - p.current) <= p.step && Within(p, v)
  {
  }

  /** The trial begun in this state: on the worst agent, its picked parameter, one step, from this baseline. */
  ghost predicate BegunBy(st: Loop, view: View, choice: Choice, mod: Modification) {
    && view.worst == Some(mod.agentId) && mod.agentId in st.tuning
    && var params := st.tuning[mod.agentId].parameters;
       && params != []
       && var p := params[choice.pick % |params|];
          && mod.parameter == p.name && mod.oldValue == p.current && OneStep(p, choice.up, mod.newValue)
          && TableSays(view.performances, mod.agentId, mod.baseline)
  }

  /** Call `k` of the run began the trial of the `i`-th proposal. */
  ghost predicate BegunAt(s: Settings, tuning: map<string, AgentConfig>, ops: seq<Op>, i: nat, k: int,
                          mod: Modification) {
    && 0 <= k < |ops| && ops[k].Research?
    && |Run(s, tuning, ops[..k]).proposals| == i
    && BegunBy(Run(s, tuning, ops[..k]).loop, ops[k].view, ops[k].choice, mod)
  }

  /** The trials of a run, resolved and active. */
  function Trials(st: Loop): seq<Modification> {
    st.history + (if st.active.Some? then [st.active.value] else [])
  }

  lemma ProposeBegins(s: Settings, st: Loop, view: View, choice: Choice, st': Loop)
    requires st' == Propose(s, st, view, choice)
    ensures st'.history == st.history
    ensures st'.active == st.active || (st'.active.Some? && BegunBy(st, view, choice, st'.active.value))
  {
    hide OneStep, TableSays, Proposed;
    var k := Target(s, st, view, choice);
    if k.Some? {
      ProposedIsOneStep(st.tuning[view.worst.value].parameters[k.value], choice.up);
      SharpeInSays(view.performances, view.worst.value);
    }
  }

  /** A cycle leaves the trials there were as they began, and begins at most one. */
  lemma CycleBegins(s: Settings, st: Loop, view: View, choice: Choice, st': Loop)
    requires st' == Cycle(s, st, view, choice)
    ensures |Trials(st')| == |Trials(st)| || |Trials(st')| == |Trials(st)| + 1
    ensures forall i | 0 <= i < |Trials(st)| :: SameTrial(Trials(st')[i], Trials(st)[i])
    ensures |Trials(st')| > |Trials(st)| ==> BegunBy(st, view, choice, Trials(st')[|Trials(st)|])
  {
    hide JudgedBy, Resolve, Propose, BegunBy;
    var next := st.(cycle := st.cycle + 1);
    if st.active.Some? {
      var n := st.active.value.cyclesElapsed + 1;
      ResolveJudges(s, next.(active := Some(st.active.value.(cyclesElapsed := n))), view);
    } else {
      ProposeBegins(s, next, view, choice, st');
      SameBegin(st, view, choice);
    }
  }

  lemma SameBegin(st: Loop, view: View, choice: Choice)
    ensures forall mod :: BegunBy(st.(cycle := st.cycle + 1), view, choice, mod) <==> BegunBy(st, view, choice, mod)
  {
  }

  /**
   * Over every run: each trial, resolved or active, was begun by the cycle of its proposal, on the
   * agent that was worst then, and moved the picked parameter one step within its bounds.
   */
  lemma {:induction false} TrialsBegun(s: Settings, tuning: map<string, AgentConfig>, ops: seq<Op>, i: nat)
    requires i < |Trials(Run(s, tuning, ops).loop)|
    ensures exists k :: BegunAt(s, tuning, ops, i, k, Trials(Run(s, tuning, ops).loop)[i])
  {
    hide Cycle, BegunBy, Disciplined, Remembered, Spaced, InOrder;
    var n := |ops| - 1;
    var before, t := Run(s, tuning, ops[..n]), Run(s, tuning, ops);
    TrialCount(s, tuning, ops[..n]);
    if ops[n].Research? {
      CycleBegins(s, before.loop, ops[n].view, ops[n].choice, t.loop);
    }
    if i < |Trials(before.loop)| {
      TrialsBegun(s, tuning, ops[..n], i);
      var k :| BegunAt(s, tuning, ops[..n], i, k, Trials(before.loop)[i]);
      assert ops[..n][..k] == ops[..k];
      BegunAlike(s, tuning, ops, i, k, Trials(before.loop)[i], Trials(t.loop)[i]);
    } else {
      assert BegunAt(s, tuning, ops, i, n, Trials(t.loop)[i]);
    }
  }

  lemma TrialCount(s: Settings, tuning: map<string, AgentConfig>, ops: seq<Op>)
    ensures |Trials(Run(s, tuning, ops).loop)| == |Run(s, tuning, ops).proposals|
  {
    TrialDiscipline(s, tuning, ops);
  }

  lemma BegunAlike(s: Settings, tuning: map<string, AgentConfig>, ops: seq<Op>, i: nat, k: int, a: Modification,
                   b: Modification)
    requires BegunAt(s, tuning, ops, i, k, a) && SameTrial(b, a)
    ensures BegunAt(s, tuning, ops, i, k, b)
  {
  }

  // ------------------------------------------------------------------
  // When something is tried
  // ------------------------------------------------------------------

  /** The cycle of the agent's latest proposal. */
  function LatestProposal(proposals: seq<Proposal>, agent: string): Option<int> {
    if proposals == [] then None
    else if proposals[|proposals| - 1].agent == agent then Some(proposals[|proposals| - 1].cycle)
    else LatestProposal(proposals[..|proposals| - 1], agent)
  }

  ghost predicate LatestKnown(t: Trace) {
    && t.loop.tuning.Keys == t.registered.Keys
    && forall a | a in t.registered ::
         t.loop.tuning[a].lastModified == match LatestProposal(t.proposals, a)
                                          case Some(cycle) => cycle
                                          case None => t.registered[a].lastModified
  }

  lemma LatestAppend(proposals: seq<Proposal>, p: Proposal, agent: string)
    ensures LatestProposal(proposals + [p], agent)
         == if p.agent == agent then Some(p.cycle) else LatestProposal(proposals, agent)
  {
    assert (proposals + [p])[..|proposals|] == proposals;
  }

  /** Only the agent of a new proposal has its cycle of modification changed. */
  lemma CycleModifies(s: Settings, st: Loop, view: View, choice: Choice, st': Loop, agent: string)
    requires st' == Cycle(s, st, view, choice) && agent in st.tuning
    ensures agent in st'.tuning
    ensures st'.tuning[agent].lastModified
         == if st'.counter > st.counter && st'.active.Some? && st'.active.value.agentId == agent then st'.cycle
            else st.tuning[agent].lastModified
  {
    hide Improved, SharpeIn, SetFirst, Proposed;
  }

  lemma CycleKeepsKeys(s: Settings, st: Loop, view: View, choice: Choice)
    ensures Cycle(s, st, view, choice).tuning.Keys == st.tuning.Keys
    ensures var st' := Cycle(s, st, view, choice);
            st'.counter > st.counter && st'.active.Some? ==> st'.active.value.agentId in st.tuning
  {
    hide Improved, SharpeIn, SetFirst, Proposed;
  }

  ghost predicate ProposersKnown(t: Trace) {
    forall i | 0 <= i < |t.proposals| :: t.proposals[i].agent in t.registered
  }

  lemma NextLatestKnown(s: Settings, t: Trace, op: Op, t': Trace)
    requires LatestKnown(t) && ProposersKnown(t) && t' == Next(s, t, op)
    ensures LatestKnown(t') && ProposersKnown(t')
  {
    hide Cycle;
    if op.Research? {
      CycleKeepsKeys(s, t.loop, op.view, op.choice);
    }
    forall a | a in t'.registered
      ensures t'.loop.tuning[a].lastModified == match LatestProposal(t'.proposals, a)
                                                case Some(cycle) => cycle
                                                case None => t'.registered[a].lastModified
    {
      if a !in t.registered {
        NeverProposed(t.proposals, a);
      } else if op.Research? {
        CycleModifies(s, t.loop, op.view, op.choice, t'.loop, a);
        if t'.proposals != t.proposals {
          LatestAppend(t.proposals, t'.proposals[|t.proposals|], a);
        }
      }
    }
  }

  lemma {:induction false} NeverProposed(proposals: seq<Proposal>, agent: string)
    requires forall i | 0 <= i < |proposals| :: proposals[i].agent != agent
    ensures LatestProposal(proposals, agent).None?
  {
    if proposals != [] {
      NeverProposed(proposals[..|proposals| - 1], agent);
    }
  }

  lemma {:induction false} LatestKnownRun(s: Settings, tuning: map<string, AgentConfig>, ops: seq<Op>)
    ensures LatestKnown(Run(s, tuning, ops)) && ProposersKnown(Run(s, tuning, ops))
  {
    if ops != [] {
      var n := |ops| - 1;
      LatestKnownRun(s, tuning, ops[..n]);
      NextLatestKnown(s, Run(s, tuning, ops[..n]), ops[n], Run(s, tuning, ops));
    }
  }

  /** The cycle from which on the agent may be tried again. */
  function ReadyAt(s: Settings, t: Trace, agent: string): int
    requires agent in t.registered
  {
    var latest := LatestProposal(t.proposals, agent);
    (if latest.Some? then latest.value else t.registered[agent].lastModified) + s.cooldownCycles
  }

  /**
   * Exactly when a quiet cycle begins a trial: the worst agent is registered with parameters, its
   * cooldown since its latest proposal is over, and the picked parameter can move.
   */
  lemma ProposesIff(s: Settings, tuning: map<string, AgentConfig>, ops: seq<Op>, view: View, choice: Choice)
    requires Run(s, tuning, ops).loop.active.None?
    ensures var t := Run(s, tuning, ops);
            Next(s, t, Research(view, choice)).proposals != t.proposals
            <==> && view.worst.Some? && view.worst.value in t.registered && view.worst.value in t.loop.tuning
                 && t.loop.cycle + 1 >= ReadyAt(s, t, view.worst.value)
                 && var params := t.loop.tuning[view.worst.value].parameters;
                    && params != []
                    && exists v :: OneStep(params[choice.pick % |params|], choice.up, v)
  {
    hide Proposed, SharpeIn, OneStep;
    LatestKnownRun(s, tuning, ops);
    var t := Run(s, tuning, ops);
    if view.worst.Some? && view.worst.value in t.loop.tuning && t.loop.tuning[view.worst.value].parameters != [] {
      var params := t.loop.tuning[view.worst.value].parameters;
      ProposedIsOneStep(params[choice.pick % |params|], choice.up);
    }
  }

  /** A newly registered agent has no cooldown to sit out, unless that is longer than a thousand cycles. */
  lemma NewAgentReady(s: Settings, t: Trace, agent: string, params: seq<Param>)
    requires agent !in t.registered && LatestProposal(t.proposals, agent).None?
    ensures var t' := Next(s, t, Register(agent, params));
            agent in t'.registered && (s.cooldownCycles <= 1000 ==> t'.loop.cycle + 1 >= ReadyAt(s, t', agent))
  {
  }

  /** The default parameters start within their bounds, which leave room for a step. */
  lemma DefaultsWithin(strategy: string, i: nat)
    requires i < |TunableParams(strategy, map[])|
    ensures var p := TunableParams(strategy, map[])[i];
            Within(p, p.current) && 0.0 < p.step <= p.maxValue - p.minValue
  {
    WithCurrentKeeps(DEFAULT_TUNING[strategy], map[]);
  }
}
