/** The `FilecoinEnergy` scenario: each tick a tenth of the miners (at least one),
    drawn by total score, receive a 32 GB deal; storage accumulates, energy use is
    recomputed, and rewards are the change in each agent's optimization metric. */
module FilecoinEnergyScenario {
  import opened Entities
  import opened Numeric

  /** Bytes of new data a drawn miner stores in one tick (`32e+9`).
      `FilecoinEnergy.ScenarioStep` writes the literal, as the loop it models does. */
  const NewDataPerDeal: real := 32000000000.0

  // ---------------------------------------------------------------------------
  // Reset

  /** The random draws of one agent's reset: a reliability score from the
      reliability distribution, and a country's energy price and renewables share. */
  datatype ResetDraw = ResetDraw(reliabilityScore: real, energyPricePerKWh: real, renewablesPercentage: real)

  /** Every endogenous quantity set to 0 (the window left empty). */
  function Zeroed(): Endogenous
  {
    Endogenous(0.0, 0.0, 0.0, 0.0, 0.0, 0.0, [], 0.0, 0.0, 0.0, 0.0)
  }

  /** The record an agent holds after reset with draw `d`. */
  function ResetAgent(d: ResetDraw): (e: Endogenous)
    ensures e.TotalScore == e.ReliabilityScore
    ensures e.GreenScore == e.InitialGreenScore
    ensures |e.GreenScoresLastDay| == WindowLength
    ensures e.NewData == 0.0 && e.TotalData == 0.0 && e.RECsPrice == 0.0 && e.ConsumedEnergy == 0.0
  {
    Endogenous(
      Labor := 0.0, NewData := 0.0, TotalData := 0.0,
      EnergyPrice := d.energyPricePerKWh, RECsPrice := 0.0,
      GreenScore := d.renewablesPercentage,
      GreenScoresLastDay := seq(WindowLength, _ => d.renewablesPercentage),
      InitialGreenScore := d.renewablesPercentage,
      ReliabilityScore := d.reliabilityScore, TotalScore := d.reliabilityScore,
      ConsumedEnergy := 0.0)
  }

  /** A reset record is well formed when the country's renewables share lies in
      [0, 1]; its window holds 24 copies of that share. */
  lemma ResetAgentWellFormed(d: ResetDraw)
    requires 0.0 <= d.renewablesPercentage <= 1.0
    ensures WellFormed(ResetAgent(d))
    ensures forall k :: 0 <= k < |ResetAgent(d).GreenScoresLastDay| ==>
      ResetAgent(d).GreenScoresLastDay[k] == ResetAgent(d).InitialGreenScore
  {
    MeanConstant(WindowLength, d.renewablesPercentage);
  }

  // ---------------------------------------------------------------------------
  // Scenario step

  /** `max(1, num_agents // 10)`: the number of draws per tick. */
  function NumSp(numAgents: nat): (k: nat)
    ensures 1 <= k
    ensures numAgents >= 1 ==> k <= numAgents
    ensures numAgents < 20 ==> k == 1
    ensures numAgents >= 10 ==> k * 10 <= numAgents < (k + 1) * 10
  {
    var numSp := numAgents / 10;
    if 1 < numSp then numSp else 1
  }

  /** The ids handed to the draw, in `world.agents` order. */
  function Ids(n: nat): (ids: seq<nat>)
    ensures |ids| == n && forall k :: 0 <= k < n ==> ids[k] == k
  {
    seq(n, k => k)
  }

  /** The draw weights: every agent's total score. */
  function Weights(agents: seq<Endogenous>): (ws: seq<real>)
    ensures |ws| == |agents| && forall k :: 0 <= k < |agents| ==> ws[k] == agents[k].TotalScore
  {
    seq(|agents|, k requires 0 <= k < |agents| => agents[k].TotalScore)
  }

  /** One agent's update in `scenario_step`, `selected` telling whether its idx
      was drawn. */
  function StepAgent(e: Endogenous, selected: bool, energy: (real, real) -> real): (r: Endogenous)
    ensures r.NewData >= 0.0 && (selected <==> r.NewData > 0.0)
    ensures r.TotalData == e.TotalData + r.NewData
    ensures r.ConsumedEnergy == energy(r.NewData, r.TotalData)
  {
    var newData := if selected then NewDataPerDeal else 0.0;
    var totalData := e.TotalData + newData;
    e.(NewData := newData, TotalData := totalData, ConsumedEnergy := energy(newData, totalData))
  }

  /** All agents after `scenario_step` with drawn id list `chosen`. */
  function StepAgents(agents: seq<Endogenous>, chosen: seq<nat>, energy: (real, real) -> real): (r: seq<Endogenous>)
    ensures |r| == |agents|
  {
    seq(|agents|, i requires 0 <= i < |agents| => StepAgent(agents[i], i in chosen, energy))
  }

  /** An agent gets 32e9 bytes of new data exactly when its idx was drawn, and none
      otherwise. */
  lemma StepAgentsNewData(agents: seq<Endogenous>, chosen: seq<nat>, energy: (real, real) -> real)
    ensures forall i :: 0 <= i < |agents| ==>
      StepAgents(agents, chosen, energy)[i].NewData == if i in chosen then NewDataPerDeal else 0.0
  {
  }

  /** How one record's storage changes in a step: the new total is the old one
      plus the non-negative new data, so it never shrinks, and the consumed energy
      is the energy function of the two. */
  predicate StorageStep(before: Endogenous, after: Endogenous, energy: (real, real) -> real)
  {
    && 0.0 <= after.NewData
    && after.TotalData == before.TotalData + after.NewData
    && before.TotalData <= after.TotalData
    && after.ConsumedEnergy == energy(after.NewData, after.TotalData)
  }

  lemma StepAgentsStorage(agents: seq<Endogenous>, chosen: seq<nat>, energy: (real, real) -> real)
    ensures forall i :: 0 <= i < |agents| ==> StorageStep(agents[i], StepAgents(agents, chosen, energy)[i], energy)
  {
  }

  /** `after` differs from `before` at most in `NewData`, `TotalData` and
      `ConsumedEnergy`. */
  predicate KeepsNonStorageFields(before: Endogenous, after: Endogenous)
  {
    after == before.(NewData := after.NewData, TotalData := after.TotalData, ConsumedEnergy := after.ConsumedEnergy)
  }

  /** The step writes `NewData`, `TotalData` and `ConsumedEnergy` and no other field. */
  lemma StepAgentsFrame(agents: seq<Endogenous>, chosen: seq<nat>, energy: (real, real) -> real)
    ensures forall i :: 0 <= i < |agents| ==> KeepsNonStorageFields(agents[i], StepAgents(agents, chosen, energy)[i])
  {
  }

  /** The step keeps every total score blended with the weight it was computed
      under: it writes none of the three scores. */
  lemma StepAgentsKeepBlend(agents: seq<Endogenous>, chosen: seq<nat>, energy: (real, real) -> real, w: real)
    requires forall i :: 0 <= i < |agents| ==> TotalScoreBlends(agents[i], w)
    ensures forall i :: 0 <= i < |agents| ==> TotalScoreBlends(StepAgents(agents, chosen, energy)[i], w)
  {
    forall i | 0 <= i < |agents| ensures TotalScoreBlends(StepAgents(agents, chosen, energy)[i], w) {
      var a := StepAgents(agents, chosen, energy)[i];
      assert a.TotalScore == agents[i].TotalScore && a.GreenScore == agents[i].GreenScore;
      assert a.ReliabilityScore == agents[i].ReliabilityScore;
    }
  }

  /** The step keeps every record well formed. */
  lemma StepAgentsPreservesWellFormed(agents: seq<Endogenous>, chosen: seq<nat>, energy: (real, real) -> real)
    requires forall i :: 0 <= i < |agents| ==> WellFormed(agents[i])
    ensures forall i :: 0 <= i < |agents| ==> WellFormed(StepAgents(agents, chosen, energy)[i])
  {
  }

  /** The agents that store new data this tick. */
  ghost function Selected(agents: seq<Endogenous>): set<nat>
  {
    set i: nat | i < |agents| && agents[i].NewData > 0.0
  }

  /** The distinct ids of a drawn list. */
  ghost function Elements(s: seq<nat>): set<nat>
  {
    set x | x in s
  }

  lemma {:induction false} ElementsAtMostLength(s: seq<nat>)
    ensures |Elements(s)| <= |s|
  {
    if |s| > 0 {
      assert Elements(s) == {s[0]} + Elements(s[1..]);
      ElementsAtMostLength(s[1..]);
      assert |{s[0]} + Elements(s[1..])| <= |{s[0]}| + |Elements(s[1..])|;
    }
  }

  /** A draw of `NumSp(n)` agent ids gives new data to at least one and at most
      `NumSp(n)` agents: duplicate draws collapse onto one agent. */
  lemma SelectedCount(agents: seq<Endogenous>, chosen: seq<nat>, energy: (real, real) -> real)
    requires |agents| >= 1
    requires |chosen| == NumSp(|agents|)
    requires forall k :: 0 <= k < |chosen| ==> chosen[k] < |agents|
    ensures 1 <= |Selected(StepAgents(agents, chosen, energy))| <= NumSp(|agents|)
  {
    var r := StepAgents(agents, chosen, energy);
    assert Selected(r) == Elements(chosen);
    ElementsAtMostLength(chosen);
    assert chosen[0] in Selected(r);
  }

  /** If the draw only yields agents of positive total score (as a weighted draw
      does), only such agents store new data. */
  lemma OnlyPositiveScoresSelected(agents: seq<Endogenous>, chosen: seq<nat>, energy: (real, real) -> real)
    requires forall k :: 0 <= k < |chosen| ==> chosen[k] < |agents| && agents[chosen[k]].TotalScore > 0.0
    ensures forall i :: i in Selected(StepAgents(agents, chosen, energy)) ==> agents[i].TotalScore > 0.0
  {
  }

  /** Several ticks of the scenario step, with the drawn id list of each tick. */
  function Run(agents: seq<Endogenous>, draws: seq<seq<nat>>, energy: (real, real) -> real): (r: seq<Endogenous>)
    ensures |r| == |agents|
    decreases |draws|
  {
    if |draws| == 0 then agents else Run(StepAgents(agents, draws[0], energy), draws[1..], energy)
  }

  /** In how many of the ticks agent `i` was drawn. */
  function TimesSelected(draws: seq<seq<nat>>, i: nat): nat
  {
    if |draws| == 0 then 0 else (if i in draws[0] then 1 else 0) + TimesSelected(draws[1..], i)
  }

  /** Over several ticks an agent's total storage grows by 32e9 bytes for every
      tick it was drawn, and by nothing otherwise. */
  lemma {:induction false} RunTotalData(agents: seq<Endogenous>, draws: seq<seq<nat>>, energy: (real, real) -> real, i: nat)
    requires i < |agents|
    ensures Run(agents, draws, energy)[i].TotalData
      == agents[i].TotalData + TimesSelected(draws, i) as real * NewDataPerDeal
    decreases |draws|
  {
    if |draws| > 0 {
      RunTotalData(StepAgents(agents, draws[0], energy), draws[1..], energy, i);
    }
  }

  // ---------------------------------------------------------------------------
  // Optimization metrics and rewards

  function GreenScores(agents: seq<Endogenous>): seq<real>
  {
    seq(|agents|, i requires 0 <= i < |agents| => agents[i].GreenScore)
  }

  function ReliabilityScores(agents: seq<Endogenous>): seq<real>
  {
    seq(|agents|, i requires 0 <= i < |agents| => agents[i].ReliabilityScore)
  }

  function Storage(agents: seq<Endogenous>): seq<real>
  {
    seq(|agents|, i requires 0 <= i < |agents| => agents[i].TotalData)
  }

  /** `get_current_optimization_metrics`: each mobile agent's metric from
      `agentMetric` (the revenue-minus-costs function) of its own new data, total
      data, energy price and REC price, and the planner's from `plannerMetric`
      (the welfare function) of all green scores, reliability scores and storage. */
  function OptimizationMetrics(agents: seq<Endogenous>,
                               agentMetric: (real, real, real, real) -> real,
                               plannerMetric: (seq<real>, seq<real>, seq<real>) -> real): (m: map<AgentId, real>)
    ensures m.Keys == AllIds(|agents|)
  {
    var perAgent := map i: nat | i < |agents| ::
      Mobile(i) := agentMetric(agents[i].NewData, agents[i].TotalData, agents[i].EnergyPrice, agents[i].RECsPrice);
    assert perAgent.Keys == MobileIds(|agents|) by {
      forall id | id in MobileIds(|agents|) ensures id in perAgent {
        assert id == Mobile(id.idx);
      }
    }
    perAgent[PlannerId := plannerMetric(GreenScores(agents), ReliabilityScores(agents), Storage(agents))]
  }

  /** An agent's metric depends only on its own new data, total data, energy price
      and REC price. */
  lemma AgentMetricIsLocal(a: seq<Endogenous>, b: seq<Endogenous>, i: nat,
                           agentMetric: (real, real, real, real) -> real,
                           plannerMetric: (seq<real>, seq<real>, seq<real>) -> real)
    requires i < |a| && i < |b|
    requires a[i].NewData == b[i].NewData && a[i].TotalData == b[i].TotalData
    requires a[i].EnergyPrice == b[i].EnergyPrice && a[i].RECsPrice == b[i].RECsPrice
    ensures OptimizationMetrics(a, agentMetric, plannerMetric)[Mobile(i)]
         == OptimizationMetrics(b, agentMetric, plannerMetric)[Mobile(i)]
  {
    assert Mobile(i) in MobileIds(|a|) && Mobile(i) in MobileIds(|b|);
  }

  /** The planner's metric depends only on the agents' green scores, reliability
      scores and storage. */
  lemma PlannerMetricIsLocal(a: seq<Endogenous>, b: seq<Endogenous>,
                             agentMetric: (real, real, real, real) -> real,
                             plannerMetric: (seq<real>, seq<real>, seq<real>) -> real)
    requires |a| == |b|
    requires forall i :: 0 <= i < |a| ==>
      a[i].GreenScore == b[i].GreenScore && a[i].ReliabilityScore == b[i].ReliabilityScore && a[i].TotalData == b[i].TotalData
    ensures OptimizationMetrics(a, agentMetric, plannerMetric)[PlannerId]
         == OptimizationMetrics(b, agentMetric, plannerMetric)[PlannerId]
  {
    assert GreenScores(a) == GreenScores(b);
    assert ReliabilityScores(a) == ReliabilityScores(b);
    assert Storage(a) == Storage(b);
  }

  /** The reward dictionary of `compute_reward`: for every key of the current
      metrics, its current value minus its stored value; a key missing from the
      stored snapshot raises `KeyError`. */
  function Rewards(current: map<AgentId, real>, stored: map<AgentId, real>): (r: Result<map<AgentId, real>>)
    ensures r.Success? <==> current.Keys <= stored.Keys
    ensures r.Failure? ==> r.error == KeyError
    ensures r.Success? ==> r.value.Keys == current.Keys
  {
    if current.Keys <= stored.Keys then Success(map k | k in current :: current[k] - stored[k])
    else Failure(KeyError)
  }

  /** The snapshot stored after the steps whose freshly computed metrics are `snapshots`. */
  function LastSnapshot(stored: map<AgentId, real>, snapshots: seq<map<AgentId, real>>): map<AgentId, real>
  {
    if |snapshots| == 0 then stored else snapshots[|snapshots| - 1]
  }

  /** The rewards paid to `id` over the steps whose freshly computed metrics are `snapshots`,
      starting from the stored snapshot `stored`. */
  function EpisodeReward(stored: map<AgentId, real>, snapshots: seq<map<AgentId, real>>, id: AgentId): real
    requires id in stored
    requires forall t :: 0 <= t < |snapshots| ==> snapshots[t].Keys == stored.Keys
    decreases |snapshots|
  {
    if |snapshots| == 0 then 0.0
    else Rewards(snapshots[0], stored).value[id] + EpisodeReward(snapshots[0], snapshots[1..], id)
  }

  /** Rewards telescope: summed over an episode they are the last metric minus the
      metric stored at the start. */
  lemma {:induction false} RewardsTelescope(stored: map<AgentId, real>, snapshots: seq<map<AgentId, real>>, id: AgentId)
    requires id in stored
    requires forall t :: 0 <= t < |snapshots| ==> snapshots[t].Keys == stored.Keys
    ensures EpisodeReward(stored, snapshots, id) == LastSnapshot(stored, snapshots)[id] - stored[id]
    decreases |snapshots|
  {
    if |snapshots| > 0 {
      RewardsTelescope(snapshots[0], snapshots[1..], id);
      assert LastSnapshot(snapshots[0], snapshots[1..]) == LastSnapshot(stored, snapshots);
    }
  }

  // ---------------------------------------------------------------------------
  // The scenario object

  /** The scenario's own state: the agents of its world, the external reward
      functions it calls, and the stored optimization-metric snapshot. The ghost
      fields record the snapshot taken at reset and the rewards paid since. */
  class FilecoinEnergy {
    const agents: array<Endogenous>
    const numAgents: nat
    const calculateEnergyConsumption: (real, real) -> real
    const filecoinMinusEnergyCosts: (real, real, real, real) -> real
    const reliabilityPlusGreenScores: (seq<real>, seq<real>, seq<real>) -> real
    var currOptimizationMetrics: map<AgentId, real>
    ghost var resetMetrics: map<AgentId, real>
    ghost var rewardsSinceReset: map<AgentId, real>

    /** The snapshot has one entry per agent and the planner, and the rewards paid
        since reset add up to the current snapshot minus the reset one. */
    ghost predicate Valid()
      reads this
    {
      && numAgents == agents.Length
      && currOptimizationMetrics.Keys == AllIds(numAgents)
      && resetMetrics.Keys == AllIds(numAgents)
      && rewardsSinceReset.Keys == AllIds(numAgents)
      && forall id :: id in rewardsSinceReset ==>
           rewardsSinceReset[id] == currOptimizationMetrics[id] - resetMetrics[id]
    }

    function CurrentOptimizationMetrics(): (m: map<AgentId, real>)
      reads agents
    {
      OptimizationMetrics(agents[..], filecoinMinusEnergyCosts, reliabilityPlusGreenScores)
    }

    /** The scenario starts with a zero metric for every agent and the planner. */
    constructor (worldAgents: array<Endogenous>,
                 energy: (real, real) -> real,
                 agentMetric: (real, real, real, real) -> real,
                 plannerMetric: (seq<real>, seq<real>, seq<real>) -> real)
      ensures Valid()
      ensures agents == worldAgents && numAgents == worldAgents.Length
      ensures calculateEnergyConsumption == energy
      ensures filecoinMinusEnergyCosts == agentMetric && reliabilityPlusGreenScores == plannerMetric
      ensures forall id :: id in currOptimizationMetrics ==> currOptimizationMetrics[id] == 0.0
    {
      agents := worldAgents;
      numAgents := worldAgents.Length;
      calculateEnergyConsumption := energy;
      filecoinMinusEnergyCosts := agentMetric;
      reliabilityPlusGreenScores := plannerMetric;
      var zeros := (map i: nat | i < worldAgents.Length :: Mobile(i) := 0.0)[PlannerId := 0.0];
      assert zeros.Keys == AllIds(worldAgents.Length) by {
        forall id | id in AllIds(worldAgents.Length) ensures id in zeros {
          if id.Mobile? { assert id == Mobile(id.idx); }
        }
      }
      currOptimizationMetrics := zeros;
      resetMetrics := zeros;
      rewardsSinceReset := zeros;
    }

    /** `reset_agent_states`: every agent's record is rebuilt from its draws. */
    method ResetAgentStates(draws: nat -> ResetDraw)
      requires Valid()
      modifies agents
      ensures Valid()
      ensures forall i :: 0 <= i < agents.Length ==> agents[i] == ResetAgent(draws(i))
    {
      for i := 0 to agents.Length
        invariant forall j :: 0 <= j < i ==> agents[j] == ResetAgent(draws(j))
      {
        var d := draws(i);
        // every endogenous quantity to 0 first
        agents[i] := Zeroed();
        agents[i] := agents[i].(ReliabilityScore := d.reliabilityScore);
        agents[i] := agents[i].(TotalScore := agents[i].ReliabilityScore);
        agents[i] := agents[i].(EnergyPrice := d.energyPricePerKWh);
        agents[i] := agents[i].(GreenScoresLastDay := seq(WindowLength, _ => d.renewablesPercentage));
        agents[i] := agents[i].(GreenScore := Mean(agents[i].GreenScoresLastDay));
        agents[i] := agents[i].(InitialGreenScore := d.renewablesPercentage);
        MeanConstant(WindowLength, d.renewablesPercentage);
      }
    }

    /** `scenario_step`; `choices` stands for `random.choices`, called with the
        agent ids, their total scores as weights, and the number of draws. */
    method ScenarioStep(choices: (seq<nat>, seq<real>, nat) -> seq<nat>)
      requires Valid()
      modifies agents
      ensures Valid()
      ensures agents[..] == StepAgents(old(agents[..]),
                                       choices(Ids(numAgents), Weights(old(agents[..])), NumSp(numAgents)),
                                       calculateEnergyConsumption)
    {
      // every step 10% of the agents are chosen, and at least one
      var numSp := numAgents / 10;
      numSp := if 1 < numSp then numSp else 1;
      var agentIds := seq(agents.Length, k => k);
      var agentWeights := seq(agents.Length, k requires 0 <= k < agents.Length reads agents => agents[k].TotalScore);
      var chosenAgents := choices(agentIds, agentWeights, numSp);
      assert agentIds == Ids(numAgents) && agentWeights == Weights(old(agents[..]));
      for i := 0 to agents.Length
        invariant forall j :: 0 <= j < i ==> agents[j] == StepAgent(old(agents[j]), j in chosenAgents, calculateEnergyConsumption)
        invariant forall j :: i <= j < agents.Length ==> agents[j] == old(agents[j])
      {
        if i in chosenAgents {
          agents[i] := agents[i].(NewData := 32000000000.0);
        } else {
          agents[i] := agents[i].(NewData := 0.0);
        }
        agents[i] := agents[i].(TotalData := agents[i].TotalData + agents[i].NewData);
        agents[i] := agents[i].(ConsumedEnergy := calculateEnergyConsumption(agents[i].NewData, agents[i].TotalData));
      }
    }

    /** `compute_reward`: the change of every metric since the stored snapshot,
        after which the freshly computed metrics replace the snapshot. */
    method ComputeReward() returns (rew: Result<map<AgentId, real>>)
      requires Valid()
      modifies this
      ensures Valid()
      ensures rew == Rewards(CurrentOptimizationMetrics(), old(currOptimizationMetrics))
      ensures rew.Success? && rew.value.Keys == AllIds(numAgents)
      ensures forall id :: id in rew.value ==>
        rew.value[id] == CurrentOptimizationMetrics()[id] - old(currOptimizationMetrics)[id]
      ensures currOptimizationMetrics == CurrentOptimizationMetrics()
      ensures resetMetrics == old(resetMetrics)
      ensures forall id :: id in rewardsSinceReset ==>
        rewardsSinceReset[id] == old(rewardsSinceReset)[id] + rew.value[id]
    {
      var currMetrics := OptimizationMetrics(agents[..], filecoinMinusEnergyCosts, reliabilityPlusGreenScores);
      rew := Rewards(currMetrics, currOptimizationMetrics);
      rewardsSinceReset := map id | id in rewardsSinceReset :: rewardsSinceReset[id] + rew.value[id];
      currOptimizationMetrics := currMetrics;
    }

    /** `additional_reset_steps`: the metrics of the freshly reset agents become the
        stored snapshot, from which the episode's rewards are counted. */
    method AdditionalResetSteps()
      requires Valid()
      modifies this
      ensures Valid()
      ensures currOptimizationMetrics == CurrentOptimizationMetrics()
      ensures resetMetrics == currOptimizationMetrics
      ensures forall id :: id in rewardsSinceReset ==> rewardsSinceReset[id] == 0.0
    {
      currOptimizationMetrics := OptimizationMetrics(agents[..], filecoinMinusEnergyCosts, reliabilityPlusGreenScores);
      resetMetrics := currOptimizationMetrics;
      rewardsSinceReset := map id | id in currOptimizationMetrics :: 0.0;
    }
  }
}
