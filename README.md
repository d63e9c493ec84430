# Filecoin-energy miner simulation: the per-tick state engine, in Dafny

This project models the per-tick state engine of a Filecoin storage-miner economy. It is built on the AI-Economist foundation framework. Each tick runs three steps in order:

1. **`ChangeMinerSelectionPolicy`** (planner side). Every 24 ticks the planner may set the weight `w` (`GreenScoreImportance`) of the green score to a multiple of 5%.
2. **`BuyRECFromVirtualStore`** (agent side). Each miner, in a random order, buys 0 to 20 packages of renewable-energy certificates (RECs). Each package covers 5% of its consumed energy. The step:
   - pushes a new sample into the miner's 24-hour window of green scores;
   - recomputes `GreenScore` as the window's mean;
   - prices the RECs;
   - recomputes `TotalScore = w·GreenScore + (1-w)·ReliabilityScore`.
3. **`FilecoinEnergy.scenario_step`**. `max(1, n div 10)` draws, weighted by total score, pick the miners that store a new 32e9-byte deal. Storage accumulates and the consumed energy is recomputed.

The reward is the change of each agent's optimization metric since the stored snapshot. The fresh metrics then replace the snapshot.

How the model is laid out:

- **Data.** An agent's `state["endogenous"]` dictionary is the record `Entities.Endogenous`, with one field per registered endogenous entity. The agents of the world are an `array<Endogenous>` that the steps update in place. Agent `i` of the array is the agent with `idx == i`. The planner is the class `Entities.Planner`.
- **Agent-side step.** `RecPurchase.ComponentStep` is a loop over the agents in the order it is given. It is proved equal to the specification function `RecStep`, and the lemmas are stated about `RecStep`.
- **Scenario.** The scenario is the class `FilecoinEnergyScenario.FilecoinEnergy`. It holds the stored metrics snapshot and two ghost fields: the snapshot taken at reset, and the rewards paid since. Its `Valid()` invariant states that the summed rewards equal the current snapshot minus the reset snapshot (the rewards telescope).
- **Outside collaborators become parameters.** These are:
  - the functions of the `rewards` module (energy use, the agent metric, the planner metric), which become function-valued constants of the scenario class;
  - `random.choices`, which becomes the function parameter `choices`;
  - the random iteration order, which becomes `order`;
  - the reset draws, which become `draws`.
- **Arithmetic** is over exact reals, with `0.05`, `0.007` and `32e9` exact. Python's `//` on the non-negative agent count is Dafny's `/`.

The framework's base agent is not part of this model. It puts a NO-OP action 0 in front of each component's action mask, so mask entry `j` governs action `j + 1`. The predicates `ChangePolicy.Permitted` and `RecPurchase.Permitted` state this convention. Under it, the two length-20 masks and the accepted range `0..20` agree.

## Behaviour worth noting

- **A rejected REC-purchase step is not atomic.** Agents earlier in the random order keep their updates (`RecStepRejectedNotAtomic`).
- **Both components raise a plain `ValueError`.** The planner component raises it for negative actions as well as for actions above 20 (`ChangePolicy.WeightAfter`).
- **Off the policy interval, the planner's mask is all zeros.** With the NO-OP action 0 in front, only action 0 is permitted (`ChangePolicy.GenerateMasks`).
- **`TotalScore` is recomputed only in the REC step,** with the weight current at that moment. The planner step recomputes none (`Tick.TotalScoresFollowNewWeight`).
- **A raised `ValueError` ends the tick.** The components after the raising one and the scenario step do not run (`Tick.RunTick`).

## Model

| member | source | states |
|---|---|---|
| Numeric.Mean | ai_economist/foundation/components/rec_purchase.py:60 | the definition of `np.mean` (also used at filecoin_energy.py:73): the mean times the number of samples is their sum; `MeanWithin` and `MeanConstant` state its bounds and its value on a constant window |
| Numeric.Min | ai_economist/foundation/components/rec_purchase.py:57 | Python's `min([a, b])` is at most both arguments and equal to one of them |
| Numeric.SumWithin | ai_economist/foundation/components/rec_purchase.py:60 | a sum of n terms in [lo, hi] lies in [n·lo, n·hi] |
| Numeric.MeanWithin | ai_economist/foundation/components/rec_purchase.py:60 | the `np.mean` of values in [lo, hi] lies in [lo, hi] |
| Numeric.SumConstant | ai_economist/foundation/scenarios/filecoin_energy/filecoin_energy.py:72-73 | the sum of n copies of c is n·c |
| Numeric.MeanConstant | ai_economist/foundation/scenarios/filecoin_energy/filecoin_energy.py:72-73 | the mean of `np.full((24,), c)` is c |
| Entities.WellFormedGreenScore | ai_economist/foundation/components/rec_purchase.py:60 | a record whose window holds samples in [0, 1], with the green score as their mean, has a green score in [0, 1] |
| Entities.Planner.constructor | ai_economist/foundation/components/change_policy.py:24-27 | the planner's `GreenScoreImportance` starts at 0 |
| ChangePolicy.GetAdditionalStateFields | ai_economist/foundation/components/change_policy.py:24-27 | only `BasicPlanner` gets the extra field, `GreenScoreImportance = 0`; every other class gets none |
| ChangePolicy.GetNActions | ai_economist/foundation/components/change_policy.py:32-36 | 20 actions for `BasicPlanner`, `None` for every other class |
| ChangePolicy.GenerateMasks | ai_economist/foundation/components/change_policy.py:38-44 | the planner is the only key and its mask has length 20; a nonzero action is permitted exactly when `timestep mod 24 == 0` and the action is in 1..20 |
| ChangePolicy.WeightAfter | ai_economist/foundation/components/change_policy.py:46-57 | action 0 keeps the weight; 1..20 sets it to a·0.05; anything else (negative or above 20) is `ValueError`, in both directions |
| ChangePolicy.ComponentStep | ai_economist/foundation/components/change_policy.py:46-57 | writes only the planner's weight, as `WeightAfter` says; on `ValueError` the weight is unchanged |
| ChangePolicy.WeightStaysOnGrid | ai_economist/foundation/components/change_policy.py:52-54 | an accepted action keeps the weight a multiple of 1/20 in [0, 1] |
| ChangePolicy.InitialWeightOnGrid | ai_economist/foundation/components/change_policy.py:24-27 | the initial weight 0 is on that grid |
| ChangePolicy.WeightIdempotent | ai_economist/foundation/components/change_policy.py:52-54 | applying the same accepted action twice gives the weight of applying it once |
| ChangePolicy.MaskedActionsAccepted | ai_economist/foundation/components/change_policy.py:38-57 | every action the mask permits is accepted; when `timestep mod 24 != 0` the weight is unchanged |
| ChangePolicy.AcceptedRangeMatchesDeclaredCount | ai_economist/foundation/components/change_policy.py:32-57 | the accepted actions are exactly 0..`get_n_actions("BasicPlanner")`, and the all-ones mask has that many entries |
| RecPurchase.GetNActions | ai_economist/foundation/components/rec_purchase.py:29-33 | 20 actions for `BasicMobileAgent`, `None` for every other class |
| RecPurchase.GenerateMasks | ai_economist/foundation/components/rec_purchase.py:43-48 | one mask per mobile agent, each 20 ones regardless of tick; the mask permits exactly the accepted actions |
| RecPurchase.MaskMatchesAcceptedActions | ai_economist/foundation/components/rec_purchase.py:43-55 | the mask permits exactly the actions 0..20 that `component_step` accepts, and it has `get_n_actions` entries |
| RecPurchase.RecStep | ai_economist/foundation/components/rec_purchase.py:50-67 | the step over an iteration order keeps the number of agents |
| RecPurchase.ComponentStep | ai_economist/foundation/components/rec_purchase.py:50-67 | the in-place loop leaves the agents and the outcome that `RecStep` gives for the planner's current weight |
| RecPurchase.FirstInvalid | ai_economist/foundation/components/rec_purchase.py:55-67 | the position of the first rejected action in the order: every earlier action is in 0..20 and the one at that position is not |
| RecPurchase.BuyRecs | ai_economist/foundation/components/rec_purchase.py:56-64 | the definition of one agent's purchase in the body of `component_step`: the window keeps its length (one sample if it was empty), the new sample is between `InitialGreenScore` and 1, and buying nothing or consuming nothing costs nothing; `BuyRecsWindow`, `BuyRecsScores`, `BuyRecsFrame` and `BuyRecsPreservesWellFormed` state the rest |
| RecPurchase.BuyRecsWindow | ai_economist/foundation/components/rec_purchase.py:57-59 | a 24-slot window stays 24 long: the old window shifted left by one, then `min(1, InitialGreenScore + a·0.05)`, which is at most 1 |
| RecPurchase.BuyRecsScores | ai_economist/foundation/components/rec_purchase.py:60-64 | `GreenScore` is the mean of the new window; `RECsPrice = 0.007·ConsumedEnergy·a·0.05`, so it is 0 for action 0; `TotalScore = w·G + (1-w)·R` |
| RecPurchase.BuyRecsFrame | ai_economist/foundation/components/rec_purchase.py:56-64 | a purchase leaves `Labor`, `NewData`, `TotalData`, `EnergyPrice`, `InitialGreenScore`, `ReliabilityScore` and `ConsumedEnergy` unchanged |
| RecPurchase.BuyRecsPreservesWellFormed | ai_economist/foundation/components/rec_purchase.py:56-60 | a well-formed record stays well formed (24 samples in [0, 1], green score their mean), and its green score is in [0, 1] |
| RecPurchase.RecStepEffect | ai_economist/foundation/components/rec_purchase.py:50-67 | with no agent listed twice, the agents before the first rejected action get their purchase and all others are unchanged; the outcome is `ValueError` exactly when some action is rejected |
| RecPurchase.RecStepAllAccepted | ai_economist/foundation/components/rec_purchase.py:50-64 | with a permutation order and all actions accepted, the step succeeds and each agent gets its own purchase |
| RecPurchase.RecStepOrderIndependent | ai_economist/foundation/components/rec_purchase.py:51-64 | when all actions are accepted, any two iteration orders give the same result |
| RecPurchase.RecStepRejectedNotAtomic | ai_economist/foundation/components/rec_purchase.py:51-67 | a rejected action at position j raises `ValueError`; agents before j keep their purchases and agents from j on are untouched |
| RecPurchase.RecStepTotalScoresConsistent | ai_economist/foundation/components/rec_purchase.py:62-64 | after a fully accepted step, every agent's `TotalScore` is `w·GreenScore + (1-w)·ReliabilityScore` |
| RecPurchase.RecStepFrame | ai_economist/foundation/components/rec_purchase.py:50-67 | for any order and either outcome, no agent's unbought fields change |
| RecPurchase.RecStepPreservesWellFormed | ai_economist/foundation/components/rec_purchase.py:50-67 | for any order and either outcome, every record stays well formed |
| FilecoinEnergyScenario.ResetAgent | ai_economist/foundation/scenarios/filecoin_energy/filecoin_energy.py:60-74 | the definition of one agent's reset: `TotalScore = ReliabilityScore`, `GreenScore = InitialGreenScore`, a 24-sample window, and no data, REC price or consumed energy yet; `ResetAgentWellFormed` states that the record is well formed |
| FilecoinEnergyScenario.ResetAgentWellFormed | ai_economist/foundation/scenarios/filecoin_energy/filecoin_energy.py:60-74 | given a renewables share in [0, 1], a reset record is well formed and its 24 window entries all equal `InitialGreenScore` |
| FilecoinEnergyScenario.NumSp | ai_economist/foundation/scenarios/filecoin_energy/filecoin_energy.py:88-91 | the number of draws is at least 1 and at most n when n ≥ 1; it is 1 below 20 agents and n div 10 from 10 agents on |
| FilecoinEnergyScenario.Ids | ai_economist/foundation/scenarios/filecoin_energy/filecoin_energy.py:94 | the ids handed to the draw are 0..n-1 in order |
| FilecoinEnergyScenario.Weights | ai_economist/foundation/scenarios/filecoin_energy/filecoin_energy.py:95 | the draw weights are the agents' `TotalScore`s in order |
| FilecoinEnergyScenario.StepAgent | ai_economist/foundation/scenarios/filecoin_energy/filecoin_energy.py:98-108 | the definition of one agent's update in `scenario_step`: new data is non-negative and positive exactly when the agent was drawn, the total grows by it, and the consumed energy is the energy function of the two; `StepAgentsNewData`, `StepAgentsStorage` and `StepAgentsFrame` lift this to all agents |
| FilecoinEnergyScenario.StepAgents | ai_economist/foundation/scenarios/filecoin_energy/filecoin_energy.py:97-108 | the scenario step keeps the number of agents |
| FilecoinEnergyScenario.StepAgentsNewData | ai_economist/foundation/scenarios/filecoin_energy/filecoin_energy.py:97-102 | `NewData` is 32e9 when the agent's idx is in the drawn list and 0 otherwise |
| FilecoinEnergyScenario.StepAgentsStorage | ai_economist/foundation/scenarios/filecoin_energy/filecoin_energy.py:105-108 | `TotalData' = TotalData + NewData'` with `NewData' ≥ 0`, so storage never decreases; `ConsumedEnergy' = energy(NewData', TotalData')` |
| FilecoinEnergyScenario.StepAgentsFrame | ai_economist/foundation/scenarios/filecoin_energy/filecoin_energy.py:97-108 | the step changes no field other than `NewData`, `TotalData` and `ConsumedEnergy` |
| FilecoinEnergyScenario.StepAgentsKeepBlend | ai_economist/foundation/scenarios/filecoin_energy/filecoin_energy.py:97-108 | a total score blended under weight w stays blended under w across the step, which writes none of the three scores |
| FilecoinEnergyScenario.StepAgentsPreservesWellFormed | ai_economist/foundation/scenarios/filecoin_energy/filecoin_energy.py:97-108 | the step keeps every record well formed |
| FilecoinEnergyScenario.ElementsAtMostLength | ai_economist/foundation/scenarios/filecoin_energy/filecoin_energy.py:96-99 | a drawn list of k ids names at most k distinct agents |
| FilecoinEnergyScenario.SelectedCount | ai_economist/foundation/scenarios/filecoin_energy/filecoin_energy.py:88-102 | for n ≥ 1 agents, `max(1, n div 10)` draws give new data to between 1 and `max(1, n div 10)` agents, because duplicate draws collapse |
| FilecoinEnergyScenario.OnlyPositiveScoresSelected | ai_economist/foundation/scenarios/filecoin_energy/filecoin_energy.py:94-102 | if the draw yields only agents of positive total score, only such agents store new data |
| FilecoinEnergyScenario.Run | ai_economist/foundation/scenarios/filecoin_energy/filecoin_energy.py:97-108 | several scenario steps in a row keep the number of agents |
| FilecoinEnergyScenario.RunTotalData | ai_economist/foundation/scenarios/filecoin_energy/filecoin_energy.py:97-105 | over several ticks, an agent's `TotalData` grows by 32e9 for each tick it was drawn, and by nothing otherwise |
| FilecoinEnergyScenario.OptimizationMetrics | ai_economist/foundation/scenarios/filecoin_energy/filecoin_energy.py:252-292 | the metrics have exactly one entry per mobile agent plus one for the planner |
| FilecoinEnergyScenario.AgentMetricIsLocal | ai_economist/foundation/scenarios/filecoin_energy/filecoin_energy.py:274-282 | an agent's metric depends only on its own `NewData`, `TotalData`, `EnergyPrice` and `RECsPrice` |
| FilecoinEnergyScenario.PlannerMetricIsLocal | ai_economist/foundation/scenarios/filecoin_energy/filecoin_energy.py:263-291 | the planner's metric depends only on the agents' green scores, reliability scores and storage |
| FilecoinEnergyScenario.Rewards | ai_economist/foundation/scenarios/filecoin_energy/filecoin_energy.py:176-179 | the reward dictionary has the keys of the fresh metrics; it fails with `KeyError` exactly when a fresh key is missing from the stored snapshot |
| FilecoinEnergyScenario.EpisodeReward | ai_economist/foundation/scenarios/filecoin_energy/filecoin_energy.py:176-180 | the definition of the rewards one id is paid over a sequence of steps, each step's reward taken against the snapshot the previous step stored; `RewardsTelescope` states its value |
| FilecoinEnergyScenario.RewardsTelescope | ai_economist/foundation/scenarios/filecoin_energy/filecoin_energy.py:176-180 | rewards summed over any number of steps equal the last metric minus the metric stored at the start, for every key |
| FilecoinEnergyScenario.FilecoinEnergy.constructor | ai_economist/foundation/scenarios/filecoin_energy/filecoin_energy.py:28-32 | the snapshot starts at 0 for every agent and the planner, and `num_agents` is the number of agents |
| FilecoinEnergyScenario.FilecoinEnergy.ResetAgentStates | ai_economist/foundation/scenarios/filecoin_energy/filecoin_energy.py:47-74 | each agent has `TotalScore = ReliabilityScore`, a window of 24 copies of `InitialGreenScore`, `GreenScore = InitialGreenScore`, the drawn energy price, and every other field 0 |
| FilecoinEnergyScenario.FilecoinEnergy.ScenarioStep | ai_economist/foundation/scenarios/filecoin_energy/filecoin_energy.py:77-108 | the in-place loop leaves the agents that `StepAgents` gives for the list `random.choices(ids, total scores, max(1, n div 10))` |
| FilecoinEnergyScenario.FilecoinEnergy.ComputeReward | ai_economist/foundation/scenarios/filecoin_energy/filecoin_energy.py:173-181 | returns `M'[k] - M[k]` for every id, never `KeyError` under the invariant; the stored snapshot becomes `M'`; the running reward total still equals snapshot minus reset snapshot |
| FilecoinEnergyScenario.FilecoinEnergy.AdditionalResetSteps | ai_economist/foundation/scenarios/filecoin_energy/filecoin_energy.py:198-200 | stores the metrics of the reset agents as both the current snapshot and the reset snapshot, and zeroes the running reward totals |
| Tick.RunTick | ai_economist/foundation/components/change_policy.py:46-57 | one tick: the planner step, then the REC step under the planner's new weight (rec_purchase.py:50-67), then the scenario step (filecoin_energy.py:77-108); if the planner's action is rejected nothing changes and the tick fails; a completed tick's weight is the one `WeightAfter` gives |
| Tick.RunTickCompletes | ai_economist/foundation/components/rec_purchase.py:50-67 | a tick whose planner action is accepted and whose purchases all succeed runs the scenario step on the purchased records, under the new weight |
| Tick.TickPreservesWellFormed | ai_economist/foundation/components/rec_purchase.py:56-60 | across a tick, however it ends, every window keeps 24 samples in [0, 1] and every green score stays in [0, 1] |
| Tick.TickTotalDataMonotone | ai_economist/foundation/scenarios/filecoin_energy/filecoin_energy.py:105 | no agent's `TotalData` decreases across a tick, however it ends |
| Tick.TotalScoresFollowNewWeight | ai_economist/foundation/components/rec_purchase.py:62-64 | with a planner action in 0..20 and every purchase accepted, the tick completes, the weight becomes w (action 0) or a·0.05, and every agent ends the tick with `TotalScore = w'·G + (1-w')·R` under that new weight |

## Left out

- CSV loading of the country and reliability tables (`pd.read_csv`), and the `np.random.choice` draws at reset. A reset takes the drawn values as inputs: reliability score, energy price and renewables share.
- The distribution of `random.choices` (weighted sampling with replacement, and its behaviour for zero or all-zero weights). The draw is a function parameter. `SelectedCount` relies only on what `random.choices` guarantees: `k` results, each taken from the ids.
- `get_random_order_agents`. The iteration order is a parameter. `IsPermutation` states what the framework guarantees about it.
- The `rewards` module (`calculateEnergyConsumption`, `filecoin_minus_energy_costs`, `reliability_plus_green_scores`, `reliability_scores`, `green_scores`). It is not part of this model, so these are uninterpreted function parameters.
- `generate_observations` in all three files, and `scenario_metrics`. They are observation and logging output only.
- Framework plumbing:
  - `reset_starting_layout`, which is empty;
  - `world.clear_agent_locs`;
  - the component and scenario registries;
  - the components' `additional_reset_steps`, which only set an unused `is_first_step` flag;
  - how `get_component_action` retrieves actions, which the model passes in as parameters;
  - the reset→step→reward orchestration of the environment. `Tick.RunTick` models one step: the planner's component runs first, then the agents' components, then the scenario step, and a raised error ends the step.
- The `__init__` snapshot keys are `str(a.idx)`, while every later use keys by `agent.idx`. One key type is modelled. The `__init__` snapshot is replaced at reset before any reward is computed.
- The momentary integer 0 that reset writes into `GreenScoresLastDay` before replacing it is modelled as an empty window.
- IEEE-754 floating-point rounding. Arithmetic is over exact reals.
- `FilecoinEnergyScenario.Rewards`: its contract states the keys and the `KeyError` condition. The values `M'[k] - M[k]` are stated on `FilecoinEnergy.ComputeReward` instead.
- `FilecoinEnergyScenario.ResetAgentWellFormed`: it requires the country table's renewables share to lie in [0, 1], because that table is not part of this model.
