/** One tick as the environment runs it: the planner's policy component, then the
    agents' REC purchases under the weight the planner has just set, then the
    scenario step. A `ValueError` raised by a component ends the tick there, with
    whatever that component had already written. */
module Tick {
  import opened Entities
  import opened Numeric
  import ChangePolicy
  import RecPurchase
  import FilecoinEnergyScenario

  /** What a tick leaves behind: the agents' records, the planner's weight, and
      whether a component raised. */
  datatype TickResult = TickResult(agents: seq<Endogenous>, weight: real, outcome: Outcome)

  /** One tick from planner weight `w`, with the planner's action `plannerAction`,
      the agents' iteration order `order` and actions `actions`, and the drawn id
      list `chosen` of the scenario step. */
  function RunTick(agents: seq<Endogenous>, w: real, plannerAction: int,
                   order: seq<nat>, actions: seq<int>,
                   chosen: seq<nat>, energy: (real, real) -> real): (r: TickResult)
    requires |actions| == |agents|
    requires forall k :: 0 <= k < |order| ==> order[k] < |agents|
    ensures |r.agents| == |agents|
    ensures r.outcome == Pass ==> ChangePolicy.WeightAfter(w, plannerAction) == Success(r.weight)
    ensures ChangePolicy.WeightAfter(w, plannerAction).Failure? ==> r.agents == agents && r.weight == w && r.outcome.Fail?
  {
    match ChangePolicy.WeightAfter(w, plannerAction)
    case Failure(err) => TickResult(agents, w, Fail(err))
    case Success(w') =>
      var (mid, o) := RecPurchase.RecStep(agents, w', order, actions);
      if o.Fail? then TickResult(mid, w', o)
      else TickResult(FilecoinEnergyScenario.StepAgents(mid, chosen, energy), w', Pass)
  }

  /** Every record stays well formed across a tick, however it ends: the window
      keeps 24 samples in [0, 1] and the green score, their mean, stays in [0, 1]. */
  lemma TickPreservesWellFormed(agents: seq<Endogenous>, w: real, plannerAction: int,
                                order: seq<nat>, actions: seq<int>,
                                chosen: seq<nat>, energy: (real, real) -> real)
    requires |actions| == |agents|
    requires forall k :: 0 <= k < |order| ==> order[k] < |agents|
    requires forall i :: 0 <= i < |agents| ==> WellFormed(agents[i])
    ensures forall i :: 0 <= i < |agents| ==>
      && WellFormed(RunTick(agents, w, plannerAction, order, actions, chosen, energy).agents[i])
      && 0.0 <= RunTick(agents, w, plannerAction, order, actions, chosen, energy).agents[i].GreenScore <= 1.0
  {
    var r := RunTick(agents, w, plannerAction, order, actions, chosen, energy);
    if ChangePolicy.WeightAfter(w, plannerAction).Success? {
      var w' := ChangePolicy.WeightAfter(w, plannerAction).value;
      var mid := RecPurchase.RecStep(agents, w', order, actions).0;
      RecPurchase.RecStepPreservesWellFormed(agents, w', order, actions);
      FilecoinEnergyScenario.StepAgentsPreservesWellFormed(mid, chosen, energy);
    }
    forall i | 0 <= i < |r.agents| ensures 0.0 <= r.agents[i].GreenScore <= 1.0 {
      WellFormedGreenScore(r.agents[i]);
    }
  }

  /** No agent's total storage decreases across a tick: the purchases leave it
      alone and the scenario step only adds. */
  lemma TickTotalDataMonotone(agents: seq<Endogenous>, w: real, plannerAction: int,
                              order: seq<nat>, actions: seq<int>,
                              chosen: seq<nat>, energy: (real, real) -> real)
    requires |actions| == |agents|
    requires forall k :: 0 <= k < |order| ==> order[k] < |agents|
    ensures forall i :: 0 <= i < |agents| ==>
      agents[i].TotalData <= RunTick(agents, w, plannerAction, order, actions, chosen, energy).agents[i].TotalData
  {
    if ChangePolicy.WeightAfter(w, plannerAction).Success? {
      var w' := ChangePolicy.WeightAfter(w, plannerAction).value;
      var mid := RecPurchase.RecStep(agents, w', order, actions).0;
      RecPurchase.RecStepFrame(agents, w', order, actions);
      FilecoinEnergyScenario.StepAgentsStorage(mid, chosen, energy);
    }
  }

  /** A tick whose planner action is accepted and whose purchases all succeed
      runs the scenario step on the purchased records, under the new weight. */
  lemma RunTickCompletes(agents: seq<Endogenous>, w: real, plannerAction: int, w': real,
                         order: seq<nat>, actions: seq<int>,
                         chosen: seq<nat>, energy: (real, real) -> real)
    requires ChangePolicy.WeightAfter(w, plannerAction) == Success(w')
    requires |actions| == |agents|
    requires forall k :: 0 <= k < |order| ==> order[k] < |agents|
    requires RecPurchase.RecStep(agents, w', order, actions).1 == Pass
    ensures RunTick(agents, w, plannerAction, order, actions, chosen, energy)
         == TickResult(FilecoinEnergyScenario.StepAgents(RecPurchase.RecStep(agents, w', order, actions).0, chosen, energy), w', Pass)
  {
  }

  /** When every action of the tick is accepted, the tick completes, the planner's
      weight is the one its action selects, and every agent ends the tick with a
      total score blended under that new weight: the purchases read the weight
      after the planner has written it, and the scenario step leaves total scores
      alone. */
  lemma TotalScoresFollowNewWeight(agents: seq<Endogenous>, w: real, plannerAction: int,
                                   order: seq<nat>, actions: seq<int>,
                                   chosen: seq<nat>, energy: (real, real) -> real)
    requires 0 <= plannerAction <= ChangePolicy.GreenScoreImportanceLevels
    requires |actions| == |agents|
    requires RecPurchase.IsPermutation(order, |agents|)
    requires forall i :: 0 <= i < |agents| ==> RecPurchase.ValidAction(actions[i])
    ensures RunTick(agents, w, plannerAction, order, actions, chosen, energy).outcome == Pass
    ensures RunTick(agents, w, plannerAction, order, actions, chosen, energy).weight
         == if plannerAction == 0 then w else plannerAction as real * 0.05
    ensures forall i :: 0 <= i < |agents| ==>
      TotalScoreBlends(RunTick(agents, w, plannerAction, order, actions, chosen, energy).agents[i],
                       RunTick(agents, w, plannerAction, order, actions, chosen, energy).weight)
  {
    var w' := ChangePolicy.WeightAfter(w, plannerAction).value;
    RecPurchase.RecStepAllAccepted(agents, w', order, actions);
    var mid := RecPurchase.RecStep(agents, w', order, actions).0;
    var after := FilecoinEnergyScenario.StepAgents(mid, chosen, energy);
    RunTickCompletes(agents, w, plannerAction, w', order, actions, chosen, energy);
    assert RunTick(agents, w, plannerAction, order, actions, chosen, energy) == TickResult(after, w', Pass);
    RecPurchase.RecStepTotalScoresConsistent(agents, w', order, actions);
    FilecoinEnergyScenario.StepAgentsKeepBlend(mid, chosen, energy, w');
  }
}
