/** The planner-side component `ChangeMinerSelectionPolicy`: every
    `PolicyInterval` ticks the planner may set the weight of the green score in
    the agents' total score to a multiple of 5%. */
module ChangePolicy {
  import opened Entities

  /** The number of importance levels the planner declares; level `a` is a
      weight of `a·5%`, so level 20 is 100%. */
  const GreenScoreImportanceLevels: nat := 20

  /** Ticks between two opportunities to change the weight. */
  const PolicyInterval: nat := 24

  /** The weight one level stands for. */
  const LevelStep: real := 0.05

  /** The extra state field the component adds to an agent of the named class. */
  function GetAdditionalStateFields(agentClsName: string): (fields: map<string, real>)
    ensures agentClsName == "BasicPlanner" ==> fields == map["GreenScoreImportance" := 0.0]
    ensures agentClsName != "BasicPlanner" ==> fields == map[]
  {
    if agentClsName == "BasicPlanner" then map["GreenScoreImportance" := 0.0] else map[]
  }

  /** The number of actions the component declares for an agent class; `None`
      means the class takes no action from it. */
  function GetNActions(agentClsName: string): (n: Option<nat>)
    ensures n.Some? <==> agentClsName == "BasicPlanner"
    ensures n.Some? ==> n.value == GreenScoreImportanceLevels
  {
    if agentClsName == "BasicPlanner" then Some(GreenScoreImportanceLevels) else None
  }

  function DefaultPlannerActionMask(): seq<int>
  {
    seq(GreenScoreImportanceLevels, _ => 1)
  }

  function NoOpPlannerActionMask(): seq<int>
  {
    seq(GreenScoreImportanceLevels, _ => 0)
  }

  /** Whether a mask lets an agent choose `action`. The framework's base agent,
      which is not part of this model, puts a NO-OP action 0 in front of every
      component's mask, so mask entry `j` governs action `j + 1` and action 0 is
      always available. */
  predicate Permitted(mask: seq<int>, action: int)
  {
    action == 0 || (1 <= action <= |mask| && mask[action - 1] == 1)
  }

  /** The masks for the planner at `timestep`. */
  function GenerateMasks(timestep: nat): (masks: map<AgentId, seq<int>>)
    ensures masks.Keys == {PlannerId}
    ensures |masks[PlannerId]| == GreenScoreImportanceLevels
    ensures forall a :: Permitted(masks[PlannerId], a) <==>
      (a == 0 || (timestep % PolicyInterval == 0 && 1 <= a <= GreenScoreImportanceLevels))
  {
    if timestep % PolicyInterval == 0 then map[PlannerId := DefaultPlannerActionMask()]
    else map[PlannerId := NoOpPlannerActionMask()]
  }

  /** The planner weight after `component_step` with `action`, given weight `w`
      before it; a `Failure` is the `ValueError` raised for an undeclared action. */
  function WeightAfter(w: real, action: int): (r: Result<real>)
    ensures r.Failure? <==> (action < 0 || action > GreenScoreImportanceLevels)
    ensures r.Failure? ==> r.error == ValueError
    ensures action == 0 ==> r == Success(w)
    ensures 1 <= action <= GreenScoreImportanceLevels ==> r == Success(action as real * LevelStep)
  {
    if action == 0 then Success(w)
    else if 1 <= action <= GreenScoreImportanceLevels then Success(action as real * LevelStep)
    else Failure(ValueError)
  }

  /** `component_step`: reads the planner's action and updates its weight. Only the
      planner's `GreenScoreImportance` is written; on `ValueError` nothing is. */
  method ComponentStep(planner: Planner, plannerAction: int) returns (o: Outcome)
    modifies planner
    ensures WeightAfter(old(planner.GreenScoreImportance), plannerAction).Success? ==>
      o == Pass && planner.GreenScoreImportance == WeightAfter(old(planner.GreenScoreImportance), plannerAction).value
    ensures WeightAfter(old(planner.GreenScoreImportance), plannerAction).Failure? ==>
      o == Fail(ValueError) && planner.GreenScoreImportance == old(planner.GreenScoreImportance)
  {
    if plannerAction == 0 {
      // the importance is not being changed
      o := Pass;
    } else if 1 <= plannerAction <= GreenScoreImportanceLevels {
      var greenScoreImportance := plannerAction as real * 0.05;
      planner.GreenScoreImportance := greenScoreImportance;
      o := Pass;
    } else {
      o := Fail(ValueError);
    }
  }

  /** The weight importance level `m` stands for. */
  function Level(m: int): real
  {
    m as real * LevelStep
  }

  /** A weight the planner can hold: a multiple of 5% between 0 and 100%. */
  ghost predicate OnGrid(w: real)
  {
    exists m: int :: 0 <= m <= GreenScoreImportanceLevels && w == Level(m)
  }

  /** The weight starts on the grid and every accepted action keeps it there, so it
      always lies in [0, 1]. */
  lemma WeightStaysOnGrid(w: real, action: int)
    requires OnGrid(w)
    requires WeightAfter(w, action).Success?
    ensures OnGrid(WeightAfter(w, action).value)
    ensures 0.0 <= WeightAfter(w, action).value <= 1.0
  {
    if action != 0 {
      assert WeightAfter(w, action).value == Level(action);
    } else {
      var m: int :| 0 <= m <= GreenScoreImportanceLevels && w == Level(m);
    }
  }

  lemma InitialWeightOnGrid()
    ensures OnGrid(GetAdditionalStateFields("BasicPlanner")["GreenScoreImportance"])
  {
    assert 0.0 == Level(0);
  }

  /** Applying the same accepted action twice leaves the weight the first
      application gave. */
  lemma WeightIdempotent(w: real, action: int)
    requires WeightAfter(w, action).Success?
    ensures WeightAfter(WeightAfter(w, action).value, action) == WeightAfter(w, action)
  {
  }

  /** Every action the planner's mask permits is accepted, and, off the policy
      interval, the only permitted action leaves the weight as it was. */
  lemma MaskedActionsAccepted(timestep: nat, w: real, action: int)
    requires Permitted(GenerateMasks(timestep)[PlannerId], action)
    ensures WeightAfter(w, action).Success?
    ensures timestep % PolicyInterval != 0 ==> WeightAfter(w, action) == Success(w)
  {
  }

  /** The accepted actions are exactly the declared count plus the NO-OP action:
      `0..GetNActions("BasicPlanner")`, one more than the mask's length. */
  lemma AcceptedRangeMatchesDeclaredCount(w: real, action: int)
    ensures WeightAfter(w, action).Success? <==>
      0 <= action <= GetNActions("BasicPlanner").value
    ensures |DefaultPlannerActionMask()| == GetNActions("BasicPlanner").value
  {
  }
}
