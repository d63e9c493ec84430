/** The entities the filecoin-energy scenario works on: the endogenous record of
    a mobile agent (a storage miner), the identities used as keys of the reward
    snapshot, the planner whose weight the policy component sets, and the error
    datatypes that stand for Python's exceptions. */
module Entities {
  import opened Numeric

  datatype Option<T> = None | Some(value: T)

  /** The two exceptions the core can raise: `ValueError` for an action outside the
      declared range, `KeyError` for a dictionary lookup of a missing key. */
  datatype Error = ValueError | KeyError

  datatype Result<T> = Success(value: T) | Failure(error: Error)

  /** The result of a step that returns nothing in Python but may raise. */
  datatype Outcome = Pass | Fail(error: Error)

  /** `agent.idx` of a mobile agent (its position in `world.agents`), or the planner's idx. */
  datatype AgentId = Mobile(idx: nat) | PlannerId

  /** One agent's `state["endogenous"]` dictionary, one field per registered
      endogenous entity. `GreenScoresLastDay` is the 24-slot window of hourly
      green scores; every other field is a scalar. */
  datatype Endogenous = Endogenous(
    Labor: real,
    NewData: real,
    TotalData: real,
    EnergyPrice: real,
    RECsPrice: real,
    GreenScore: real,
    GreenScoresLastDay: seq<real>,
    InitialGreenScore: real,
    ReliabilityScore: real,
    TotalScore: real,
    ConsumedEnergy: real)

  /** Number of hourly samples in the green-score window. */
  const WindowLength: nat := 24

  /** What every agent's record satisfies from reset on: a full window of
      green-score samples in [0, 1], the green score its mean, an initial green
      score in [0, 1], and no negative storage. */
  ghost predicate WellFormed(e: Endogenous)
  {
    && |e.GreenScoresLastDay| == WindowLength
    && AllWithin(e.GreenScoresLastDay, 0.0, 1.0)
    && e.GreenScore == Mean(e.GreenScoresLastDay)
    && 0.0 <= e.InitialGreenScore <= 1.0
    && 0.0 <= e.NewData
    && 0.0 <= e.TotalData
  }

  /** The total score blends the green and reliability scores with weight `w`. */
  predicate TotalScoreBlends(e: Endogenous, w: real)
  {
    e.TotalScore == w * e.GreenScore + (1.0 - w) * e.ReliabilityScore
  }

  /** The green score of a well-formed record lies in [0, 1]. */
  lemma WellFormedGreenScore(e: Endogenous)
    requires WellFormed(e)
    ensures 0.0 <= e.GreenScore <= 1.0
  {
    MeanWithin(e.GreenScoresLastDay, 0.0, 1.0);
  }

  /** The planner's state, of which the core reads and writes one field: the weight
      `w` of the green score in every agent's total score. */
  class Planner {
    var GreenScoreImportance: real

    /** The planner starts with the extra state field the policy component declares. */
    constructor ()
      ensures GreenScoreImportance == 0.0
    {
      GreenScoreImportance := 0.0;
    }
  }

  /** The ids of the mobile agents `world.agents` of a world with `n` of them. */
  ghost function MobileIds(n: nat): set<AgentId>
  {
    set i: nat | i < n :: Mobile(i)
  }

  /** The ids of `all_agents`: the mobile agents and the planner. */
  ghost function AllIds(n: nat): set<AgentId>
  {
    MobileIds(n) + {PlannerId}
  }
}
