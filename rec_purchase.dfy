/** The agent-side component `BuyRECFromVirtualStore`: each tick every agent may
    buy renewable-energy certificates in packages of 5% of its consumed energy,
    which raises the newest sample of its 24-hour green-score window. */
module RecPurchase {
  import opened Entities
  import opened Numeric

  /** Price per unit of consumed energy of a 100% REC cover. */
  const RecPrice: real := 0.007

  /** The number of REC packages an agent can buy, each 5% of its consumption. */
  const RecPackages: nat := 20

  /** The share one package covers. */
  const PackageShare: real := 0.05

  /** The number of actions the component declares for an agent class. */
  function GetNActions(agentClsName: string): (n: Option<nat>)
    ensures n.Some? <==> agentClsName == "BasicMobileAgent"
    ensures n.Some? ==> n.value == RecPackages
  {
    if agentClsName == "BasicMobileAgent" then Some(RecPackages) else None
  }

  function RecMask(): seq<real>
  {
    seq(RecPackages, _ => 1.0)
  }

  /** Whether a mask lets an agent choose `action`; as for the planner, the
      framework's NO-OP action 0 comes in front of the component's mask. */
  predicate Permitted(mask: seq<real>, action: int)
  {
    action == 0 || (1 <= action <= |mask| && mask[action - 1] == 1.0)
  }

  /** `generate_masks`: a mask of 20 ones for every mobile agent, on every tick. */
  method GenerateMasks(agents: array<Endogenous>) returns (masks: map<AgentId, seq<real>>)
    ensures masks.Keys == MobileIds(agents.Length)
    ensures forall id :: id in masks ==> masks[id] == RecMask()
    ensures forall id, a :: id in masks ==> (Permitted(masks[id], a) <==> ValidAction(a))
  {
    masks := map[];
    var i := 0;
    while i < agents.Length
      invariant 0 <= i <= agents.Length
      invariant masks.Keys == MobileIds(i)
      invariant forall id :: id in masks ==> masks[id] == RecMask()
    {
      masks := masks[Mobile(i) := RecMask()];
      i := i + 1;
    }
  }

  /** The actions `component_step` accepts. */
  predicate ValidAction(action: int)
  {
    0 <= action <= RecPackages
  }

  function RecsPercentage(action: int): real
  {
    action as real * PackageShare
  }

  /** The green score of the current hour after buying `action` packages. */
  function NewGreenScore(e: Endogenous, action: int): real
  {
    Min(1.0, e.InitialGreenScore + RecsPercentage(action))
  }

  /** Drops the oldest sample (numpy's `w[1:]`, which is empty for an empty
      window) and appends `x`. */
  function ShiftWindow(window: seq<real>, x: real): seq<real>
  {
    (if |window| == 0 then [] else window[1..]) + [x]
  }

  /** The per-agent body of `component_step` for an accepted action, with `w` the
      planner's weight read at that moment. */
  function BuyRecs(e: Endogenous, w: real, action: int): (r: Endogenous)
    requires ValidAction(action)
    ensures |r.GreenScoresLastDay| == if |e.GreenScoresLastDay| == 0 then 1 else |e.GreenScoresLastDay|
    ensures e.InitialGreenScore <= 1.0 ==>
      e.InitialGreenScore <= r.GreenScoresLastDay[|r.GreenScoresLastDay| - 1] <= 1.0
    ensures r.RECsPrice == 0.0 <== action == 0 || e.ConsumedEnergy == 0.0
  {
    var recsPercentage := RecsPercentage(action);
    var window := ShiftWindow(e.GreenScoresLastDay, NewGreenScore(e, action));
    var green := Mean(window);
    e.(GreenScoresLastDay := window,
       GreenScore := green,
       RECsPrice := RecPrice * e.ConsumedEnergy * recsPercentage,
       TotalScore := w * green + (1.0 - w) * e.ReliabilityScore)
  }

  /** `component_step` over the agents in the iteration order `order`, with
      `actions[i]` the action of agent `i`. Agents are updated one at a time; the
      first rejected action ends the step with `ValueError`, leaving the agents
      before it updated and those after it untouched. */
  function RecStep(agents: seq<Endogenous>, w: real, order: seq<nat>, actions: seq<int>): (r: (seq<Endogenous>, Outcome))
    requires |actions| == |agents|
    requires forall k :: 0 <= k < |order| ==> order[k] < |agents|
    ensures |r.0| == |agents|
    decreases |order|
  {
    if |order| == 0 then (agents, Pass)
    else
      var i := order[0];
      if ValidAction(actions[i]) then
        RecStep(agents[i := BuyRecs(agents[i], w, actions[i])], w, order[1..], actions)
      else
        (agents, Fail(ValueError))
  }

  /** `component_step`, updating each agent's record in place in the order given
      by `world.get_random_order_agents()`. */
  method ComponentStep(agents: array<Endogenous>, planner: Planner, order: seq<nat>, actions: seq<int>) returns (o: Outcome)
    requires |actions| == agents.Length
    requires forall k :: 0 <= k < |order| ==> order[k] < agents.Length
    modifies agents
    ensures (agents[..], o) == RecStep(old(agents[..]), planner.GreenScoreImportance, order, actions)
  {
    ghost var w := planner.GreenScoreImportance;
    var k := 0;
    while k < |order|
      invariant 0 <= k <= |order|
      invariant RecStep(agents[..], w, order[k..], actions) == RecStep(old(agents[..]), w, order, actions)
    {
      var i := order[k];
      var action := actions[i];
      assert order[k..][0] == i && order[k..][1..] == order[k + 1..];
      if 0 <= action <= RecPackages {
        ghost var before := agents[..];
        var recsPercentage := action as real * 0.05;
        var newGreenScore := Min(1.0, agents[i].InitialGreenScore + recsPercentage);
        var lastDay := agents[i].GreenScoresLastDay;
        agents[i] := agents[i].(GreenScoresLastDay := if |lastDay| == 0 then [] else lastDay[1..]);
        agents[i] := agents[i].(GreenScoresLastDay := agents[i].GreenScoresLastDay + [newGreenScore]);
        agents[i] := agents[i].(GreenScore := Mean(agents[i].GreenScoresLastDay));
        agents[i] := agents[i].(RECsPrice := RecPrice * agents[i].ConsumedEnergy * recsPercentage);
        var greenScoreImportance := planner.GreenScoreImportance;
        var reliabilityScoreImportance := 1.0 - greenScoreImportance;
        agents[i] := agents[i].(TotalScore := greenScoreImportance * agents[i].GreenScore
                                            + reliabilityScoreImportance * agents[i].ReliabilityScore);
        assert agents[i] == BuyRecs(before[i], w, action);
        assert agents[..] == before[i := BuyRecs(before[i], w, action)];
      } else {
        return Fail(ValueError);
      }
      k := k + 1;
    }
    o := Pass;
  }

  // ---------------------------------------------------------------------------
  // One agent's purchase

  /** A full 24-slot window stays full: the oldest sample is dropped, the others
      move one place towards the front, and the new sample, at most 1, is last. */
  lemma BuyRecsWindow(e: Endogenous, w: real, action: int)
    requires ValidAction(action)
    requires |e.GreenScoresLastDay| == WindowLength
    ensures var window := BuyRecs(e, w, action).GreenScoresLastDay;
      && |window| == WindowLength
      && window[..WindowLength - 1] == e.GreenScoresLastDay[1..]
      && window[WindowLength - 1] == Min(1.0, e.InitialGreenScore + action as real * 0.05)
      && window[WindowLength - 1] <= 1.0
  {
    var window := BuyRecs(e, w, action).GreenScoresLastDay;
    assert window == e.GreenScoresLastDay[1..] + [NewGreenScore(e, action)];
  }

  /** The scores and the price after a purchase: the green score is the mean of
      the new window, the price is 0.007 per unit of consumed energy and per 100%
      covered (so buying nothing costs nothing), and the total score blends the
      green and reliability scores with the planner's weight `w`. */
  lemma BuyRecsScores(e: Endogenous, w: real, action: int)
    requires ValidAction(action)
    ensures BuyRecs(e, w, action).GreenScore == Mean(BuyRecs(e, w, action).GreenScoresLastDay)
    ensures BuyRecs(e, w, action).RECsPrice == 0.007 * e.ConsumedEnergy * (action as real * 0.05)
    ensures action == 0 ==> BuyRecs(e, w, action).RECsPrice == 0.0
    ensures TotalScoreBlends(BuyRecs(e, w, action), w)
  {
  }

  /** The fields a purchase never writes. */
  predicate KeepsUnboughtFields(before: Endogenous, after: Endogenous)
  {
    && after.Labor == before.Labor
    && after.NewData == before.NewData
    && after.TotalData == before.TotalData
    && after.EnergyPrice == before.EnergyPrice
    && after.InitialGreenScore == before.InitialGreenScore
    && after.ReliabilityScore == before.ReliabilityScore
    && after.ConsumedEnergy == before.ConsumedEnergy
  }

  /** A purchase writes the window, the green score, the REC price and the total
      score, and nothing else. */
  lemma BuyRecsFrame(e: Endogenous, w: real, action: int)
    requires ValidAction(action)
    ensures KeepsUnboughtFields(e, BuyRecs(e, w, action))
  {
  }

  /** A purchase keeps a record well formed; in particular the green score stays in
      [0, 1] and the window keeps 24 samples. */
  lemma BuyRecsPreservesWellFormed(e: Endogenous, w: real, action: int)
    requires ValidAction(action)
    requires WellFormed(e)
    ensures WellFormed(BuyRecs(e, w, action))
    ensures 0.0 <= BuyRecs(e, w, action).GreenScore <= 1.0
  {
    var old_ := e.GreenScoresLastDay;
    var x := NewGreenScore(e, action);
    var window := BuyRecs(e, w, action).GreenScoresLastDay;
    assert window == old_[1..] + [x];
    assert 0.0 <= x <= 1.0;
    forall k | 0 <= k < |window| ensures 0.0 <= window[k] <= 1.0 {
      if k < |window| - 1 {
        assert window[k] == old_[k + 1];
      }
    }
    WellFormedGreenScore(BuyRecs(e, w, action));
  }

  // ---------------------------------------------------------------------------
  // The whole step

  predicate Distinct(order: seq<nat>)
  {
    forall p, q :: 0 <= p < q < |order| ==> order[p] != order[q]
  }

  /** What `get_random_order_agents` yields: every one of the `n` agents once. */
  predicate IsPermutation(order: seq<nat>, n: nat)
  {
    && |order| == n
    && Distinct(order)
    && (forall k :: 0 <= k < |order| ==> order[k] < n)
    && (forall i: nat :: i < n ==> i in order)
  }

  /** The position in `order` of the first agent whose action is rejected, or
      `|order|` when every action is accepted. */
  function FirstInvalid(order: seq<nat>, actions: seq<int>): (j: nat)
    requires forall k :: 0 <= k < |order| ==> order[k] < |actions|
    ensures j <= |order|
    ensures forall k :: 0 <= k < j ==> ValidAction(actions[order[k]])
    ensures j < |order| ==> !ValidAction(actions[order[j]])
  {
    if |order| == 0 || !ValidAction(actions[order[0]]) then 0
    else 1 + FirstInvalid(order[1..], actions)
  }

  /** The effect of a whole step when no agent comes twice: the agents before the
      first rejected action are updated as `BuyRecs` says, all others are left as
      they were, and the step raises `ValueError` exactly when some action is
      rejected. Updates made before the error are not undone. */
  lemma {:induction false} RecStepEffect(agents: seq<Endogenous>, w: real, order: seq<nat>, actions: seq<int>)
    requires |actions| == |agents|
    requires forall k :: 0 <= k < |order| ==> order[k] < |agents|
    requires Distinct(order)
    ensures var j := FirstInvalid(order, actions);
      var r := RecStep(agents, w, order, actions);
      && r.1 == (if j == |order| then Pass else Fail(ValueError))
      && (forall i :: 0 <= i < |agents| ==>
            r.0[i] == if i in order[..j] then BuyRecs(agents[i], w, actions[i]) else agents[i])
    decreases |order|
  {
    if |order| > 0 && ValidAction(actions[order[0]]) {
      var i0 := order[0];
      var agents' := agents[i0 := BuyRecs(agents[i0], w, actions[i0])];
      var rest := order[1..];
      assert Distinct(rest) by {
        forall p, q | 0 <= p < q < |rest| ensures rest[p] != rest[q] {
          assert rest[p] == order[p + 1] && rest[q] == order[q + 1];
        }
      }
      RecStepEffect(agents', w, rest, actions);
      var j := FirstInvalid(order, actions);
      assert j == 1 + FirstInvalid(rest, actions);
      assert order[..j] == [i0] + rest[..j - 1];
      assert i0 !in rest by {
        forall q | 0 <= q < |rest| ensures rest[q] != i0 {
          assert rest[q] == order[q + 1];
        }
      }
    }
  }

  /** Every agent's accepted purchase, each applied to that agent's own record. */
  function BuyAll(agents: seq<Endogenous>, w: real, actions: seq<int>): seq<Endogenous>
    requires |actions| == |agents|
    requires forall i :: 0 <= i < |agents| ==> ValidAction(actions[i])
  {
    seq(|agents|, i requires 0 <= i < |agents| => BuyRecs(agents[i], w, actions[i]))
  }

  /** With every action accepted and the order a permutation, the step succeeds and
      every agent ends with its own purchase applied, whatever the order. */
  lemma RecStepAllAccepted(agents: seq<Endogenous>, w: real, order: seq<nat>, actions: seq<int>)
    requires |actions| == |agents|
    requires IsPermutation(order, |agents|)
    requires forall i :: 0 <= i < |agents| ==> ValidAction(actions[i])
    ensures RecStep(agents, w, order, actions) == (BuyAll(agents, w, actions), Pass)
  {
    RecStepEffect(agents, w, order, actions);
    var j := FirstInvalid(order, actions);
    assert j == |order|;
    assert order[..j] == order;
    var r := RecStep(agents, w, order, actions);
    forall i | 0 <= i < |agents| ensures r.0[i] == BuyAll(agents, w, actions)[i] {
      assert i in order;
    }
    assert r.0 == BuyAll(agents, w, actions);
  }

  /** The iteration order does not matter when every action is accepted. */
  lemma RecStepOrderIndependent(agents: seq<Endogenous>, w: real, order1: seq<nat>, order2: seq<nat>, actions: seq<int>)
    requires |actions| == |agents|
    requires IsPermutation(order1, |agents|) && IsPermutation(order2, |agents|)
    requires forall i :: 0 <= i < |agents| ==> ValidAction(actions[i])
    ensures RecStep(agents, w, order1, actions) == RecStep(agents, w, order2, actions)
  {
    RecStepAllAccepted(agents, w, order1, actions);
    RecStepAllAccepted(agents, w, order2, actions);
  }

  /** A rejected action part-way through the order raises `ValueError` and is not
      atomic: the agents it reached first keep their purchases. */
  lemma RecStepRejectedNotAtomic(agents: seq<Endogenous>, w: real, order: seq<nat>, actions: seq<int>, j: nat)
    requires |actions| == |agents|
    requires forall k :: 0 <= k < |order| ==> order[k] < |agents|
    requires Distinct(order)
    requires j < |order| && !ValidAction(actions[order[j]])
    requires forall k :: 0 <= k < j ==> ValidAction(actions[order[k]])
    ensures RecStep(agents, w, order, actions).1 == Fail(ValueError)
    ensures forall k :: 0 <= k < j ==>
      RecStep(agents, w, order, actions).0[order[k]] == BuyRecs(agents[order[k]], w, actions[order[k]])
    ensures forall k :: j <= k < |order| ==>
      RecStep(agents, w, order, actions).0[order[k]] == agents[order[k]]
  {
    RecStepEffect(agents, w, order, actions);
    var r := RecStep(agents, w, order, actions);
    assert FirstInvalid(order, actions) == j;
    forall k | 0 <= k < j ensures r.0[order[k]] == BuyRecs(agents[order[k]], w, actions[order[k]]) {
      assert order[..j][k] == order[k];
    }
  }

  /** After a step whose actions are all accepted, every agent's total score is the
      blend of its green and reliability scores under the current planner weight. */
  lemma RecStepTotalScoresConsistent(agents: seq<Endogenous>, w: real, order: seq<nat>, actions: seq<int>)
    requires |actions| == |agents|
    requires IsPermutation(order, |agents|)
    requires forall i :: 0 <= i < |agents| ==> ValidAction(actions[i])
    ensures forall i :: 0 <= i < |agents| ==> TotalScoreBlends(RecStep(agents, w, order, actions).0[i], w)
  {
    RecStepAllAccepted(agents, w, order, actions);
  }

  /** Whatever the order and whether or not it raises, the step writes no field
      other than the window, the green score, the REC price and the total score. */
  lemma {:induction false} RecStepFrame(agents: seq<Endogenous>, w: real, order: seq<nat>, actions: seq<int>)
    requires |actions| == |agents|
    requires forall k :: 0 <= k < |order| ==> order[k] < |agents|
    ensures forall i :: 0 <= i < |agents| ==> KeepsUnboughtFields(agents[i], RecStep(agents, w, order, actions).0[i])
    decreases |order|
  {
    if |order| > 0 && ValidAction(actions[order[0]]) {
      var i0 := order[0];
      var agents' := agents[i0 := BuyRecs(agents[i0], w, actions[i0])];
      RecStepFrame(agents', w, order[1..], actions);
    }
  }

  /** Whatever the order and whether or not it raises, the step keeps every
      record well formed. */
  lemma {:induction false} RecStepPreservesWellFormed(agents: seq<Endogenous>, w: real, order: seq<nat>, actions: seq<int>)
    requires |actions| == |agents|
    requires forall k :: 0 <= k < |order| ==> order[k] < |agents|
    requires forall i :: 0 <= i < |agents| ==> WellFormed(agents[i])
    ensures forall i :: 0 <= i < |agents| ==> WellFormed(RecStep(agents, w, order, actions).0[i])
    decreases |order|
  {
    if |order| > 0 && ValidAction(actions[order[0]]) {
      var i0 := order[0];
      BuyRecsPreservesWellFormed(agents[i0], w, actions[i0]);
      var agents' := agents[i0 := BuyRecs(agents[i0], w, actions[i0])];
      assert forall i :: 0 <= i < |agents'| ==> WellFormed(agents'[i]);
      assert RecStep(agents, w, order, actions) == RecStep(agents', w, order[1..], actions);
      RecStepPreservesWellFormed(agents', w, order[1..], actions);
      var r := RecStep(agents', w, order[1..], actions).0;
      assert forall i :: 0 <= i < |r| ==> WellFormed(r[i]);
    }
  }

  /** The masks and the accepted actions agree: the mask (after the framework's
      NO-OP) permits exactly the actions `component_step` accepts, one more than
      the declared count. */
  lemma MaskMatchesAcceptedActions(action: int)
    ensures Permitted(RecMask(), action) <==> ValidAction(action)
    ensures |RecMask()| == GetNActions("BasicMobileAgent").value
  {
  }
}
