/**
 * The reinforcement-learning reward of a round and its inverse. A round that
 * allocates `action` PRBs costs `action`, plus the violation cost when the QoS
 * target was missed; the negated cost is normalised so that the cheapest
 * successful round scores 1 and the dearest failed round scores 0.
 */
module Reward {
  import opened Parameters

  /** The cost of an allocation under the "normal" cost type: the PRB count itself. */
  function CostOfAction(action: real): real
  {
    action
  }

  /** Largest and smallest possible round cost, written out as their values;
      `CostRange` derives them from the PRB list and the violation cost. */
  const MaxCost: real := 7090.0
  const MinCost: real := 20.0

  /** Normalised reward of a round with allocation `action` and QoS reward `qos`:
      the negated round cost, shifted by the dearest cost (7090) and divided by
      the cost range (7070). `RlRewardFormula` restates it over the named costs. */
  function RlReward(action: real, qos: real): real
  {
    var roundCost := CostOfAction(action) + (1.0 - qos) * 7000.0;
    (-roundCost + 7090.0) / 7070.0
  }

  /** Recovers the QoS reward of a round from its allocation and normalised
      reward; `QosRewardFormula` restates it over the named costs. */
  function QosReward(action: real, rlReward: real): real
  {
    var roundCost := -(rlReward * 7070.0 - 7090.0);
    1.0 - (roundCost - CostOfAction(action)) / 7000.0
  }

  /** The reward is the source's normalisation of the negated round cost between
      the rewards of the dearest and the cheapest round. */
  lemma {:induction false} RlRewardFormula(action: real, qos: real)
    ensures var minReward := -MaxCost;
            var maxReward := -MinCost;
            var roundCost := CostOfAction(action) + (1.0 - qos) * QoSCostViolation;
            RlReward(action, qos) == (-roundCost - minReward) / (maxReward - minReward)
  {
  }

  /** The inverse is the source's de-normalisation followed by solving the round
      cost for the QoS reward. */
  lemma {:induction false} QosRewardFormula(action: real, rlReward: real)
    ensures var minReward := -MaxCost;
            var maxReward := -MinCost;
            var roundCost := -(rlReward * (maxReward - minReward) + minReward);
            QosReward(action, rlReward) == 1.0 - (roundCost - CostOfAction(action)) / QoSCostViolation
  {
  }

  /** The normalisation constants: costs range over [20, 7090]. */
  lemma {:induction false} CostRange()
    ensures MaxCost == PRBs[NumArms - 1] as real + QoSCostViolation
    ensures MinCost == PRBs[0] as real
  {
  }

  /** QoS reward -> RL reward -> QoS reward is the identity, for every allocation. */
  lemma {:induction false} QosRoundTrip(action: real, qos: real)
    ensures QosReward(action, RlReward(action, qos)) == qos
  {
  }

  /** RL reward -> QoS reward -> RL reward is the identity, for every allocation. */
  lemma {:induction false} RlRoundTrip(action: real, rlReward: real)
    ensures RlReward(action, QosReward(action, rlReward)) == rlReward
  {
  }

  /** For allocations between the smallest and largest PRB value and a QoS
      reward in [0, 1], the RL reward lies in [0, 1]. */
  lemma {:induction false} RlRewardRange(action: real, qos: real)
    requires PRBs[0] as real <= action <= PRBs[NumArms - 1] as real
    requires 0.0 <= qos <= 1.0
    ensures 0.0 <= RlReward(action, qos) <= 1.0
  {
    CostOfViolation();
    CostRange();
  }

  /** Every arm's reward for a QoS reward in [0, 1] lies in [0, 1]. */
  lemma {:induction false} ArmRewardInUnit(arm: nat, qos: real)
    requires arm < NumArms && 0.0 <= qos <= 1.0
    ensures 0.0 <= RlReward(PRBs[arm] as real, qos) <= 1.0
  {
    assert PRBs[0] <= PRBs[arm] <= PRBs[NumArms - 1];
    RlRewardRange(PRBs[arm] as real, qos);
  }

  /** The cheapest success earns exactly 1, the dearest failure exactly 0. */
  lemma {:induction false} RlRewardExtremes()
    ensures RlReward(PRBs[0] as real, 1.0) == 1.0
    ensures RlReward(PRBs[NumArms - 1] as real, 0.0) == 0.0
  {
  }

  /** For a fixed QoS outcome, more bandwidth always earns strictly less. */
  lemma {:induction false} RlRewardDecreasing(a1: real, a2: real, qos: real)
    requires a1 < a2
    ensures RlReward(a1, qos) > RlReward(a2, qos)
  {
  }

  /** Any successful round with a valid allocation beats any failed one. */
  lemma {:induction false} SuccessBeatsFailure(a1: real, a2: real)
    requires PRBs[0] as real <= a1 <= PRBs[NumArms - 1] as real
    requires PRBs[0] as real <= a2 <= PRBs[NumArms - 1] as real
    ensures RlReward(a1, 1.0) > RlReward(a2, 0.0)
  {
  }

  /** On the PRB grid, a reward of exactly 1 is earned only by a successful round
      at the smallest allocation. */
  lemma {:induction false} RewardOneOnlyAtCheapestSuccess(arm: Arm, qos: real)
    requires qos == 0.0 || qos == 1.0
    ensures RlReward(PRBs[arm] as real, qos) == 1.0 <==> arm == 0 && qos == 1.0
  {
  }

  /** The eight grid rewards are pairwise distinct, so (arm, QoS outcome) can be
      read back from a grid reward. */
  lemma {:induction false} GridRewardsDistinct(a1: Arm, q1: real, a2: Arm, q2: real)
    requires q1 == 0.0 || q1 == 1.0
    requires q2 == 0.0 || q2 == 1.0
    requires RlReward(PRBs[a1] as real, q1) == RlReward(PRBs[a2] as real, q2)
    ensures a1 == a2 && q1 == q2
  {
  }
}
