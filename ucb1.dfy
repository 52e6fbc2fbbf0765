/**
 * The UCB1 bandit kept per context. Each arm has a pull count and a running
 * mean reward; an arm never updated is explored first, otherwise the arm with
 * the largest mean plus exploration bonus is chosen. With arm correlations a
 * failure is also charged to every smaller arm, and the success propagation to
 * larger arms is guarded by a test on the last computed reward.
 */
module Bandit {
  import opened Wrappers
  import opened Stats
  import opened Parameters
  import opened Reward

  /** The first arm with a zero count, if any. */
  function FirstZero(counts: seq<nat>): (r: Option<nat>)
    ensures r.Some? ==> r.value < |counts| && counts[r.value] == 0
    ensures r.Some? ==> forall j :: 0 <= j < r.value ==> counts[j] != 0
    ensures r.None? ==> forall j :: 0 <= j < |counts| ==> counts[j] != 0
  {
    if counts == [] then None
    else if counts[0] == 0 then Some(0)
    else match FirstZero(counts[1..])
      case None => None
      case Some(i) => Some(i + 1)
  }

  /** Upper confidence index of an arm: its mean plus the exploration bonus
      `bonus(iterations, count)` (sqrt(2 ln iterations / count) in the program). */
  function UcbIndex(avg: real, count: nat, iterations: nat, bonus: (nat, nat) -> real): real
  {
    avg + bonus(iterations, count)
  }

  function UcbIndices(counts: seq<nat>, avgs: seq<real>, iterations: nat,
                      bonus: (nat, nat) -> real): (xs: seq<real>)
    requires |counts| == |avgs|
    ensures |xs| == |counts|
    ensures forall j :: 0 <= j < |xs| ==> xs[j] == UcbIndex(avgs[j], counts[j], iterations, bonus)
  {
    seq(|counts|, j requires 0 <= j < |counts| => UcbIndex(avgs[j], counts[j], iterations, bonus))
  }

  /** The arm UCB1 plays: the first never-updated arm, otherwise the smallest
      arm with the largest upper confidence index. */
  function ArmToSelect(counts: seq<nat>, avgs: seq<real>, iterations: nat,
                       bonus: (nat, nat) -> real): (a: nat)
    requires |counts| == |avgs| && counts != []
    ensures a < |counts|
    ensures (exists i :: 0 <= i < |counts| && counts[i] == 0) ==>
      counts[a] == 0 && forall j :: 0 <= j < a ==> counts[j] != 0
    ensures (forall i :: 0 <= i < |counts| ==> counts[i] != 0) ==>
      (forall j :: 0 <= j < |counts| ==>
        UcbIndex(avgs[j], counts[j], iterations, bonus) <= UcbIndex(avgs[a], counts[a], iterations, bonus))
      && (forall j :: 0 <= j < a ==>
        UcbIndex(avgs[j], counts[j], iterations, bonus) < UcbIndex(avgs[a], counts[a], iterations, bonus))
  {
    match FirstZero(counts)
      case Some(i) => i
      case None => ArgmaxFirst(UcbIndices(counts, avgs, iterations, bonus))
  }

  /** The value of the reused `reward` variable when the success test runs: the
      reward of the arm just below the selected one after a propagated failure,
      and the selected arm's own reward otherwise. */
  function RewardAtSuccessTest(correlations: bool, selected: Arm, qos: real): real
  {
    if correlations && qos == 0.0 && selected > 0
    then RlReward(PRBs[selected - 1] as real, qos)
    else RlReward(PRBs[selected] as real, qos)
  }

  /** Whether `update(selected, qos)` feeds a reward to arm `i`. */
  predicate UpdatedBy(correlations: bool, selected: Arm, qos: real, i: nat)
  {
    i == selected
    || (correlations && qos == 0.0 && i < selected)
    || (correlations && RewardAtSuccessTest(correlations, selected, qos) == 1.0 && selected < i)
  }

  /** With a QoS verdict in {0, 1}, the success branch fires exactly when arm 0
      was played and met the target: a success at a larger arm is not propagated. */
  lemma {:induction false} SuccessPropagationOnlyFromArmZero(selected: Arm, qos: real)
    requires qos == 0.0 || qos == 1.0
    ensures RewardAtSuccessTest(true, selected, qos) == 1.0 <==> selected == 0 && qos == 1.0
  {
    if qos == 0.0 && selected > 0 {
      RewardOneOnlyAtCheapestSuccess(selected - 1, qos);
    } else {
      RewardOneOnlyAtCheapestSuccess(selected, qos);
    }
  }

  /** After a failure with correlations, exactly the arms up to the selected one
      are updated. */
  lemma {:induction false} FailureUpdatesSmallerArms(selected: Arm, i: nat)
    ensures UpdatedBy(true, selected, 0.0, i) <==> i <= selected
  {
    if selected > 0 {
      RewardOneOnlyAtCheapestSuccess(selected - 1, 0.0);
    } else {
      RewardOneOnlyAtCheapestSuccess(selected, 0.0);
    }
  }

  /** A success at arm 0 with correlations updates every arm; a success at any
      other arm updates that arm alone. */
  lemma {:induction false} SuccessUpdates(selected: Arm, i: nat)
    ensures selected == 0 ==> UpdatedBy(true, selected, 1.0, i)
    ensures selected > 0 ==> (UpdatedBy(true, selected, 1.0, i) <==> i == selected)
  {
    RewardOneOnlyAtCheapestSuccess(selected, 1.0);
  }

  class UCB1 {
    const numArms: nat
    const armCorrelations: bool
    var iterations: nat
    var counts: seq<nat>
    var avgRewards: seq<real>
    var timesSelected: seq<nat>
    /** The rewards fed to each arm so far, oldest first. */
    ghost var fed: seq<seq<real>>

    /** Every arm's count is the number of rewards it was fed, every reward
        fed lies in [0, 1], and the arm's running mean is their mean. */
    ghost predicate Valid()
      reads this
    {
      |counts| == numArms && |avgRewards| == numArms && |timesSelected| == numArms
      && |fed| == numArms
      && forall i :: 0 <= i < numArms ==>
           counts[i] == |fed[i]| && AllIn(fed[i], 0.0, 1.0) && avgRewards[i] == Mean(fed[i])
    }

    /** Every arm's running mean stays in [0, 1]. */
    lemma AveragesInUnit()
      requires Valid()
      ensures forall i :: 0 <= i < numArms ==> 0.0 <= avgRewards[i] <= 1.0
    {
      forall i | 0 <= i < numArms
        ensures 0.0 <= avgRewards[i] <= 1.0
      {
        if fed[i] != [] {
          MeanBounds(fed[i], 0.0, 1.0);
        }
      }
    }

    constructor (numArms: nat, armCorrelations: bool)
      ensures Valid()
      ensures this.numArms == numArms && this.armCorrelations == armCorrelations
      ensures iterations == 0
      ensures counts == seq(numArms, _ => 0) && timesSelected == seq(numArms, _ => 0)
      ensures avgRewards == seq(numArms, _ => 0.0)
      ensures fed == seq(numArms, _ => [])
    {
      this.numArms := numArms;
      this.armCorrelations := armCorrelations;
      iterations := 0;
      counts := seq(numArms, _ => 0);
      avgRewards := seq(numArms, _ => 0.0);
      timesSelected := seq(numArms, _ => 0);
      fed := seq(numArms, _ => []);
    }

    /** Plays an arm: only `timesSelected` of the played arm changes. */
    method SelectArm(bonus: (nat, nat) -> real) returns (selected: nat)
      requires Valid() && numArms > 0
      modifies this
      ensures Valid()
      ensures selected == ArmToSelect(counts, avgRewards, iterations, bonus)
      ensures counts == old(counts) && avgRewards == old(avgRewards)
      ensures iterations == old(iterations) && fed == old(fed)
      ensures timesSelected == old(timesSelected)[selected := old(timesSelected)[selected] + 1]
    {
      selected := ChooseArm(bonus);
      timesSelected := timesSelected[selected := timesSelected[selected] + 1];
    }

    /** The scan of `select_arm`: the first arm never updated, otherwise the
        first arm of largest UCB index. */
    method ChooseArm(bonus: (nat, nat) -> real) returns (selected: nat)
      requires |counts| == numArms && |avgRewards| == numArms && numArms > 0
      ensures selected < numArms
      ensures selected == ArmToSelect(counts, avgRewards, iterations, bonus)
    {
      var ucbIndices: seq<real> := [];
      var arm := 0;
      while arm < numArms
        invariant 0 <= arm <= numArms
        invariant forall j :: 0 <= j < arm ==> counts[j] != 0
        invariant ucbIndices == UcbIndices(counts[..arm], avgRewards[..arm], iterations, bonus)
      {
        if counts[arm] == 0 {
          assert FirstZero(counts) == Some(arm);
          return arm;
        }
        ucbIndices := ucbIndices + [UcbIndex(avgRewards[arm], counts[arm], iterations, bonus)];
        arm := arm + 1;
      }
      assert counts[..arm] == counts && avgRewards[..arm] == avgRewards;
      selected := FirstMax(ucbIndices);
    }

    /** Feeds one reward to `arm`: its count grows by one and its running mean
        absorbs the reward. */
    method SingleArmUpdate(arm: nat, reward: real)
      requires Valid() && arm < numArms && 0.0 <= reward <= 1.0
      modifies this
      ensures Valid()
      ensures fed == old(fed)[arm := old(fed[arm]) + [reward]]
      ensures counts == old(counts)[arm := old(counts[arm]) + 1]
      ensures avgRewards[arm] == Mean(old(fed[arm]) + [reward])
      ensures forall j :: 0 <= j < numArms && j != arm ==> avgRewards[j] == old(avgRewards[j])
      ensures iterations == old(iterations) && timesSelected == old(timesSelected)
    {
      var newCount := counts[arm] + 1;
      var oldCount := newCount - 1;
      var oldAvg := avgRewards[arm];
      MeanAppend(fed[arm], reward);
      counts := counts[arm := newCount];
      avgRewards := avgRewards[arm := 1.0 / (newCount as real) * (oldAvg * (oldCount as real) + reward)];
      fed := fed[arm := fed[arm] + [reward]];
    }

    /** Learns from the QoS verdict of a round played with `selected`: every arm
        `UpdatedBy` selects is fed its own reward for that verdict, once. */
    method Update(selected: Arm, qos: real)
      requires Valid() && selected < numArms && numArms <= NumArms && 0.0 <= qos <= 1.0
      modifies this
      ensures Valid()
      ensures iterations == old(iterations) + 1 && timesSelected == old(timesSelected)
      ensures forall i :: 0 <= i < numArms ==>
        fed[i] == old(fed[i]) + (if UpdatedBy(armCorrelations, selected, qos, i)
                                 then [RlReward(PRBs[i] as real, qos)] else [])
    {
      var reward := RlReward(PRBs[selected] as real, qos);
      ArmRewardInUnit(selected, qos);
      SingleArmUpdate(selected, reward);
      if armCorrelations {
        if qos == 0.0 {
          reward := UpdateSmallerArms(selected, qos, reward);
        }
        assert reward == RewardAtSuccessTest(armCorrelations, selected, qos);
        if reward == 1.0 {
          UpdateLargerArms(selected, qos);
        }
      }
      iterations := iterations + 1;
    }

    /** Feeds every arm below `selected` its own reward for verdict `qos`; the
        returned value is the last reward computed (the input one if none). */
    method UpdateSmallerArms(selected: Arm, qos: real, reward0: real) returns (reward: real)
      requires Valid() && selected < numArms && numArms <= NumArms && 0.0 <= qos <= 1.0
      modifies this
      ensures Valid()
      ensures iterations == old(iterations) && timesSelected == old(timesSelected)
      ensures reward == if selected == 0 then reward0 else RlReward(PRBs[selected - 1] as real, qos)
      ensures forall i :: 0 <= i < numArms ==>
        fed[i] == old(fed[i]) + (if i < selected then [RlReward(PRBs[i] as real, qos)] else [])
    {
      reward := reward0;
      var arm := 0;
      while arm < selected
        invariant 0 <= arm <= selected
        invariant Valid() && timesSelected == old(timesSelected) && iterations == old(iterations)
        invariant reward == if arm == 0 then reward0 else RlReward(PRBs[arm - 1] as real, qos)
        invariant forall i :: 0 <= i < numArms ==>
          fed[i] == old(fed[i]) + (if i < arm then [RlReward(PRBs[i] as real, qos)] else [])
      {
        reward := RlReward(PRBs[arm] as real, qos);
        ArmRewardInUnit(arm, qos);
        SingleArmUpdate(arm, reward);
        arm := arm + 1;
      }
    }

    /** Feeds every arm above `selected` its own reward for verdict `qos`. */
    method UpdateLargerArms(selected: Arm, qos: real)
      requires Valid() && selected < numArms && numArms <= NumArms && 0.0 <= qos <= 1.0
      modifies this
      ensures Valid()
      ensures iterations == old(iterations) && timesSelected == old(timesSelected)
      ensures forall i :: 0 <= i < numArms ==>
        fed[i] == old(fed[i]) + (if selected < i then [RlReward(PRBs[i] as real, qos)] else [])
    {
      var arm := selected + 1;
      while arm < numArms
        invariant selected + 1 <= arm <= numArms
        invariant Valid() && timesSelected == old(timesSelected) && iterations == old(iterations)
        invariant forall i :: 0 <= i < numArms ==>
          fed[i] == old(fed[i]) + (if selected < i < arm then [RlReward(PRBs[i] as real, qos)] else [])
      {
        var reward := RlReward(PRBs[arm] as real, qos);
        ArmRewardInUnit(arm, qos);
        SingleArmUpdate(arm, reward);
        arm := arm + 1;
      }
    }
  }

  /** Scans for the largest value, replacing the candidate only on a strict
      improvement: Python's `index(max(...))`. */
  method FirstMax(xs: seq<real>) returns (selected: nat)
    requires xs != []
    ensures selected == ArgmaxFirst(xs)
  {
    selected := 0;
    var i := 1;
    while i < |xs|
      invariant 1 <= i <= |xs|
      invariant selected < i
      invariant forall j :: 0 <= j < i ==> xs[j] <= xs[selected]
      invariant forall j :: 0 <= j < selected ==> xs[j] < xs[selected]
    {
      if xs[i] > xs[selected] {
        selected := i;
      }
      i := i + 1;
    }
    ArgmaxFirstUnique(xs, selected);
  }

  /** The first maximum is unique. */
  lemma {:induction false} ArgmaxFirstUnique(xs: seq<real>, i: nat)
    requires i < |xs|
    requires forall j :: 0 <= j < |xs| ==> xs[j] <= xs[i]
    requires forall j :: 0 <= j < i ==> xs[j] < xs[i]
    ensures ArgmaxFirst(xs) == i
  {
  }
}
