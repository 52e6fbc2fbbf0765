/**
 * Rows of the trajectory the controller writes, one per round: the allocated
 * bandwidth, the raw context (users, uplink MCS, buffer index), the QoS metric
 * and the QoS verdict. The estimators read rows through 1-based round numbers.
 */
module Trajectory {
  import opened Parameters
  import opened Reward
  import opened Wrappers

  datatype Row = Row(bw: real, users: real, mcs: real, bsr: real, metric: real, qos: real)

  /** A row whose bandwidth is one of the PRB values, so its arm can be recovered. */
  predicate ValidRow(r: Row)
  {
    r.bw == PRBs[0] as real || r.bw == PRBs[1] as real || r.bw == PRBs[2] as real || r.bw == PRBs[3] as real
  }

  /** The arm of a row: the index of its bandwidth among the PRB values. */
  function ArmOf(r: Row): (a: Arm)
    requires ValidRow(r)
    ensures PRBs[a] as real == r.bw
  {
    if r.bw == PRBs[0] as real then 0 else if r.bw == PRBs[1] as real then 1
    else if r.bw == PRBs[2] as real then 2 else 3
  }

  /** The arm of a row is what `indexify_bandwidth` gives for its bandwidth. */
  lemma {:induction false} ArmOfIsIndexify(r: Row)
    requires ValidRow(r)
    ensures IndexifyBandwidth(r.bw) == Some(ArmOf(r))
  {
    UnindexifyIndexify(ArmOf(r));
  }

  /** The bucketed context of a row. */
  function CtxOf(r: Row): Ctx
  {
    ContextOf(r.users, r.mcs, r.bsr)
  }

  /** The RL reward earned in a row. */
  function RewardOf(r: Row): real
  {
    RlReward(r.bw, r.qos)
  }

  /** A window of 1-based round numbers, each naming a valid row of `data`. */
  predicate ValidWindow(data: seq<Row>, window: seq<nat>)
  {
    forall i :: 0 <= i < |window| ==> 1 <= window[i] <= |data| && ValidRow(data[window[i] - 1])
  }

  /** What the estimators read from the row of one window round: its 0-based row
      index, bucketed context, arm and reward. */
  datatype Visit = Visit(row: nat, state: Ctx, arm: Arm, reward: real)

  function VisitOf(data: seq<Row>, t: nat): Visit
    requires t < |data| && ValidRow(data[t])
  {
    Visit(t, CtxOf(data[t]), ArmOf(data[t]), RewardOf(data[t]))
  }

  /** The visits of a window, in window order. */
  function Visits(data: seq<Row>, window: seq<nat>): (vs: seq<Visit>)
    requires ValidWindow(data, window)
    ensures |vs| == |window|
    ensures forall i :: 0 <= i < |window| ==> vs[i] == VisitOf(data, window[i] - 1)
  {
    seq(|window|, i requires 0 <= i < |window| => VisitOf(data, window[i] - 1))
  }

  /** Reads the `i`-th round of the window: its row index, bucketed context,
      arm and reward, as every estimator's loop body does. */
  method ReadVisit(data: seq<Row>, window: seq<nat>, i: nat) returns (visit: Visit)
    requires ValidWindow(data, window) && i < |window|
    ensures visit == Visits(data, window)[i]
    ensures visit.row == window[i] - 1
  {
    var t := window[i] - 1;
    visit := Visit(t, CtxOf(data[t]), ArmOf(data[t]), RewardOf(data[t]));
  }

  /** Reads every round of the window in order. */
  method ReadVisits(data: seq<Row>, window: seq<nat>) returns (vs: seq<Visit>)
    requires ValidWindow(data, window)
    ensures vs == Visits(data, window)
  {
    ghost var all := Visits(data, window);
    vs := [];
    var i := 0;
    while i < |window|
      invariant 0 <= i <= |window|
      invariant vs == all[..i]
    {
      var visit := ReadVisit(data, window, i);
      assert all[..i + 1] == all[..i] + [all[i]];
      vs := vs + [visit];
      i := i + 1;
    }
    assert all[..i] == all;
  }

  /** A row whose verdict is a success or a failure. */
  predicate Verdict(r: Row)
  {
    r.qos == 0.0 || r.qos == 1.0
  }

  /** In a valid row with a verdict, the reward lies in [0, 1]. */
  lemma {:induction false} RewardOfInUnit(r: Row)
    requires ValidRow(r) && Verdict(r)
    ensures 0.0 <= RewardOf(r) <= 1.0
  {
    var a := ArmOf(r);
    assert PRBs[0] <= PRBs[a] <= PRBs[NumArms - 1];
    RlRewardRange(r.bw, r.qos);
  }

  /** Every visit of a window of rows with verdicts has a reward in [0, 1]. */
  lemma {:induction false} VisitRewardsInUnit(data: seq<Row>, window: seq<nat>)
    requires ValidWindow(data, window)
    requires forall i :: 0 <= i < |window| ==> Verdict(data[window[i] - 1])
    ensures forall i :: 0 <= i < |window| ==> 0.0 <= Visits(data, window)[i].reward <= 1.0
  {
    forall i | 0 <= i < |window|
      ensures 0.0 <= Visits(data, window)[i].reward <= 1.0
    {
      RewardOfInUnit(data[window[i] - 1]);
    }
  }

  /** Every prefix of a valid window is valid. */
  lemma {:induction false} PrefixWindow(data: seq<Row>, window: seq<nat>, i: nat)
    requires ValidWindow(data, window) && i <= |window|
    ensures ValidWindow(data, window[..i])
  {
    forall j | 0 <= j < i
      ensures 1 <= window[..i][j] <= |data| && ValidRow(data[window[..i][j] - 1])
    {
      assert window[..i][j] == window[j];
    }
  }
}
