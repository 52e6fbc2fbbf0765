/**
 * The controller's configuration: the bandwidth arms (physical resource block
 * allocations), the thresholds that bucket each context component, the
 * standard buffer-size table and the learning constants, together with the
 * three conversions between raw values and indices.
 */
module Parameters {
  import opened Wrappers

  /** Considered PRB allocations; arm `i` allocates `PRBs[i]` resource blocks. */
  const PRBs: seq<int> := [20, 40, 60, 90]
  const NumArms: nat := 4

  /** Thresholds bucketing the number of users, the uplink MCS and the buffer-size index. */
  const Users: seq<int> := [2, 4, 6]
  const MCSs: seq<int> := [0, 12, 27, 28]
  const BSRs: seq<int> := [20, 40, 61, 62]
  const ContextLists: seq<seq<int>> := [Users, MCSs, BSRs]

  /** Standard buffer-size table: buffer-status report index -> queue size in bytes. */
  const BsrList: seq<int> := [
    0, 10, 12, 14, 17, 19, 22, 26, 31, 36, 42, 49, 57, 67, 78, 91, 107, 125, 146,
    171, 200, 234, 274, 321, 376, 440, 515, 603, 706, 826, 967, 1132, 1326, 1552,
    1817, 2127, 2490, 2915, 3413, 3995, 4677, 5476, 6411, 7505, 8787, 10287, 12043,
    14099, 16507, 19325, 22624, 26487, 31009, 36304, 42502, 49759, 58255, 68201,
    79846, 93479, 109439, 128125, 150000, 150000]

  /** Which delay statistic is the QoS metric. */
  datatype QosMetric = AvgPacketDelay | TailPacketDelay
  const DesiredQoS: QosMetric := TailPacketDelay
  /** The QoS target: a round succeeds when the metric is at most this many milliseconds. */
  const QTargetValue: real := 100.0
  /** Packets slower than this (milliseconds) count as lost. */
  const MaxDelay: real := 500.0
  /** Seconds between choosing an arm and measuring its effect. */
  const RoundInterval: nat := 10

  const Epsilon: real := 0.01
  const Gamma: real := 0.99
  const InitialRounds: nat := 20
  const RoundsPerEpisode: nat := 10

  /** Cost of violating the QoS: the PRB range divided by the preference margin
      `a`, written out as its value; `CostOfViolation` derives it. */
  const A: real := 0.01
  const QoSCostViolation: real := 7000.0

  datatype Algorithm = Ucb1Only | PolicyIterationAlg | ValueIterationAlg | NoAdaptation
  const ArmCorrelations: bool := true

  /** An arm index. */
  type Arm = a: nat | a < NumArms

  /** A bucketed context: (users bucket, MCS bucket, buffer bucket). */
  datatype Ctx = Ctx(users: nat, mcs: nat, bsr: nat)

  predicate Ascending(ts: seq<int>)
  {
    forall i, j :: 0 <= i < j < |ts| ==> ts[i] < ts[j]
  }

  /** The bucket of `v` for thresholds `ts`: the first threshold `v` does not
      exceed, or the last bucket when `v` exceeds them all. */
  function BucketIndex(v: real, ts: seq<int>): (i: nat)
    requires ts != []
    ensures i < |ts|
    ensures forall j :: 0 <= j < i ==> ts[j] as real < v
    ensures v <= ts[i] as real || i == |ts| - 1
  {
    if |ts| == 1 || v <= ts[0] as real then 0 else 1 + BucketIndex(v, ts[1..])
  }

  /** Buckets each component of a raw context with its own threshold list; the
      inner loop stops at the first threshold the component does not exceed. */
  method IndexifyContext(context: seq<real>) returns (indexified: seq<nat>)
    requires |context| <= |ContextLists|
    ensures |indexified| == |context|
    ensures forall k :: 0 <= k < |context| ==>
      indexified[k] == BucketIndex(context[k], ContextLists[k])
  {
    indexified := [];
    var k := 0;
    while k < |context|
      invariant 0 <= k <= |context|
      invariant |indexified| == k
      invariant forall j :: 0 <= j < k ==>
        indexified[j] == BucketIndex(context[j], ContextLists[j])
    {
      var values := ContextLists[k];
      indexified := indexified + [|values| - 1];
      var li := 0;
      while li < |values|
        invariant 0 <= li <= |values|
        invariant |indexified| == k + 1
        invariant forall j :: 0 <= j < k ==>
          indexified[j] == BucketIndex(context[j], ContextLists[j])
        invariant forall j :: 0 <= j < li ==> values[j] as real < context[k]
        invariant indexified[k] == |values| - 1
      {
        if context[k] <= values[li] as real {
          indexified := indexified[k := li];
          BucketIndexIsFirst(context[k], values, li);
          break;
        }
        li := li + 1;
      }
      if indexified[k] == |values| - 1 {
        BucketIndexIsFirst(context[k], values, |values| - 1);
      }
      k := k + 1;
    }
  }

  /** The bucket is the only index that is either the first threshold not
      exceeded or the last one after all were exceeded. */
  lemma {:induction false} BucketIndexIsFirst(v: real, ts: seq<int>, i: nat)
    requires ts != [] && i < |ts|
    requires forall j :: 0 <= j < i ==> ts[j] as real < v
    requires v <= ts[i] as real || i == |ts| - 1
    ensures BucketIndex(v, ts) == i
  {
  }

  /** The bucketed context of raw (users, MCS, buffer index) values, with the
      thresholds of `Users`, `MCSs` and `BSRs` written out;
      `ContextOfIsIndexify` shows it is what `IndexifyContext` computes. */
  function ContextOf(users: real, mcs: real, bsr: real): (c: Ctx)
    ensures c.users < |Users| && c.mcs < |MCSs| && c.bsr < |BSRs|
  {
    Ctx(if users <= 2.0 then 0 else if users <= 4.0 then 1 else 2,
        if mcs <= 0.0 then 0 else if mcs <= 12.0 then 1 else if mcs <= 27.0 then 2 else 3,
        if bsr <= 20.0 then 0 else if bsr <= 40.0 then 1 else if bsr <= 61.0 then 2 else 3)
  }

  /** The written-out buckets agree with bucketing against the threshold lists,
      i.e. with the result of `IndexifyContext([users, mcs, bsr])`. */
  lemma {:induction false} ContextOfIsIndexify(users: real, mcs: real, bsr: real)
    ensures ContextOf(users, mcs, bsr)
      == Ctx(BucketIndex(users, Users), BucketIndex(mcs, MCSs), BucketIndex(bsr, BSRs))
  {
    var c := ContextOf(users, mcs, bsr);
    BucketIndexIsFirst(users, Users, c.users);
    BucketIndexIsFirst(mcs, MCSs, c.mcs);
    BucketIndexIsFirst(bsr, BSRs, c.bsr);
  }

  /** A larger component value never falls into an earlier bucket, whatever the
      thresholds (the bucket is the first threshold not exceeded). */
  lemma {:induction false} BucketIndexMonotone(v1: real, v2: real, ts: seq<int>)
    requires ts != []
    requires v1 <= v2
    ensures BucketIndex(v1, ts) <= BucketIndex(v2, ts)
  {
  }

  /** Values above every threshold go to the last bucket: 5 and 7 users both
      land in the bucket of 6. */
  lemma {:induction false} UsersBucketExamples()
    ensures BucketIndex(5.0, Users) == 2
    ensures BucketIndex(7.0, Users) == 2
    ensures BucketIndex(2.0, Users) == 0
    ensures BucketIndex(3.0, Users) == 1
  {
    BucketIndexIsFirst(5.0, Users, 2);
    BucketIndexIsFirst(7.0, Users, 2);
    BucketIndexIsFirst(3.0, Users, 1);
  }

  /** The first position of `x` in `s`, or `None` (Python's `list.index`
      raising `ValueError`). */
  function IndexOf(s: seq<int>, x: real): (r: Option<nat>)
    ensures r.Some? ==> r.value < |s| && s[r.value] as real == x
    ensures r.Some? ==> forall j :: 0 <= j < r.value ==> s[j] as real != x
    ensures r.None? ==> forall j :: 0 <= j < |s| ==> s[j] as real != x
  {
    if s == [] then None
    else if s[0] as real == x then Some(0)
    else match IndexOf(s[1..], x)
      case None => None
      case Some(i) => Some(i + 1)
  }

  /** Arm index of a bandwidth; `None` for a bandwidth that is not one of the PRB values. */
  function IndexifyBandwidth(bandwidth: real): (r: Option<Arm>)
    ensures r.Some? <==> exists i :: 0 <= i < NumArms && PRBs[i] as real == bandwidth
    ensures r.Some? ==> PRBs[r.value] as real == bandwidth
  {
    match IndexOf(PRBs, bandwidth)
      case None => None
      case Some(i) => Some(i)
  }

  /** Bandwidth of an arm with Python's list indexing: negative indices count
      from the end, anything else out of range is an `IndexError` (`None`). */
  function UnindexifyBandwidth(arm: int): (r: Option<int>)
    ensures r.Some? <==> -(NumArms as int) <= arm < NumArms
    ensures r.Some? ==> r.value in PRBs
    ensures 0 <= arm < NumArms ==> r == Some(PRBs[arm])
  {
    if 0 <= arm < |PRBs| then Some(PRBs[arm])
    else if -|PRBs| <= arm < 0 then Some(PRBs[|PRBs| + arm])
    else None
  }

  /** Bandwidth -> arm -> bandwidth is the identity on every arm. */
  lemma {:induction false} UnindexifyIndexify(arm: Arm)
    ensures IndexifyBandwidth(PRBs[arm] as real) == Some(arm)
  {
    assert Ascending(PRBs);
  }

  /** Arm -> bandwidth -> arm is the identity on every PRB value. */
  lemma {:induction false} IndexifyUnindexify(bandwidth: real)
    requires IndexifyBandwidth(bandwidth).Some?
    ensures UnindexifyBandwidth(IndexifyBandwidth(bandwidth).value) == Some(bandwidth.Floor)
    ensures bandwidth == bandwidth.Floor as real
  {
  }

  /** A negative arm index selects from the largest allocation downwards. */
  lemma {:induction false} NegativeArms()
    ensures UnindexifyBandwidth(-1) == Some(90)
    ensures UnindexifyBandwidth(-4) == Some(20)
    ensures UnindexifyBandwidth(-5).None? && UnindexifyBandwidth(4).None?
  {
  }

  /** The QoS-violation cost is 7000: the whole PRB range (70) scaled by 1/a,
      so a violation outweighs any saving in bandwidth a hundred times over. */
  lemma {:induction false} CostOfViolation()
    ensures QoSCostViolation == (PRBs[|PRBs| - 1] - PRBs[0]) as real / A
    ensures QoSCostViolation == 100.0 * (PRBs[NumArms - 1] - PRBs[0]) as real
  {
  }

  /** The PRB allocations increase with the arm index and there is one per arm. */
  lemma {:induction false} PrbsShape()
    ensures |PRBs| == NumArms && Ascending(PRBs)
    ensures |ContextLists| == 3 && forall k :: 0 <= k < 3 ==> Ascending(ContextLists[k])
    ensures |BsrList| == 64
  {
  }
}
