/**
 * The QoS verdict of a round from the packet delays measured for each user:
 * every user gets a delay metric (the mean or the 90th percentile of their
 * delays, or a worst-case value when none came back), the network-slice metric
 * is the largest of them, and the round succeeds when it is within the target.
 */
module Qos {
  import opened Wrappers
  import opened Stats
  import opened Parameters

  /** The metric assigned when no delay came back: one whole round, in milliseconds. */
  const NoResponseMetric: real := (RoundInterval * 1000) as real

  /** The metric of one user. `tail` stands for the 90th percentile of the delays. */
  function UserMetric(delays: seq<real>, metric: QosMetric, tail: seq<real> -> real): real
  {
    if delays == [] then NoResponseMetric
    else match metric
      case AvgPacketDelay => Mean(delays)
      case TailPacketDelay => tail(delays)
  }

  /** The verdict for a slice metric: 1 within the target, 0 beyond it. */
  function Verdict(qosMetric: real): (r: nat)
    ensures r == 0 || r == 1
    ensures r == 1 <==> qosMetric <= QTargetValue
  {
    if qosMetric <= QTargetValue then 1 else 0
  }

  /** `qosMetric` is the slice metric of the delay lists: the no-response
      metric with no list at all, otherwise the largest user metric. */
  predicate SliceMetric(packetDelaysLists: Option<seq<seq<real>>>, metric: QosMetric,
                        tail: seq<real> -> real, qosMetric: real)
  {
    if packetDelaysLists == None || packetDelaysLists == Some([]) then qosMetric == NoResponseMetric
    else
      var lists := packetDelaysLists.value;
      && (forall u :: 0 <= u < |lists| ==> UserMetric(lists[u], metric, tail) <= qosMetric)
      && (exists u :: 0 <= u < |lists| && qosMetric == UserMetric(lists[u], metric, tail))
  }

  /** The delay lists determine the slice metric: two metrics that both
      qualify are equal. */
  lemma SliceMetricUnique(packetDelaysLists: Option<seq<seq<real>>>, metric: QosMetric,
                          tail: seq<real> -> real, x: real, y: real)
    requires SliceMetric(packetDelaysLists, metric, tail, x)
    requires SliceMetric(packetDelaysLists, metric, tail, y)
    ensures x == y
  {
    if !(packetDelaysLists == None || packetDelaysLists == Some([])) {
      var lists := packetDelaysLists.value;
      var i :| 0 <= i < |lists| && x == UserMetric(lists[i], metric, tail);
      var j :| 0 <= j < |lists| && y == UserMetric(lists[j], metric, tail);
      assert x <= y && y <= x;
    }
  }

  /** Evaluates the delays of a round: `None` or an empty list is a round with
      no response at all. */
  method EvaluateQos(packetDelaysLists: Option<seq<seq<real>>>, metric: QosMetric, tail: seq<real> -> real)
    returns (qosMetric: real, r: nat)
    ensures packetDelaysLists == None || packetDelaysLists == Some([]) ==>
      qosMetric == NoResponseMetric && r == 0
    ensures packetDelaysLists.Some? && packetDelaysLists.value != [] ==>
      var lists := packetDelaysLists.value;
      (forall u :: 0 <= u < |lists| ==> UserMetric(lists[u], metric, tail) <= qosMetric)
      && (exists u :: 0 <= u < |lists| && qosMetric == UserMetric(lists[u], metric, tail))
      && r == Verdict(qosMetric)
  {
    if packetDelaysLists == None || packetDelaysLists == Some([]) {
      qosMetric, r := NoResponseMetric, 0;
      return;
    }
    var lists := packetDelaysLists.value;
    var userMetrics := UserMetrics(lists, metric, tail);
    qosMetric := MaxOf(userMetrics);
    var j := MaxOfIsMax(userMetrics);
    r := if qosMetric <= QTargetValue then 1 else 0;
  }

  /** The per-user metrics, in user order. */
  method UserMetrics(lists: seq<seq<real>>, metric: QosMetric, tail: seq<real> -> real)
    returns (userMetrics: seq<real>)
    ensures |userMetrics| == |lists|
    ensures forall u :: 0 <= u < |lists| ==> userMetrics[u] == UserMetric(lists[u], metric, tail)
  {
    userMetrics := [];
    var u := 0;
    while u < |lists|
      invariant 0 <= u <= |lists|
      invariant |userMetrics| == u
      invariant forall v :: 0 <= v < u ==> userMetrics[v] == UserMetric(lists[v], metric, tail)
    {
      var userPacketDelays := lists[u];
      var userMetric: real;
      if userPacketDelays != [] {
        match metric {
          case AvgPacketDelay => userMetric := Mean(userPacketDelays);
          case TailPacketDelay => userMetric := tail(userPacketDelays);
        }
      } else {
        userMetric := NoResponseMetric;
      }
      userMetrics := userMetrics + [userMetric];
      u := u + 1;
    }
  }

  /** The round succeeds exactly when every user's metric is within the target. */
  lemma {:induction false} VerdictIsForAllUsers(lists: seq<seq<real>>, metric: QosMetric,
                                                tail: seq<real> -> real, qosMetric: real)
    requires lists != []
    requires forall u :: 0 <= u < |lists| ==> UserMetric(lists[u], metric, tail) <= qosMetric
    requires exists u :: 0 <= u < |lists| && qosMetric == UserMetric(lists[u], metric, tail)
    ensures Verdict(qosMetric) == 1 <==> forall u :: 0 <= u < |lists| ==> UserMetric(lists[u], metric, tail) <= QTargetValue
  {
    var w :| 0 <= w < |lists| && qosMetric == UserMetric(lists[w], metric, tail);
    if Verdict(qosMetric) != 1 {
      assert UserMetric(lists[w], metric, tail) > QTargetValue;
    }
  }

  /** A user from whom no delay came back fails the whole round. */
  lemma {:induction false} SilentUserFailsRound(lists: seq<seq<real>>, metric: QosMetric,
                                                tail: seq<real> -> real, qosMetric: real, u: nat)
    requires u < |lists| && lists[u] == []
    requires UserMetric(lists[u], metric, tail) <= qosMetric
    ensures Verdict(qosMetric) == 0
  {
  }

  /** In the average-delay mode a user's metric is the mean of their delays, so
      it lies between their smallest and largest delay. */
  lemma {:induction false} AverageMetricBounds(delays: seq<real>, lo: real, hi: real, tail: seq<real> -> real)
    requires delays != []
    requires forall i :: 0 <= i < |delays| ==> lo <= delays[i] <= hi
    ensures lo <= UserMetric(delays, AvgPacketDelay, tail) <= hi
  {
    MeanBounds(delays, lo, hi);
  }
}
