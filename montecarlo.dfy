/**
 * First-visit Monte-Carlo evaluation of the state-action pairs visited in a
 * window of rounds. For every pair, the discounted return from its first visit
 * onwards is padded with as many discounted mean-reward terms as the row index
 * of that first visit, appended to the pair's list of returns, and the pair's Q
 * value becomes the mean of that list.
 */
module MonteCarlo {
  import opened Stats
  import opened Parameters
  import opened Trajectory
  import opened Policies

  function KeyOf(v: Visit): SaKey
  {
    SaKey(v.state, v.arm)
  }

  /** For every pair visited, the 0-based row index of its first visit. */
  function FirstTimes(vs: seq<Visit>): (ft: map<SaKey, nat>)
    ensures forall i :: 0 <= i < |vs| ==> KeyOf(vs[i]) in ft
  {
    if vs == [] then map[]
    else
      var ft := FirstTimes(vs[..|vs| - 1]);
      var v := vs[|vs| - 1];
      if KeyOf(v) in ft then ft else ft[KeyOf(v) := v.row]
  }

  /** The first visit of a pair is a visit of that pair, and no earlier visit has it. */
  lemma {:induction false} FirstTimesIsFirstVisit(vs: seq<Visit>, k: SaKey)
    requires k in FirstTimes(vs)
    ensures exists i :: 0 <= i < |vs| && vs[i].row == FirstTimes(vs)[k] && KeyOf(vs[i]) == k
                        && forall j :: 0 <= j < i ==> KeyOf(vs[j]) != k
  {
    var prefix := vs[..|vs| - 1];
    var ft := FirstTimes(prefix);
    if k in ft {
      FirstTimesIsFirstVisit(prefix, k);
      var i :| 0 <= i < |prefix| && prefix[i].row == ft[k] && KeyOf(prefix[i]) == k
        && forall j :: 0 <= j < i ==> KeyOf(prefix[j]) != k;
      assert vs[i] == prefix[i];
      assert forall j :: 0 <= j < i ==> vs[j] == prefix[j];
    } else {
      assert forall j :: 0 <= j < |prefix| ==> KeyOf(prefix[j]) != k;
      assert forall j :: 0 <= j < |prefix| ==> vs[j] == prefix[j];
    }
  }

  /** The rewards of the visits at row `first` or later, in visit order. */
  function SuffixRewards(vs: seq<Visit>, first: nat): (rs: seq<real>)
    ensures |rs| <= |vs|
  {
    if vs == [] then []
    else
      var v := vs[|vs| - 1];
      var rs := SuffixRewards(vs[..|vs| - 1], first);
      if v.row < first then rs else rs + [v.reward]
  }

  /** The discounted sum of `rs`: the i-th reward is weighted by gamma^i. */
  function Discounted(rs: seq<real>): real
  {
    if rs == [] then 0.0 else Discounted(rs[..|rs| - 1]) + Pow(Gamma, |rs| - 1) * rs[|rs| - 1]
  }

  /** `n` further terms `gamma^(k0 + j) * mean` continuing a discounted sum of `k0` terms. */
  function Padding(mean: real, k0: nat, n: nat): real
  {
    if n == 0 then 0.0 else Padding(mean, k0, n - 1) + Pow(Gamma, k0 + n - 1) * mean
  }

  lemma {:induction false} DiscountedSnoc(rs: seq<real>, r: real)
    ensures Discounted(rs + [r]) == Discounted(rs) + Pow(Gamma, |rs|) * r
  {
    var xs := rs + [r];
    assert xs[..|xs| - 1] == rs;
    assert xs[|xs| - 1] == r && |xs| - 1 == |rs|;
  }

  lemma {:induction false} PaddingStep(mean: real, k0: nat, n: nat)
    ensures Padding(mean, k0, n + 1) == Padding(mean, k0, n) + Pow(Gamma, k0 + n) * mean
  {
  }

  /** The return credited to a pair first visited at row `first`. */
  function ReturnOf(vs: seq<Visit>, first: nat): real
    requires SuffixRewards(vs, first) != []
  {
    var rs := SuffixRewards(vs, first);
    Discounted(rs) + Padding(Sum(rs) / (|rs| as real), |rs|, first)
  }

  /** A visit at row `first` or later contributes a reward. */
  lemma {:induction false} SuffixNonEmpty(vs: seq<Visit>, first: nat, i: nat)
    requires i < |vs| && vs[i].row >= first
    ensures SuffixRewards(vs, first) != []
  {
    if i < |vs| - 1 {
      SuffixNonEmpty(vs[..|vs| - 1], first, i);
    }
  }

  /** Records the first visit of every state-action pair in the window. */
  method ComputeFirstTimes(vs: seq<Visit>) returns (firstTimes: map<SaKey, nat>)
    ensures firstTimes == FirstTimes(vs)
  {
    firstTimes := map[];
    var i := 0;
    while i < |vs|
      invariant 0 <= i <= |vs|
      invariant firstTimes == FirstTimes(vs[..i])
    {
      assert vs[..i + 1][..i] == vs[..i];
      var stateAction := SaKey(vs[i].state, vs[i].arm);
      if stateAction !in firstTimes {
        firstTimes := firstTimes[stateAction := vs[i].row];
      }
      i := i + 1;
    }
    assert vs[..i] == vs;
  }

  /** The return of a pair first visited at row `first`: discounted rewards from
      the first visit on, then `first` discounted mean-reward terms. */
  method ComputeReturn(vs: seq<Visit>, first: nat) returns (g: real)
    requires SuffixRewards(vs, first) != []
    ensures g == ReturnOf(vs, first)
  {
    ghost var rs := SuffixRewards(vs, first);
    var k, meanRoundReward;
    g, k, meanRoundReward := DiscountRewards(vs, first);
    meanRoundReward := meanRoundReward / (k as real);
    assert g == Discounted(rs) && k == |rs| && meanRoundReward == Sum(rs) / (|rs| as real);
    var bigT := |vs|;
    g := PadReturn(g, k, meanRoundReward, bigT, bigT + first);
    assert g == Discounted(rs) + Padding(Sum(rs) / (|rs| as real), |rs|, first);
  }

  /** Continues a discounted sum of `k0` terms with one mean-reward term per
      round from `from` to `to`. */
  method PadReturn(g0: real, k0: nat, mean: real, from: nat, to: nat) returns (g: real)
    requires from <= to
    ensures g == g0 + Padding(mean, k0, to - from)
  {
    g := g0;
    var k := k0;
    var t := from;
    while t < to
      invariant from <= t <= to
      invariant k == k0 + (t - from)
      invariant g == g0 + Padding(mean, k0, t - from)
    {
      g := g + Pow(Gamma, k) * mean;
      k := k + 1;
      t := t + 1;
    }
  }

  /** The discounted sum, count and plain sum of the rewards from row `first` on. */
  method DiscountRewards(vs: seq<Visit>, first: nat) returns (g: real, k: nat, total: real)
    ensures k == |SuffixRewards(vs, first)|
    ensures g == Discounted(SuffixRewards(vs, first))
    ensures total == Sum(SuffixRewards(vs, first))
  {
    g, k, total := 0.0, 0, 0.0;
    var i := 0;
    while i < |vs|
      invariant 0 <= i <= |vs|
      invariant k == |SuffixRewards(vs[..i], first)|
      invariant g == Discounted(SuffixRewards(vs[..i], first))
      invariant total == Sum(SuffixRewards(vs[..i], first))
    {
      SuffixRewardsSnoc(vs, i, first);
      if vs[i].row >= first {
        var roundReward := vs[i].reward;
        ghost var rs := SuffixRewards(vs[..i], first);
        DiscountedSnoc(rs, roundReward);
        SumAppend(rs, roundReward);
        g := g + Pow(Gamma, k) * roundReward;
        k := k + 1;
        total := total + roundReward;
      }
      i := i + 1;
    }
    assert vs[..i] == vs;
  }

  lemma {:induction false} SuffixRewardsSnoc(vs: seq<Visit>, i: nat, first: nat)
    requires i < |vs|
    ensures vs[i].row < first ==> SuffixRewards(vs[..i + 1], first) == SuffixRewards(vs[..i], first)
    ensures vs[i].row >= first ==>
      SuffixRewards(vs[..i + 1], first) == SuffixRewards(vs[..i], first) + [vs[i].reward]
  {
    assert vs[..i + 1][..i] == vs[..i];
  }

  /** The list of returns of a pair (an absent pair has none). */
  function ReturnsOf(returnLists: map<SaKey, seq<real>>, k: SaKey): seq<real>
  {
    if k in returnLists then returnLists[k] else []
  }

  /** The pair `k`, first visited in `vs`, has one more return, the return of its
      first visit, and its Q value is the mean of its returns. */
  ghost predicate Evaluated(vs: seq<Visit>, returnLists: map<SaKey, seq<real>>,
                            q': map<SaKey, real>, returnLists': map<SaKey, seq<real>>, k: SaKey)
    requires k in FirstTimes(vs)
  {
    SuffixRewards(vs, FirstTimes(vs)[k]) != []
    && k in returnLists' && k in q'
    && returnLists'[k] == ReturnsOf(returnLists, k) + [ReturnOf(vs, FirstTimes(vs)[k])]
    && q'[k] == Mean(returnLists'[k])
  }

  /** The pair `k` keeps its Q value and its returns (or stays absent). */
  ghost predicate Kept(q: map<SaKey, real>, returnLists: map<SaKey, seq<real>>,
                       q': map<SaKey, real>, returnLists': map<SaKey, seq<real>>, k: SaKey)
  {
    (k in q' <==> k in q) && (k in q ==> q'[k] == q[k])
    && (k in returnLists' <==> k in returnLists) && (k in returnLists ==> returnLists'[k] == returnLists[k])
  }

  /** One Monte-Carlo update from the window: every pair visited gets exactly one
      new return appended and its Q value set to the mean of its returns; every
      other pair keeps its Q value and returns. */
  method PolicyIteration(data: seq<Row>, window: seq<nat>, q: map<SaKey, real>, returnLists: map<SaKey, seq<real>>)
    returns (q': map<SaKey, real>, returnLists': map<SaKey, seq<real>>)
    requires ValidWindow(data, window)
    ensures forall k :: k in FirstTimes(Visits(data, window)) ==>
      Evaluated(Visits(data, window), returnLists, q', returnLists', k)
    ensures forall k :: k !in FirstTimes(Visits(data, window)) ==> Kept(q, returnLists, q', returnLists', k)
  {
    var vs := ReadVisits(data, window);
    q', returnLists' := EvaluateVisits(vs, q, returnLists);
  }

  /** The update of `PolicyIteration` on the visits already read. */
  method EvaluateVisits(vs: seq<Visit>, q: map<SaKey, real>, returnLists: map<SaKey, seq<real>>)
    returns (q': map<SaKey, real>, returnLists': map<SaKey, seq<real>>)
    ensures forall k :: k in FirstTimes(vs) ==> Evaluated(vs, returnLists, q', returnLists', k)
    ensures forall k :: k !in FirstTimes(vs) ==> Kept(q, returnLists, q', returnLists', k)
  {
    var firstTimes := ComputeFirstTimes(vs);
    q', returnLists' := q, returnLists;
    var keys := firstTimes.Keys;
    while keys != {}
      invariant keys <= firstTimes.Keys
      invariant EvaluatedExcept(vs, q, returnLists, q', returnLists', keys)
    {
      var key :| key in keys;
      FirstTimesIsFirstVisit(vs, key);
      ghost var i :| 0 <= i < |vs| && vs[i].row == firstTimes[key] && KeyOf(vs[i]) == key;
      SuffixNonEmpty(vs, firstTimes[key], i);
      var g := ComputeReturn(vs, firstTimes[key]);
      ghost var q0, returnLists0 := q', returnLists';
      var list := if key in returnLists' then returnLists'[key] else [];
      returnLists' := returnLists'[key := list + [g]];
      q' := q'[key := Sum(returnLists'[key]) / (|returnLists'[key]| as real)];
      EvaluateStep(vs, q, returnLists, q0, returnLists0, q', returnLists', key, keys);
      keys := keys - {key};
    }
  }

  /** The pairs first visited in `vs` and not in `keys` are evaluated; all other
      pairs are kept. */
  ghost predicate EvaluatedExcept(vs: seq<Visit>, q: map<SaKey, real>, returnLists: map<SaKey, seq<real>>,
                                  q': map<SaKey, real>, returnLists': map<SaKey, seq<real>>, keys: set<SaKey>)
  {
    (forall k :: k in FirstTimes(vs) && k !in keys ==> Evaluated(vs, returnLists, q', returnLists', k))
    && (forall k :: k !in FirstTimes(vs) || k in keys ==> Kept(q, returnLists, q', returnLists', k))
  }

  /** Recording the return of one pending pair moves it from kept to evaluated. */
  lemma {:induction false} EvaluateStep(vs: seq<Visit>, q: map<SaKey, real>, returnLists: map<SaKey, seq<real>>,
                                        q0: map<SaKey, real>, returnLists0: map<SaKey, seq<real>>,
                                        q1: map<SaKey, real>, returnLists1: map<SaKey, seq<real>>,
                                        key: SaKey, keys: set<SaKey>)
    requires key in keys && keys <= FirstTimes(vs).Keys
    requires EvaluatedExcept(vs, q, returnLists, q0, returnLists0, keys)
    requires SuffixRewards(vs, FirstTimes(vs)[key]) != []
    requires returnLists1 == returnLists0[key := ReturnsOf(returnLists0, key) + [ReturnOf(vs, FirstTimes(vs)[key])]]
    requires q1 == q0[key := Sum(returnLists1[key]) / (|returnLists1[key]| as real)]
    ensures EvaluatedExcept(vs, q, returnLists, q1, returnLists1, keys - {key})
  {
    assert Kept(q, returnLists, q0, returnLists0, key);
    assert ReturnsOf(returnLists0, key) == ReturnsOf(returnLists, key);
    assert q1[key] == Mean(returnLists1[key]);
    assert Evaluated(vs, returnLists, q1, returnLists1, key);
    forall k | k in FirstTimes(vs) && k !in keys - {key}
      ensures Evaluated(vs, returnLists, q1, returnLists1, k)
    {
      if k != key {
        assert Evaluated(vs, returnLists, q0, returnLists0, k);
      }
    }
    forall k | k !in FirstTimes(vs) || k in keys - {key}
      ensures Kept(q, returnLists, q1, returnLists1, k)
    {
      assert Kept(q, returnLists, q0, returnLists0, k);
    }
  }


  /** With rewards in [0, 1], the discounted sum of `rs` lies in [0, |rs|]. */
  lemma {:induction false} DiscountedBounds(rs: seq<real>)
    requires AllIn(rs, 0.0, 1.0)
    ensures 0.0 <= Discounted(rs) <= |rs| as real
  {
    if rs != [] {
      var prefix, last := rs[..|rs| - 1], rs[|rs| - 1];
      assert AllIn(prefix, 0.0, 1.0) by {
        forall i | 0 <= i < |prefix| ensures 0.0 <= prefix[i] <= 1.0 {
          assert prefix[i] == rs[i];
        }
      }
      DiscountedBounds(prefix);
      PowBounds(Gamma, |rs| - 1);
      MulUnit(Pow(Gamma, |rs| - 1), last);
      assert Discounted(rs) == Discounted(prefix) + Pow(Gamma, |rs| - 1) * last;
    }
  }

  /** With a mean in [0, 1], `n` padding terms add between 0 and `n`. */
  lemma {:induction false} PaddingBounds(mean: real, k0: nat, n: nat)
    requires 0.0 <= mean <= 1.0
    ensures 0.0 <= Padding(mean, k0, n) <= n as real
  {
    if n > 0 {
      PaddingBounds(mean, k0, n - 1);
      PowBounds(Gamma, k0 + n - 1);
      MulUnit(Pow(Gamma, k0 + n - 1), mean);
    }
  }

  /** Suffix rewards are drawn from the visits' rewards. */
  lemma {:induction false} SuffixRewardsBounded(vs: seq<Visit>, first: nat)
    requires forall i :: 0 <= i < |vs| ==> 0.0 <= vs[i].reward <= 1.0
    ensures AllIn(SuffixRewards(vs, first), 0.0, 1.0)
  {
    if vs != [] {
      SuffixRewardsBounded(vs[..|vs| - 1], first);
    }
  }

  /** With every reward in [0, 1], a return is non-negative and at most the
      number of rewarded visits plus the first-visit row index: it is a sum of
      that many terms, each at most 1. */
  lemma {:induction false} ReturnBounds(vs: seq<Visit>, first: nat)
    requires forall i :: 0 <= i < |vs| ==> 0.0 <= vs[i].reward <= 1.0
    requires SuffixRewards(vs, first) != []
    ensures 0.0 <= ReturnOf(vs, first) <= (|SuffixRewards(vs, first)| + first) as real
  {
    var rs := SuffixRewards(vs, first);
    SuffixRewardsBounded(vs, first);
    DiscountedBounds(rs);
    MeanBounds(rs, 0.0, 1.0);
    PaddingBounds(Sum(rs) / (|rs| as real), |rs|, first);
  }
}
