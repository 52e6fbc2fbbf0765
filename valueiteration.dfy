/**
 * Value iteration over the (MCS bucket, buffer bucket) states with the
 * estimated transition probabilities: Gauss-Seidel sweeps that update each
 * state's value in place until no value moves by more than theta, then the
 * greedy arm of every state, ties going to the smallest arm.
 */
module ValueIteration {
  import opened Stats
  import opened Parameters
  import opened Reward
  import opened Transitions

  /** A state of the MDP: MCS bucket and buffer bucket. */
  datatype St = St(mcs: nat, bsr: nat)

  /** The convergence threshold of the sweeps. */
  const Theta: real := 0.5
  /** The largest value a state can reach with rewards in [0, 1]: 1 / (1 - gamma). */
  const MaxValue: real := 100.0

  /** The value of `s`, zero when absent (the table is a default dictionary). */
  function GetV(v: map<St, real>, s: St): real
  {
    if s in v then v[s] else 0.0
  }

  /** The 16 states, in loop order: MCS bucket, then buffer bucket. */
  function GridStates(): (ss: seq<St>)
    ensures |ss| == |MCSs| * |BSRs|
  {
    seq(16, i requires 0 <= i < 16 => St(i / 4, i % 4))
  }

  /** One term of the lookahead: the probability of the outcome times its reward
      plus the discounted value of the next state. */
  function Term(p: map<TKey, real>, v: map<St, real>, sa: SA, o: Outcome): real
  {
    GetP(p, TKey(sa, o)) * (o.reward + Gamma * GetV(v, St(o.mcs, o.bsr)))
  }

  function LookaheadOver(p: map<TKey, real>, v: map<St, real>, sa: SA, os: seq<Outcome>): real
  {
    if os == [] then 0.0 else LookaheadOver(p, v, sa, os[..|os| - 1]) + Term(p, v, sa, os[|os| - 1])
  }

  /** The one-step lookahead of a state-action pair over its 32 grid outcomes. */
  function Lookahead(p: map<TKey, real>, v: map<St, real>, sa: SA): real
  {
    LookaheadOver(p, v, sa, GridOutcomes(sa.arm))
  }

  /** The lookahead of every arm in state `s`, in arm order. */
  function Candidates(p: map<TKey, real>, v: map<St, real>, s: St): (cs: seq<real>)
    ensures |cs| == NumArms
    ensures forall w :: 0 <= w < NumArms ==> cs[w] == Lookahead(p, v, SA(s.mcs, s.bsr, w))
  {
    seq(NumArms, w requires 0 <= w < NumArms => Lookahead(p, v, SA(s.mcs, s.bsr, w)))
  }

  function Abs(x: real): real
  {
    if x < 0.0 then -x else x
  }

  /** The result of updating the states `ss` in order, each from the values as
      left by the updates before it, with the largest change seen. */
  function SweepOver(p: map<TKey, real>, v: map<St, real>, ss: seq<St>): (map<St, real>, real)
  {
    if ss == [] then (v, 0.0)
    else
      var (v0, d0) := SweepOver(p, v, ss[..|ss| - 1]);
      var s := ss[|ss| - 1];
      var best := MaxOf(Candidates(p, v0, s));
      (v0[s := best], RMax(d0, Abs(GetV(v0, s) - best)))
  }

  /** One Gauss-Seidel sweep over all states. */
  function Sweep(p: map<TKey, real>, v: map<St, real>): (map<St, real>, real)
  {
    SweepOver(p, v, GridStates())
  }

  /** The values after `n` sweeps from `v`. */
  function Iterate(p: map<TKey, real>, v: map<St, real>, n: nat): map<St, real>
  {
    if n == 0 then v else Sweep(p, Iterate(p, v, n - 1)).0
  }

  /** The largest change made by the `n`-th sweep from zero. */
  function LastDeviation(p: map<TKey, real>, n: nat): real
    requires n >= 1
  {
    Sweep(p, Iterate(p, map[], n - 1)).1
  }

  lemma {:induction false} IterateSnoc(p: map<TKey, real>, n: nat)
    ensures Iterate(p, map[], n + 1) == Sweep(p, Iterate(p, map[], n)).0
  {
  }

  // ----- Bounds -----

  /** Transition probabilities fit for value iteration: no negative entry, and
      every grid row of mass 1. */
  ghost predicate Stochastic(p: map<TKey, real>)
  {
    (forall k :: k in p ==> 0.0 <= p[k])
    && forall sa: SA :: sa.mcs < |MCSs| && sa.bsr < |BSRs| ==> RowMass(p, sa) == 1.0
  }

  /** Every stored value lies in [0, 1 / (1 - gamma)]. */
  ghost predicate Bounded(v: map<St, real>)
  {
    forall s :: s in v ==> 0.0 <= v[s] <= MaxValue
  }

  lemma {:induction false} GridRewardInUnit(w: Arm, i: nat)
    requires i < |GridOutcomes(w)|
    ensures 0.0 <= GridOutcomes(w)[i].reward <= 1.0
  {
    var q := (i % 2) as real;
    assert q == 0.0 || q == 1.0;
    RlRewardRange(PRBs[w] as real, q);
  }

  lemma {:induction false} TermBounds(p: map<TKey, real>, v: map<St, real>, sa: SA, o: Outcome)
    requires forall k :: k in p ==> 0.0 <= p[k]
    requires Bounded(v)
    requires 0.0 <= o.reward <= 1.0
    ensures 0.0 <= Term(p, v, sa, o) <= MaxValue * GetP(p, TKey(sa, o))
  {
    var x := GetP(p, TKey(sa, o));
    var y := o.reward + Gamma * GetV(v, St(o.mcs, o.bsr));
    assert 0.0 <= y <= MaxValue;
    assert 0.0 <= x * y;
    assert x * y <= x * MaxValue;
  }

  lemma {:induction false} LookaheadOverBounds(p: map<TKey, real>, v: map<St, real>, sa: SA, os: seq<Outcome>)
    requires forall k :: k in p ==> 0.0 <= p[k]
    requires Bounded(v)
    requires forall i :: 0 <= i < |os| ==> 0.0 <= os[i].reward <= 1.0
    ensures 0.0 <= LookaheadOver(p, v, sa, os) <= MaxValue * RowMassOver(p, sa, os)
  {
    if os != [] {
      LookaheadOverBounds(p, v, sa, os[..|os| - 1]);
      TermBounds(p, v, sa, os[|os| - 1]);
    }
  }

  /** With stochastic rows and bounded values, every lookahead lies in [0, 1 / (1 - gamma)]. */
  lemma {:induction false} LookaheadBounds(p: map<TKey, real>, v: map<St, real>, sa: SA)
    requires Stochastic(p) && Bounded(v)
    requires sa.mcs < |MCSs| && sa.bsr < |BSRs|
    ensures 0.0 <= Lookahead(p, v, sa) <= MaxValue
  {
    forall i | 0 <= i < |GridOutcomes(sa.arm)|
      ensures 0.0 <= GridOutcomes(sa.arm)[i].reward <= 1.0
    {
      GridRewardInUnit(sa.arm, i);
    }
    LookaheadOverBounds(p, v, sa, GridOutcomes(sa.arm));
  }

  lemma {:induction false} CandidatesBounds(p: map<TKey, real>, v: map<St, real>, s: St)
    requires Stochastic(p) && Bounded(v)
    requires s.mcs < |MCSs| && s.bsr < |BSRs|
    ensures forall w :: 0 <= w < NumArms ==> 0.0 <= Candidates(p, v, s)[w] <= MaxValue
  {
    forall w | 0 <= w < NumArms
      ensures 0.0 <= Candidates(p, v, s)[w] <= MaxValue
    {
      LookaheadBounds(p, v, SA(s.mcs, s.bsr, w));
    }
  }

  /** The states of the grid. */
  ghost predicate OnGrid(ss: seq<St>)
  {
    forall i :: 0 <= i < |ss| ==> ss[i].mcs < |MCSs| && ss[i].bsr < |BSRs|
  }

  lemma {:induction false} GridStatesOnGrid()
    ensures OnGrid(GridStates())
  {
  }

  /** A sweep keeps the values bounded. */
  lemma {:induction false} SweepOverBounded(p: map<TKey, real>, v: map<St, real>, ss: seq<St>)
    requires Stochastic(p) && Bounded(v) && OnGrid(ss)
    ensures Bounded(SweepOver(p, v, ss).0)
  {
    if ss != [] {
      var prefix := ss[..|ss| - 1];
      assert OnGrid(prefix);
      SweepOverBounded(p, v, prefix);
      var v0 := SweepOver(p, v, prefix).0;
      CandidatesBounds(p, v0, ss[|ss| - 1]);
      var j := MaxOfIsMax(Candidates(p, v0, ss[|ss| - 1]));
    }
  }

  /** Any number of sweeps from zero keeps every value in [0, 1 / (1 - gamma)]. */
  lemma {:induction false} IterateBounded(p: map<TKey, real>, n: nat)
    requires Stochastic(p)
    ensures Bounded(Iterate(p, map[], n))
  {
    if n > 0 {
      IterateBounded(p, n - 1);
      GridStatesOnGrid();
      SweepOverBounded(p, Iterate(p, map[], n - 1), GridStates());
    }
  }

  // ----- The algorithm -----

  /** The lookahead of one state-action pair, summing the terms in loop order. */
  method ComputeLookahead(p: map<TKey, real>, v: map<St, real>, sa: SA) returns (total: real)
    ensures total == Lookahead(p, v, sa)
  {
    total := SumTerms(p, v, sa, GridOutcomes(sa.arm));
  }

  method SumTerms(p: map<TKey, real>, v: map<St, real>, sa: SA, os: seq<Outcome>) returns (total: real)
    ensures total == LookaheadOver(p, v, sa, os)
  {
    total := 0.0;
    var i := 0;
    while i < |os|
      invariant 0 <= i <= |os|
      invariant total == LookaheadOver(p, v, sa, os[..i])
    {
      assert os[..i + 1][..i] == os[..i];
      var o := os[i];
      var transitionProb := GetP(p, TKey(sa, o));
      total := total + transitionProb * (o.reward + Gamma * GetV(v, St(o.mcs, o.bsr)));
      i := i + 1;
    }
    assert os[..i] == os;
  }

  /** The lookahead of every arm in state `s`. */
  method ComputeCandidates(p: map<TKey, real>, v: map<St, real>, s: St) returns (candidateValues: seq<real>)
    ensures candidateValues == Candidates(p, v, s)
  {
    candidateValues := [];
    var w := 0;
    while w < NumArms
      invariant 0 <= w <= NumArms
      invariant |candidateValues| == w
      invariant forall j :: 0 <= j < w ==> candidateValues[j] == Lookahead(p, v, SA(s.mcs, s.bsr, j))
    {
      var total := ComputeLookahead(p, v, SA(s.mcs, s.bsr, w));
      candidateValues := candidateValues + [total];
      w := w + 1;
    }
  }

  /** One Gauss-Seidel sweep: every state takes its best lookahead, computed
      with the values already updated in this sweep. */
  method SweepStates(p: map<TKey, real>, v: map<St, real>) returns (v': map<St, real>, maxDeviation: real)
    ensures v' == Sweep(p, v).0 && maxDeviation == Sweep(p, v).1
  {
    v', maxDeviation := SweepList(p, v, GridStates());
  }

  method SweepList(p: map<TKey, real>, v: map<St, real>, ss: seq<St>) returns (v': map<St, real>, maxDeviation: real)
    ensures v' == SweepOver(p, v, ss).0 && maxDeviation == SweepOver(p, v, ss).1
  {
    v', maxDeviation := v, 0.0;
    var i := 0;
    while i < |ss|
      invariant 0 <= i <= |ss|
      invariant v' == SweepOver(p, v, ss[..i]).0
      invariant maxDeviation == SweepOver(p, v, ss[..i]).1
    {
      v', maxDeviation := UpdateState(p, v, ss, i, v', maxDeviation);
      i := i + 1;
    }
    assert ss[..i] == ss;
  }

  /** The update of state `ss[i]`: its best candidate value replaces its value. */
  method UpdateState(p: map<TKey, real>, ghost v: map<St, real>, ss: seq<St>, i: nat, v0: map<St, real>, d0: real)
    returns (v': map<St, real>, maxDeviation: real)
    requires i < |ss|
    requires v0 == SweepOver(p, v, ss[..i]).0 && d0 == SweepOver(p, v, ss[..i]).1
    ensures v' == SweepOver(p, v, ss[..i + 1]).0 && maxDeviation == SweepOver(p, v, ss[..i + 1]).1
  {
    SweepOverSnoc(p, v, ss, i);
    var state := ss[i];
    var previousStateValue := GetV(v0, state);
    var candidateValues := ComputeCandidates(p, v0, state);
    var best := MaxOf(candidateValues);
    v' := v0[state := best];
    maxDeviation := RMax(d0, Abs(previousStateValue - best));
  }

  lemma {:induction false} SweepOverSnoc(p: map<TKey, real>, v: map<St, real>, ss: seq<St>, i: nat)
    requires i < |ss|
    ensures var (v0, d0) := SweepOver(p, v, ss[..i]);
            var best := MaxOf(Candidates(p, v0, ss[i]));
            SweepOver(p, v, ss[..i + 1]) == (v0[ss[i] := best], RMax(d0, Abs(GetV(v0, ss[i]) - best)))
  {
    assert ss[..i + 1][..i] == ss[..i];
  }

  /** The greedy arm of every state: the first arm of maximal lookahead. */
  method GreedyPolicy(p: map<TKey, real>, v: map<St, real>) returns (bestAction: map<St, Arm>)
    ensures bestAction.Keys == set i | 0 <= i < 16 :: GridStates()[i]
    ensures forall s :: s in bestAction ==> bestAction[s] == ArgmaxFirst(Candidates(p, v, s))
  {
    var ss := GridStates();
    bestAction := map[];
    var i := 0;
    while i < |ss|
      invariant 0 <= i <= |ss|
      invariant bestAction.Keys == set j | 0 <= j < i :: ss[j]
      invariant forall s :: s in bestAction ==> bestAction[s] == ArgmaxFirst(Candidates(p, v, s))
    {
      var candidateValues := ComputeCandidates(p, v, ss[i]);
      var winner := ArgmaxFirst(candidateValues);
      bestAction := bestAction[ss[i] := winner];
      i := i + 1;
    }
  }

  /** The outcome of `value_iteration` on matrix `p`: `sweeps` is where the
      loop stops, since every earlier sweep changed some value by more than
      theta and the last one, unless `fuel` ran out, by at most theta; `best`
      maps every grid state to the first arm of largest lookahead under the
      values of that sweep. */
  ghost predicate ValueIterated(p: map<TKey, real>, fuel: nat, best: map<St, Arm>, sweeps: nat)
  {
    && 1 <= sweeps <= fuel
    && (sweeps < fuel ==> LastDeviation(p, sweeps) <= Theta)
    && (forall m :: 1 <= m < sweeps ==> LastDeviation(p, m) > Theta)
    && best.Keys == (set i | 0 <= i < 16 :: GridStates()[i])
    && forall s :: s in best ==> best[s] == ArgmaxFirst(Candidates(p, Iterate(p, map[], sweeps), s))
  }

  /** `value_iteration`: sweeps from all-zero values until the largest change of
      a sweep is at most theta (or `fuel` sweeps have run), then extracts the
      greedy arm of every state. With stochastic rows the values stay within
      [0, 1 / (1 - gamma)]. */
  method RunValueIteration(p: map<TKey, real>, fuel: nat)
    returns (bestAction: map<St, Arm>, ghost values: map<St, real>, ghost sweeps: nat)
    requires fuel >= 1
    ensures 1 <= sweeps <= fuel
    ensures values == Iterate(p, map[], sweeps)
    ensures sweeps < fuel ==> LastDeviation(p, sweeps) <= Theta
    ensures forall m :: 1 <= m < sweeps ==> LastDeviation(p, m) > Theta
    ensures bestAction.Keys == set i | 0 <= i < 16 :: GridStates()[i]
    ensures forall s :: s in bestAction ==> bestAction[s] == ArgmaxFirst(Candidates(p, values, s))
    ensures Stochastic(p) ==> Bounded(values)
  {
    var stateValues;
    stateValues, sweeps := RunSweeps(p, fuel);
    values := stateValues;
    bestAction := GreedyPolicy(p, stateValues);
    if Stochastic(p) {
      IterateBounded(p, sweeps);
    }
  }

  /** The `n + 1`-th sweep from zero, given the values after `n` sweeps. */
  method NextSweep(p: map<TKey, real>, v: map<St, real>, ghost n: nat) returns (v': map<St, real>, maxDeviation: real)
    requires v == Iterate(p, map[], n)
    ensures v' == Iterate(p, map[], n + 1)
    ensures maxDeviation == LastDeviation(p, n + 1)
  {
    v', maxDeviation := SweepStates(p, v);
    IterateSnoc(p, n);
  }

  /** Sweeps from all-zero values until a sweep changes no value by more than
      theta, or `fuel` sweeps have run. */
  method RunSweeps(p: map<TKey, real>, fuel: nat) returns (stateValues: map<St, real>, sweeps: nat)
    requires fuel >= 1
    ensures 1 <= sweeps <= fuel
    ensures stateValues == Iterate(p, map[], sweeps)
    ensures sweeps < fuel ==> LastDeviation(p, sweeps) <= Theta
    ensures forall m :: 1 <= m < sweeps ==> LastDeviation(p, m) > Theta
  {
    stateValues := map[];
    var maxDeviation := Theta + 1.0;
    var n := 0;
    while maxDeviation > Theta && n < fuel
      invariant n <= fuel
      invariant stateValues == Iterate(p, map[], n)
      invariant n == 0 ==> maxDeviation > Theta
      invariant n > 0 ==> maxDeviation == LastDeviation(p, n)
      invariant forall m :: 1 <= m < n ==> LastDeviation(p, m) > Theta
      decreases fuel - n
    {
      stateValues, maxDeviation := NextSweep(p, stateValues, n);
      n := n + 1;
    }
    sweeps := n;
  }
}
