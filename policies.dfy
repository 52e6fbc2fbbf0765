/**
 * The epsilon-soft action distributions: the first one, built on the most used
 * arm of each context, and the greedy one over the Monte-Carlo Q table. The
 * random draw from a distribution is not modelled: each policy returns the
 * probability vector it would draw from.
 */
module Policies {
  import opened Stats
  import opened Parameters
  import opened Trajectory

  /** Probability of the recommended arm and of each other arm. */
  const HighProb: real := 1.0 - Epsilon + Epsilon / (NumArms as real)
  const LowProb: real := Epsilon / (NumArms as real)

  /** The epsilon-soft pmf recommending `best`; the program draws the played arm from it. */
  function EpsilonSoftPolicySelect(best: Arm): (pmf: seq<real>)
    ensures |pmf| == NumArms
    ensures pmf[best] == HighProb
    ensures forall a :: 0 <= a < NumArms && a != best ==> pmf[a] == LowProb
  {
    seq(NumArms, a requires 0 <= a < NumArms => if a == best then HighProb else LowProb)
  }

  /** Every epsilon-soft pmf is a probability distribution favouring its recommendation. */
  lemma {:induction false} EpsilonSoftIsDistribution(best: Arm)
    ensures Sum(EpsilonSoftPolicySelect(best)) == 1.0
    ensures forall a :: 0 <= a < NumArms ==> 0.0 < EpsilonSoftPolicySelect(best)[a] <= 1.0
    ensures forall a :: 0 <= a < NumArms && a != best ==>
      EpsilonSoftPolicySelect(best)[a] < EpsilonSoftPolicySelect(best)[best]
  {
    Sum4(EpsilonSoftPolicySelect(best));
  }

  /** The statistical mode: the value occurring most often, ties going to the
      value that occurs first (Python's `statistics.mode`). */
  function Mode<T(==)>(xs: seq<T>): (m: T)
    requires xs != []
    ensures m in xs
    ensures forall j :: 0 <= j < |xs| ==> Count(xs, xs[j]) <= Count(xs, m)
    ensures forall j :: 0 <= j < |xs| && Count(xs, xs[j]) == Count(xs, m) ==>
      exists k :: 0 <= k <= j && xs[k] == m
  {
    var counts := seq(|xs|, j requires 0 <= j < |xs| => Count(xs, xs[j]) as real);
    var i := ArgmaxFirst(counts);
    assert forall j :: 0 <= j < |xs| ==> Count(xs, xs[j]) <= Count(xs, xs[i]) by {
      forall j | 0 <= j < |xs|
        ensures Count(xs, xs[j]) <= Count(xs, xs[i])
      {
        assert counts[j] <= counts[i];
      }
    }
    assert forall j :: 0 <= j < |xs| && Count(xs, xs[j]) == Count(xs, xs[i]) ==> i <= j by {
      forall j | 0 <= j < |xs| && Count(xs, xs[j]) == Count(xs, xs[i])
        ensures i <= j
      {
        assert counts[j] == counts[i];
      }
    }
    xs[i]
  }

  /** The arms of the visits whose context is `c`, in visit order. */
  function ArmsOf(vs: seq<Visit>, c: Ctx): (arms: seq<Arm>)
    ensures |arms| <= |vs|
  {
    if vs == [] then []
    else
      var v := vs[|vs| - 1];
      var prefix := ArmsOf(vs[..|vs| - 1], c);
      if v.state == c then prefix + [v.arm] else prefix
  }

  /** A context has arms exactly when some visit has that context. */
  lemma {:induction false} ArmsOfNonEmpty(vs: seq<Visit>, c: Ctx)
    ensures ArmsOf(vs, c) != [] <==> exists i :: 0 <= i < |vs| && vs[i].state == c
  {
    if vs != [] {
      var prefix := vs[..|vs| - 1];
      ArmsOfNonEmpty(prefix, c);
      if exists i :: 0 <= i < |prefix| && prefix[i].state == c {
        var i :| 0 <= i < |prefix| && prefix[i].state == c;
        assert vs[i].state == c;
      }
      if exists i :: 0 <= i < |vs| && vs[i].state == c {
        var i :| 0 <= i < |vs| && vs[i].state == c;
        if i < |prefix| {
          assert prefix[i].state == c;
        }
      }
    }
  }

  /** Groups the arms of the window's visits by context, in window order. */
  method GroupArmsByContext(vs: seq<Visit>) returns (contextVsArms: map<Ctx, seq<Arm>>)
    ensures forall c :: c in contextVsArms <==> ArmsOf(vs, c) != []
    ensures forall c :: c in contextVsArms ==> contextVsArms[c] == ArmsOf(vs, c)
  {
    contextVsArms := map[];
    var i := 0;
    while i < |vs|
      invariant 0 <= i <= |vs|
      invariant forall c :: c in contextVsArms <==> ArmsOf(vs[..i], c) != []
      invariant forall c :: c in contextVsArms ==> contextVsArms[c] == ArmsOf(vs[..i], c)
    {
      assert vs[..i + 1][..i] == vs[..i];
      var visit := vs[i];
      var arms := if visit.state in contextVsArms then contextVsArms[visit.state] else [];
      contextVsArms := contextVsArms[visit.state := arms + [visit.arm]];
      i := i + 1;
    }
    assert vs[..i] == vs;
  }

  /** The most used arm of every context seen in the window: the mode of the
      arms played in that context's rounds. */
  method FindMostUsedArm(data: seq<Row>, window: seq<nat>) returns (mostUsed: map<Ctx, Arm>)
    requires ValidWindow(data, window)
    ensures forall c :: c in mostUsed <==> exists i :: 0 <= i < |window| && CtxOf(data[window[i] - 1]) == c
    ensures forall c :: c in mostUsed ==>
      ArmsOf(Visits(data, window), c) != [] && mostUsed[c] == Mode(ArmsOf(Visits(data, window), c))
  {
    var vs := ReadVisits(data, window);
    var contextVsArms := GroupArmsByContext(vs);
    mostUsed := map[];
    var keys := contextVsArms.Keys;
    while keys != {}
      invariant keys <= contextVsArms.Keys
      invariant mostUsed.Keys == contextVsArms.Keys - keys
      invariant forall c :: c in mostUsed ==> mostUsed[c] == Mode(contextVsArms[c])
    {
      var c :| c in keys;
      mostUsed := mostUsed[c := Mode(contextVsArms[c])];
      keys := keys - {c};
    }
    forall c
      ensures c in mostUsed <==> exists i :: 0 <= i < |window| && CtxOf(data[window[i] - 1]) == c
    {
      ArmsOfNonEmpty(vs, c);
    }
  }

  /** The most used arm of a context is played in that context at least as often
      as any other arm. */
  lemma {:induction false} MostUsedArmIsMostFrequent(data: seq<Row>, window: seq<nat>, mostUsed: map<Ctx, Arm>, c: Ctx, a: Arm)
    requires ValidWindow(data, window)
    requires forall c :: c in mostUsed ==>
      ArmsOf(Visits(data, window), c) != [] && mostUsed[c] == Mode(ArmsOf(Visits(data, window), c))
    requires c in mostUsed
    ensures Count(ArmsOf(Visits(data, window), c), a) <= Count(ArmsOf(Visits(data, window), c), mostUsed[c])
  {
    var arms := ArmsOf(Visits(data, window), c);
    if a in arms {
      var j :| 0 <= j < |arms| && arms[j] == a;
    } else {
      CountAbsent(arms, a);
    }
  }

  /** The first epsilon-soft policy: recommends the context's most used arm, or
      the smallest arm for a context not seen in the first episode. */
  function SecondPolicy(state: Ctx, mostUsed: map<Ctx, Arm>): (pmf: seq<real>)
    ensures |pmf| == NumArms && Sum(pmf) == 1.0
    ensures state in mostUsed ==> pmf[mostUsed[state]] == HighProb
    ensures state !in mostUsed ==> pmf[0] == HighProb
  {
    var best: Arm := if state in mostUsed then mostUsed[state] else 0;
    EpsilonSoftIsDistribution(best);
    EpsilonSoftPolicySelect(best)
  }

  /** A state-action pair of the Monte-Carlo Q table: bucketed context and arm. */
  datatype SaKey = SaKey(state: Ctx, arm: nat)

  /** The arms that have a Q entry for `state`, in increasing order, with their
      Q values. */
  method ArmsWithEntries(state: Ctx, q: map<SaKey, real>) returns (candidates: seq<Arm>, values: seq<real>)
    ensures |candidates| == |values|
    ensures forall i :: 0 <= i < |candidates| ==>
      SaKey(state, candidates[i]) in q && values[i] == q[SaKey(state, candidates[i])]
    ensures forall i, j :: 0 <= i < j < |candidates| ==> candidates[i] < candidates[j]
    ensures forall a :: 0 <= a < NumArms && SaKey(state, a) in q ==> a in candidates
  {
    candidates, values := [], [];
    var action := 0;
    while action < NumArms
      invariant 0 <= action <= NumArms
      invariant |candidates| == |values|
      invariant forall i :: 0 <= i < |candidates| ==>
        SaKey(state, candidates[i]) in q && values[i] == q[SaKey(state, candidates[i])]
      invariant forall i, j :: 0 <= i < j < |candidates| ==> candidates[i] < candidates[j]
      invariant forall i :: 0 <= i < |candidates| ==> candidates[i] < action
      invariant forall a :: 0 <= a < action && SaKey(state, a) in q ==> a in candidates
    {
      if SaKey(state, action) in q {
        candidates := candidates + [action];
        values := values + [q[SaKey(state, action)]];
      }
      action := action + 1;
    }
  }

  /** `best` is the smallest arm with the largest Q value among the arms that
      have a Q entry for `state`, or arm 0 when there is none. */
  predicate Greedy(state: Ctx, q: map<SaKey, real>, best: Arm)
  {
    && ((forall a :: 0 <= a < NumArms ==> SaKey(state, a) !in q) ==> best == 0)
    && ((exists a :: 0 <= a < NumArms && SaKey(state, a) in q) ==>
      SaKey(state, best) in q
      && (forall a :: 0 <= a < NumArms && SaKey(state, a) in q ==> q[SaKey(state, a)] <= q[SaKey(state, best)])
      && (forall a :: 0 <= a < best && SaKey(state, a) in q ==> q[SaKey(state, a)] < q[SaKey(state, best)]))
  }

  /** The greedy epsilon-soft policy over `q`: recommends the smallest arm with
      the largest Q value among the arms that have a Q entry for `state`, or arm 0
      when there is none, and returns the pmf recommending it. */
  method EpsilonSoftPolicy(state: Ctx, q: map<SaKey, real>) returns (best: Arm, pmf: seq<real>)
    ensures Greedy(state, q, best)
    ensures pmf == EpsilonSoftPolicySelect(best) && Sum(pmf) == 1.0
  {
    var candidates, values := ArmsWithEntries(state, q);
    if candidates == [] {
      best := 0;
    } else {
      var idx := ArgmaxFirst(values);
      best := candidates[idx];
      forall a | 0 <= a < NumArms && SaKey(state, a) in q
        ensures q[SaKey(state, a)] <= q[SaKey(state, best)]
        ensures a < best ==> q[SaKey(state, a)] < q[SaKey(state, best)]
      {
        var j :| 0 <= j < |candidates| && candidates[j] == a;
      }
    }
    EpsilonSoftIsDistribution(best);
    pmf := EpsilonSoftPolicySelect(best);
  }
}
