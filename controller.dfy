/**
 * The per-round loop of the bandwidth controller. Each round reads the
 * context, buckets it, counts the round in its user bucket, derives the
 * bucket's episode, picks an arm with the estimator the algorithm and the
 * episode call for, records the round in the trajectory, feeds the QoS verdict
 * back to UCB1 while UCB1 is in charge, and at the end of an episode refreshes
 * the bucket's estimator from the rounds it played since the previous refresh.
 * Measuring, sleeping and the radio API are the environment: the round takes
 * the context, the number of live users, the packet delays and the random
 * draw as inputs.
 */
module Controller {
  import opened Wrappers
  import opened Stats
  import opened Parameters
  import opened Trajectory
  import opened Bandit
  import opened Policies
  import opened MonteCarlo
  import opened Transitions
  import opened ValueIteration
  import opened Qos
  import opened Reward

  /** The bandwidth the cell is reset to when the loop ends. */
  const ResetBandwidth: int := 90

  // ----- Episodes of a user bucket -----

  /** Python's floor division `a // b`, which rounds toward minus infinity
      for either sign of `b`. */
  function FloorDiv(a: int, b: int): (q: int)
    requires b != 0
    ensures b > 0 ==> q * b <= a < q * b + b
    ensures b < 0 ==> q * b + b < a <= q * b
  {
    if b > 0 then a / b else (-a) / (-b)
  }

  /** The episode of the `n`-th round of a bucket: episode 1 covers the first
      `InitialRounds` rounds, and every later episode `RoundsPerEpisode`
      rounds; the program computes the ceiling as `-(temp // -rounds) + 1`. */
  function EpisodeOf(n: nat): (e: int)
    ensures e >= 1
    ensures e == 1 <==> n <= InitialRounds
    ensures n > InitialRounds ==>
      (e - 2) * RoundsPerEpisode < n - InitialRounds <= (e - 1) * RoundsPerEpisode
  {
    if n <= InitialRounds then 1
    else -FloorDiv(n - InitialRounds, -(RoundsPerEpisode as int)) + 1
  }

  /** The round number printed for the `n`-th round of a bucket: the position
      inside the episode, where the last round of a later episode shows as 0. */
  function RoundOf(n: nat): (r: int)
    ensures n <= InitialRounds ==> r == n
    ensures n > InitialRounds ==> 0 <= r < RoundsPerEpisode
    ensures n > InitialRounds && r == 0 ==> n - InitialRounds == (EpisodeOf(n) - 1) * RoundsPerEpisode
    ensures n > InitialRounds && r > 0 ==> n - InitialRounds == (EpisodeOf(n) - 2) * RoundsPerEpisode + r
  {
    if n <= InitialRounds then n else (n - InitialRounds) % RoundsPerEpisode
  }

  /** The `n`-th round of a bucket closes an episode: the first episode, or a
      whole number of later ones. */
  predicate EndsEpisode(n: nat)
  {
    n >= InitialRounds && (n - InitialRounds) % RoundsPerEpisode == 0
  }

  /** A bucket's episode moves on by one exactly after the round that closes
      an episode, and otherwise stays. */
  lemma {:induction false} EpisodeAdvances(n: nat)
    ensures EpisodeOf(n + 1) == if EndsEpisode(n) then EpisodeOf(n) + 1 else EpisodeOf(n)
  {
    var e, e' := EpisodeOf(n), EpisodeOf(n + 1);
    if n > InitialRounds {
      var k := n - InitialRounds;
      assert (e - 2) * 10 < k <= (e - 1) * 10;
      assert (e' - 2) * 10 < k + 1 <= (e' - 1) * 10;
      if k % 10 == 0 {
        assert k == (k / 10) * 10;
        assert k == (e - 1) * 10;
      } else {
        assert k == (k / 10) * 10 + k % 10;
        assert e - 2 == k / 10;
      }
    }
  }

  // ----- Which estimator plays and learns -----

  /** Whether the algorithm learns a policy from episodes, rather than
      running UCB1 alone. */
  predicate Adaptive(alg: Algorithm)
  {
    alg == PolicyIterationAlg || alg == ValueIterationAlg
  }

  /** The context a round works with: `no_adaptation` collapses every
      context onto the single state [0, 0, 0]. */
  function RoundContext(alg: Algorithm, users: real, mcs: real, bsr: real): (c: Ctx)
    ensures c.users < |Users| && c.mcs < |MCSs| && c.bsr < |BSRs|
    ensures alg == NoAdaptation ==> c == Ctx(0, 0, 0)
    ensures alg != NoAdaptation ==> c == ContextOf(users, mcs, bsr)
  {
    if alg == NoAdaptation then Ctx(0, 0, 0) else ContextOf(users, mcs, bsr)
  }

  /** Where a round's arm comes from. */
  datatype Selector =
    | ByUcb            // the context's UCB1 object
    | BySecondPolicy   // the first epsilon-soft policy, around the most used arms
    | ByQ              // the epsilon-soft policy, greedy in the Q table
    | ByBestAction     // the epsilon-soft policy around value iteration's action

  function SelectorFor(alg: Algorithm, episode: int): Selector
  {
    match alg
    case Ucb1Only => ByUcb
    case NoAdaptation => ByUcb
    case PolicyIterationAlg =>
      if episode <= 1 then ByUcb else if episode <= 2 then BySecondPolicy else ByQ
    case ValueIterationAlg =>
      if episode <= 1 then ByUcb else ByBestAction
  }

  /** The test guarding the UCB1 update after a round. */
  predicate UpdatesUcb(alg: Algorithm, episode: int)
  {
    episode <= 1 || alg == Ucb1Only || alg == NoAdaptation
  }

  /** UCB1 learns from a round exactly when it chose that round's arm, so the
      update always goes to the object that played. */
  lemma {:induction false} UpdateFollowsSelection(alg: Algorithm, episode: int)
    ensures UpdatesUcb(alg, episode) <==> SelectorFor(alg, episode) == ByUcb
  {
    match alg
    case Ucb1Only =>
    case NoAdaptation =>
    case PolicyIterationAlg =>
    case ValueIterationAlg =>
  }

  /** The estimator of the `n`-th round of a bucket, by round count: UCB1
      throughout the first `InitialRounds` rounds and for the UCB-only modes;
      policy iteration then plays the second policy for one episode and the
      Q-greedy policy afterwards; value iteration plays its best actions. */
  lemma {:induction false} DispatchByRound(alg: Algorithm, n: nat)
    ensures SelectorFor(alg, EpisodeOf(n)) == ByUcb <==> !Adaptive(alg) || n <= InitialRounds
    ensures alg == PolicyIterationAlg ==>
      (SelectorFor(alg, EpisodeOf(n)) == BySecondPolicy <==>
        InitialRounds < n <= InitialRounds + RoundsPerEpisode)
    ensures alg == PolicyIterationAlg ==>
      (SelectorFor(alg, EpisodeOf(n)) == ByQ <==> n > InitialRounds + RoundsPerEpisode)
    ensures alg == ValueIterationAlg ==>
      (SelectorFor(alg, EpisodeOf(n)) == ByBestAction <==> n > InitialRounds)
  {
    var e := EpisodeOf(n);
    if n > InitialRounds + RoundsPerEpisode {
      assert e > 2;
    } else if n > InitialRounds {
      assert e == 2;
    }
  }

  // ----- Refreshes at the end of an episode -----

  datatype Refresh =
    | NoRefresh
    | MostUsedRefresh     // find_most_used_arm, after the first episode
    | PolicyRefresh       // policy_iteration, after every later episode
    | ValueRefresh        // update_transition_matrix and value_iteration

  /** What the end of the `n`-th round of a bucket refreshes. */
  function RefreshAt(alg: Algorithm, n: nat): Refresh
  {
    match alg
    case PolicyIterationAlg =>
      if n == InitialRounds then MostUsedRefresh
      else if n >= InitialRounds && (n - InitialRounds) % RoundsPerEpisode == 0 then PolicyRefresh
      else NoRefresh
    case ValueIterationAlg =>
      if n >= InitialRounds && (n - InitialRounds) % RoundsPerEpisode == 0 then ValueRefresh
      else NoRefresh
    case _ => NoRefresh
  }

  /** Both learning algorithms refresh after exactly the rounds that close an
      episode, so the next round of the bucket starts a new episode; policy
      iteration's first refresh is the most-used-arm one. */
  lemma {:induction false} RefreshesCloseEpisodes(alg: Algorithm, n: nat)
    ensures RefreshAt(alg, n) != NoRefresh <==> Adaptive(alg) && EndsEpisode(n)
    ensures RefreshAt(alg, n) != NoRefresh ==> EpisodeOf(n + 1) == EpisodeOf(n) + 1
    ensures RefreshAt(alg, n) == MostUsedRefresh <==> alg == PolicyIterationAlg && n == InitialRounds
  {
    EpisodeAdvances(n);
  }

  /** How many of a bucket's rounds its window holds after its `n`-th round:
      all of them for the UCB-only modes, otherwise those since the last
      episode end. */
  function Since(alg: Algorithm, n: nat): (k: nat)
    ensures k <= n
    ensures k == 0 <==> n == 0 || (Adaptive(alg) && EndsEpisode(n))
  {
    if !Adaptive(alg) || n < InitialRounds then n else (n - InitialRounds) % RoundsPerEpisode
  }

  /** One more round grows the window by one, unless it closes an episode,
      which empties the window. */
  lemma {:induction false} SinceStep(alg: Algorithm, n: nat)
    ensures Since(alg, n + 1) == if Adaptive(alg) && EndsEpisode(n + 1) then 0 else Since(alg, n) + 1
  {
    if Adaptive(alg) && n + 1 > InitialRounds && !EndsEpisode(n + 1) {
      var k := n + 1 - InitialRounds;
      assert k % 10 != 0;
      assert k == (k / 10) * 10 + k % 10;
      assert k - 1 == (k / 10) * 10 + (k % 10 - 1);
    }
  }

  /** A refresh sees the rounds since the previous one: all first-episode
      rounds at the first refresh, one episode's rounds at every later one. */
  lemma {:induction false} RefreshSeesOneEpisode(alg: Algorithm, n: nat)
    requires RefreshAt(alg, n) != NoRefresh
    ensures n >= 1
    ensures Since(alg, n - 1) + 1 == if n == InitialRounds then InitialRounds else RoundsPerEpisode
  {
    RefreshesCloseEpisodes(alg, n);
    if n > InitialRounds {
      var k := n - InitialRounds;
      assert k == (k / 10) * 10;
      assert k - 1 == (k / 10 - 1) * 10 + 9;
    }
  }

  // ----- The rounds of a bucket -----

  /** The 1-based numbers of the rounds that fell into bucket `b`, in order. */
  function RoundsOf(buckets: seq<nat>, b: nat): (rs: seq<nat>)
    ensures |rs| <= |buckets|
    decreases |buckets|
  {
    if buckets == [] then []
    else
      var rest := RoundsOf(buckets[..|buckets| - 1], b);
      if buckets[|buckets| - 1] == b then rest + [|buckets|] else rest
  }

  /** Only rounds of bucket `b` are listed, in increasing order. */
  lemma {:induction false} RoundsOfSound(buckets: seq<nat>, b: nat)
    ensures forall i :: 0 <= i < |RoundsOf(buckets, b)| ==>
      1 <= RoundsOf(buckets, b)[i] <= |buckets| && buckets[RoundsOf(buckets, b)[i] - 1] == b
    ensures forall i, j :: 0 <= i < j < |RoundsOf(buckets, b)| ==> RoundsOf(buckets, b)[i] < RoundsOf(buckets, b)[j]
    decreases |buckets|
  {
    if buckets != [] {
      var prefix := buckets[..|buckets| - 1];
      RoundsOfSound(prefix, b);
      assert forall i :: 0 <= i < |prefix| ==> prefix[i] == buckets[i];
    }
  }

  /** Every round of bucket `b` is listed. */
  lemma {:induction false} RoundsOfComplete(buckets: seq<nat>, b: nat, r: nat)
    requires 1 <= r <= |buckets| && buckets[r - 1] == b
    ensures r in RoundsOf(buckets, b)
    decreases |buckets|
  {
    var prefix := buckets[..|buckets| - 1];
    if r < |buckets| {
      RoundsOfComplete(prefix, b, r);
    }
  }

  lemma {:induction false} RoundsOfSnoc(buckets: seq<nat>, b: nat, d: nat)
    ensures RoundsOf(buckets + [b], d) == if d == b then RoundsOf(buckets, d) + [|buckets| + 1]
                                         else RoundsOf(buckets, d)
  {
    assert (buckets + [b])[..|buckets|] == buckets;
  }

  /** The last `k` elements of `s`. */
  function Latest(s: seq<nat>, k: nat): (r: seq<nat>)
    requires k <= |s|
    ensures |r| == k
    decreases k
  {
    if k == 0 then [] else Latest(s[..|s| - 1], k - 1) + [s[|s| - 1]]
  }

  /** `Latest(s, k)` is the suffix of `s` of length `k`. */
  lemma {:induction false} LatestIsSuffix(s: seq<nat>, k: nat)
    requires k <= |s|
    ensures forall i :: 0 <= i < k ==> Latest(s, k)[i] == s[|s| - k + i]
    decreases k
  {
    if k > 0 {
      LatestIsSuffix(s[..|s| - 1], k - 1);
    }
  }

  /** The window a bucket keeps after its rounds `rs`: each round is
      appended, and the round that closes an episode empties the window. */
  function WindowOf(alg: Algorithm, rs: seq<nat>): seq<nat>
    decreases |rs|
  {
    if rs == [] then []
    else if Adaptive(alg) && EndsEpisode(|rs|) then []
    else WindowOf(alg, rs[..|rs| - 1]) + [rs[|rs| - 1]]
  }

  /** The window after one more round. */
  lemma {:induction false} WindowStep(alg: Algorithm, rs: seq<nat>, r: nat)
    ensures WindowOf(alg, rs + [r]) ==
      if Adaptive(alg) && EndsEpisode(|rs| + 1) then [] else WindowOf(alg, rs) + [r]
  {
    assert (rs + [r])[..|rs|] == rs;
  }

  /** The window holds the latest rounds: all of them in the UCB-only
      modes, those since the last episode end otherwise. */
  lemma {:induction false} WindowIsLatest(alg: Algorithm, rs: seq<nat>)
    ensures Since(alg, |rs|) <= |rs|
    ensures WindowOf(alg, rs) == Latest(rs, Since(alg, |rs|))
    decreases |rs|
  {
    if rs != [] {
      var prefix, r := rs[..|rs| - 1], rs[|rs| - 1];
      assert rs == prefix + [r];
      WindowIsLatest(alg, prefix);
      WindowStep(alg, prefix, r);
      SinceStep(alg, |prefix|);
      if !(Adaptive(alg) && EndsEpisode(|rs|)) {
        assert Latest(rs, Since(alg, |prefix|) + 1) == Latest(prefix, Since(alg, |prefix|)) + [r];
      }
    }
  }

  // ----- The UCB1 objects -----

  /** The table of UCB1 objects, one per context triple, created on first use
      (main.py:29, 83, 96, 118). */
  class UcbObjects {
    var objects: map<Ctx, UCB1>

    /** Every object is a consistent UCB1 over the program's arms, and no
        object serves two contexts. */
    ghost predicate Valid()
      reads this, objects.Values
    {
      && (forall c :: c in objects ==>
            objects[c].Valid() && objects[c].numArms == NumArms && objects[c].armCorrelations == ArmCorrelations)
      && (forall c, d :: c in objects && d in objects && c != d ==> objects[c] != objects[d])
    }

    constructor ()
      ensures Valid() && objects == map[]
    {
      objects := map[];
    }

    /** Plays the arm of context `c`'s object, creating the object first if
        the context is new; existing objects are never replaced, and only
        `c`'s object changes. */
    method SelectArm(c: Ctx, bonus: (nat, nat) -> real) returns (arm: Arm)
      requires Valid()
      modifies this, objects.Values
      ensures Valid()
      ensures objects.Keys == old(objects.Keys) + {c}
      ensures forall d :: d in old(objects) ==> objects[d] == old(objects[d])
      ensures forall d :: d in old(objects) && d != c ==> unchanged(objects[d])
      ensures c !in old(objects) ==>
        fresh(objects[c]) && arm == 0 && objects[c].iterations == 0 && objects[c].fed == seq(NumArms, _ => [])
      ensures c in old(objects) ==>
        arm == ArmToSelect(old(objects[c].counts), old(objects[c].avgRewards), old(objects[c].iterations), bonus)
        && objects[c].iterations == old(objects[c].iterations)
        && objects[c].fed == old(objects[c].fed)
    {
      if c !in objects {
        var created := new UCB1(NumArms, ArmCorrelations);
        objects := objects[c := created];
        assert created.counts[0] == 0;
      }
      var u := objects[c];
      var selected := u.SelectArm(bonus);
      arm := selected;
    }

    /** Feeds a round's QoS verdict to context `c`'s object; no other object
        changes. */
    method Update(c: Ctx, selected: Arm, qos: real)
      requires Valid() && c in objects && 0.0 <= qos <= 1.0
      modifies objects[c]
      ensures Valid()
      ensures objects[c].iterations == old(objects[c].iterations) + 1
      ensures forall i :: 0 <= i < NumArms ==>
        objects[c].fed[i] == old(objects[c].fed[i]) +
          (if UpdatedBy(ArmCorrelations, selected, qos, i) then [RlReward(PRBs[i] as real, qos)] else [])
    {
      objects[c].Update(selected, qos);
    }
  }

  // ----- The bookkeeping of the loop -----

  /** `users_vs_counts[b]`, a default dictionary of integers. */
  function CountIn(counts: map<nat, nat>, b: nat): nat
  {
    if b in counts then counts[b] else 0
  }

  /** `users_vs_last_rounds[b]`, a default dictionary of lists. */
  function WindowIn(windows: map<nat, seq<nat>>, b: nat): seq<nat>
  {
    if b in windows then windows[b] else []
  }

  /** The counter and the window of bucket `d` agree with the rounds that
      fell into it. */
  ghost predicate TracksAt(alg: Algorithm, buckets: seq<nat>, counts: map<nat, nat>,
                           windows: map<nat, seq<nat>>, d: nat)
  {
    Agrees(alg, RoundsOf(buckets, d), CountIn(counts, d), WindowIn(windows, d))
  }

  /** A counter and a window agree with rounds `rs`: the counter is their
      number and the window the latest of them in the current episode. */
  ghost predicate Agrees(alg: Algorithm, rs: seq<nat>, count: nat, window: seq<nat>)
  {
    count == |rs| && window == WindowOf(alg, rs)
  }

  /** Counting one more round and extending the window, emptied when the
      round closes an episode, keeps a counter and a window in agreement. */
  lemma AgreesStep(alg: Algorithm, rs: seq<nat>, count: nat, window: seq<nat>, r: nat)
    requires Agrees(alg, rs, count, window)
    ensures Agrees(alg, rs + [r], count + 1,
                   if Adaptive(alg) && EndsEpisode(count + 1) then [] else window + [r])
  {
    WindowStep(alg, rs, r);
  }

  /** The counters and windows of every bucket agree with the rounds that
      fell into it. */
  ghost predicate Tracks(alg: Algorithm, buckets: seq<nat>, counts: map<nat, nat>, windows: map<nat, seq<nat>>)
  {
    forall d: nat :: TracksAt(alg, buckets, counts, windows, d)
  }

  /** The trajectory has one valid row per counted round, and every
      bucket's counter and window agree with its rounds. */
  ghost predicate BooksOf(alg: Algorithm, buckets: seq<nat>, data: seq<Row>, counts: map<nat, nat>,
                          windows: map<nat, seq<nat>>)
  {
    && |buckets| == |data|
    && (forall i :: 0 <= i < |data| ==> ValidRow(data[i]))
    && Tracks(alg, buckets, counts, windows)
  }

  /** Counting a round of bucket `b` and appending it to the bucket's window
      gives the window a refresh reads; emptying the window when the round
      closes an episode keeps the counters and windows in agreement with the
      rounds. */
  lemma {:induction false} BookkeepingStep(alg: Algorithm, buckets: seq<nat>, counts: map<nat, nat>,
                                           windows: map<nat, seq<nat>>, b: nat)
    requires Tracks(alg, buckets, counts, windows)
    ensures |RoundsOf(buckets + [b], b)| == CountIn(counts, b) + 1
    ensures var n := CountIn(counts, b) + 1;
      var w := WindowIn(windows, b) + [|buckets| + 1];
      Tracks(alg, buckets + [b], counts[b := n],
             windows[b := if Adaptive(alg) && EndsEpisode(n) then [] else w])
  {
    var n := CountIn(counts, b) + 1;
    var w := WindowIn(windows, b) + [|buckets| + 1];
    var windows' := windows[b := if Adaptive(alg) && EndsEpisode(n) then [] else w];
    var buckets', counts' := buckets + [b], counts[b := n];
    assert TracksAt(alg, buckets, counts, windows, b);
    RoundsOfSnoc(buckets, b, b);
    forall d: nat
      ensures TracksAt(alg, buckets', counts', windows', d)
    {
      BookkeepingAt(alg, buckets, counts, windows, b, d);
    }
  }

  /** The step of `BookkeepingStep` for one bucket `d`. */
  lemma {:induction false} BookkeepingAt(alg: Algorithm, buckets: seq<nat>, counts: map<nat, nat>,
                                         windows: map<nat, seq<nat>>, b: nat, d: nat)
    requires TracksAt(alg, buckets, counts, windows, b) && TracksAt(alg, buckets, counts, windows, d)
    ensures var n := CountIn(counts, b) + 1;
      var w := WindowIn(windows, b) + [|buckets| + 1];
      TracksAt(alg, buckets + [b], counts[b := n],
               windows[b := if Adaptive(alg) && EndsEpisode(n) then [] else w], d)
  {
    if d == b {
      BookkeepingSame(alg, buckets, counts, windows, b);
    } else {
      BookkeepingOther(alg, buckets, counts, windows, b, d);
    }
  }

  /** The bucket that gets the round counts it and extends its window. */
  lemma {:induction false} BookkeepingSame(alg: Algorithm, buckets: seq<nat>, counts: map<nat, nat>,
                                           windows: map<nat, seq<nat>>, b: nat)
    requires TracksAt(alg, buckets, counts, windows, b)
    ensures var n := CountIn(counts, b) + 1;
      var w := WindowIn(windows, b) + [|buckets| + 1];
      TracksAt(alg, buckets + [b], counts[b := n],
               windows[b := if Adaptive(alg) && EndsEpisode(n) then [] else w], b)
  {
    var n := CountIn(counts, b) + 1;
    var w := WindowIn(windows, b) + [|buckets| + 1];
    var w' := if Adaptive(alg) && EndsEpisode(n) then [] else w;
    AgreesStep(alg, RoundsOf(buckets, b), CountIn(counts, b), WindowIn(windows, b), |buckets| + 1);
    RoundsOfSnoc(buckets, b, b);
    assert CountIn(counts[b := n], b) == n;
    assert WindowIn(windows[b := w'], b) == w';
  }

  /** Every other bucket keeps its rounds, counter and window. */
  lemma {:induction false} BookkeepingOther(alg: Algorithm, buckets: seq<nat>, counts: map<nat, nat>,
                                            windows: map<nat, seq<nat>>, b: nat, d: nat)
    requires d != b && TracksAt(alg, buckets, counts, windows, d)
    ensures var n := CountIn(counts, b) + 1;
      var w := WindowIn(windows, b) + [|buckets| + 1];
      TracksAt(alg, buckets + [b], counts[b := n],
               windows[b := if Adaptive(alg) && EndsEpisode(n) then [] else w], d)
  {
    var n := CountIn(counts, b) + 1;
    var w := WindowIn(windows, b) + [|buckets| + 1];
    var windows' := windows[b := if Adaptive(alg) && EndsEpisode(n) then [] else w];
    RoundsOfSnoc(buckets, b, d);
    assert CountIn(counts[b := n], d) == CountIn(counts, d);
    assert WindowIn(windows', d) == WindowIn(windows, d);
  }

  /** A bucket's window followed by the newest round names rows of the
      trajectory, each followed by another row except the last. */
  lemma {:induction false} WindowRoundsValid(alg: Algorithm, data: seq<Row>, buckets: seq<nat>, b: nat)
    requires |buckets| + 1 == |data| && forall i :: 0 <= i < |data| ==> ValidRow(data[i])
    ensures ValidPairs(data, WindowOf(alg, RoundsOf(buckets, b)) + [|data|])
  {
    var rs := RoundsOf(buckets, b);
    var k := Since(alg, |rs|);
    RoundsOfSound(buckets, b);
    WindowIsLatest(alg, rs);
    LatestIsSuffix(rs, k);
    var w := WindowOf(alg, rs) + [|data|];
    forall i | 0 <= i < |w| - 1
      ensures 1 <= w[i] < |data|
    {
      assert w[i] == rs[|rs| - k + i];
    }
  }

  /** Counting a round of bucket `b` and writing its row: the bucket's
      window, extended by the new row, holds the bucket's latest rounds of
      the current episode, names valid rows, and the books stay in agreement
      with the rounds once the window is emptied at the end of an episode. */
  lemma RecordStep(alg: Algorithm, buckets: seq<nat>, data: seq<Row>, counts: map<nat, nat>,
                   windows: map<nat, seq<nat>>, b: nat, row: Row)
    requires BooksOf(alg, buckets, data, counts, windows) && ValidRow(row)
    ensures var n := CountIn(counts, b) + 1;
      var w := WindowIn(windows, b) + [|data| + 1];
      && w == WindowOf(alg, RoundsOf(buckets, b)) + [|data| + 1]
      && |w| == Since(alg, n - 1) + 1
      && ValidPairs(data + [row], w)
      && BooksOf(alg, buckets + [b], data + [row], counts[b := n],
                 if Adaptive(alg) && EndsEpisode(n) then windows[b := w][b := []] else windows[b := w])
  {
    var n := CountIn(counts, b) + 1;
    var w := WindowIn(windows, b) + [|data| + 1];
    assert TracksAt(alg, buckets, counts, windows, b);
    BookkeepingStep(alg, buckets, counts, windows, b);
    WindowRoundsValid(alg, data + [row], buckets, b);
    WindowIsLatest(alg, RoundsOf(buckets, b));
    assert windows[b := w][b := []] == windows[b := []];
    assert forall i :: 0 <= i < |data + [row]| ==> ValidRow((data + [row])[i]);
  }

  /** The arm value iteration recommends for a context, 0 when the bucket has
      no map yet (a default dictionary of integers). */
  function BestActionIn(bestActionMap: map<nat, map<St, Arm>>, c: Ctx): Arm
  {
    if c.users in bestActionMap && St(c.mcs, c.bsr) in bestActionMap[c.users]
    then bestActionMap[c.users][St(c.mcs, c.bsr)] else 0
  }

  /** The arm the first epsilon-soft policy recommends for a context. */
  function MostUsedIn(mostUsed: map<Ctx, Arm>, c: Ctx): Arm
  {
    if c in mostUsed then mostUsed[c] else 0
  }

  /** `m` is what `find_most_used_arm` computes from the window's rows. */
  ghost predicate MostUsedFrom(data: seq<Row>, window: seq<nat>, m: map<Ctx, Arm>)
  {
    && ValidWindow(data, window)
    && (forall c :: c in m <==> exists i :: 0 <= i < |window| && CtxOf(data[window[i] - 1]) == c)
    && (forall c :: c in m ==>
          ArmsOf(Visits(data, window), c) != [] && m[c] == Mode(ArmsOf(Visits(data, window), c)))
  }

  /** `q'` and `returnLists'` are what `policy_iteration` makes of `q` and
      `returnLists` with the window's rows. */
  ghost predicate PolicyIterated(data: seq<Row>, window: seq<nat>, q: map<SaKey, real>,
                                 returnLists: map<SaKey, seq<real>>, q': map<SaKey, real>,
                                 returnLists': map<SaKey, seq<real>>)
  {
    && ValidWindow(data, window)
    && (forall k :: k in FirstTimes(Visits(data, window)) ==>
          Evaluated(Visits(data, window), returnLists, q', returnLists', k))
    && (forall k :: k !in FirstTimes(Visits(data, window)) ==> Kept(q, returnLists, q', returnLists', k))
  }

  /** The (MCS, buffer) states value iteration decides on. */
  function GridStateSet(): set<St>
  {
    set i | 0 <= i < 16 :: GridStates()[i]
  }

  /** `state_transition_count[b]`, a default dictionary. */
  function CountsIn(counts: map<nat, map<TKey, nat>>, b: nat): map<TKey, nat>
  {
    if b in counts then counts[b] else map[]
  }

  /** The estimators' tables of the loop (main.py:30-37): the most used arms,
      Q and the returns, and per bucket the transition counts and the
      best-action map. */
  datatype Tables = Tables(mostUsed: map<Ctx, Arm>, q: map<SaKey, real>, returnLists: map<SaKey, seq<real>>,
                           counts: map<nat, map<TKey, nat>>, bestActions: map<nat, map<St, Arm>>)

  /** The arm an epsilon-soft selector builds its distribution around
      (main.py:98-130): the context's most used arm, the first arm of largest
      Q, or the best action of the bucket's value-iteration map. */
  predicate Recommends(via: Selector, c: Ctx, recommended: Arm, tables: Tables)
  {
    match via
    case ByUcb => true
    case BySecondPolicy => recommended == MostUsedIn(tables.mostUsed, c)
    case ByQ => Greedy(c, tables.q, recommended)
    case ByBestAction => recommended == BestActionIn(tables.bestActions, c)
  }

  /** `counts'` and `best` are what a value-iteration refresh (main.py:219-229)
      makes of a bucket's counts `counts`: the counts take in the window's
      transitions, and `best` is `value_iteration` on the matrix
      `update_transition_matrix` builds from them, for some order of the
      dictionary's keys. */
  ghost predicate ValuesRefreshed(data: seq<Row>, window: seq<nat>, counts: map<TKey, nat>, fuel: nat,
                                  counts': map<TKey, nat>, best: map<St, Arm>)
  {
    && ValidPairs(data, window)
    && counts' == Counted(counts, Transitions.Transitions(data, window))
    && exists order: seq<TKey>, sweeps: nat ::
         && Enumerates(order, counts'.Keys)
         && RowsNonEmpty(FillRows(ExtendAll(counts', counts', order), GridSAs()))
         && ValueIterated(Normalise(FillRows(ExtendAll(counts', counts', order), GridSAs())), fuel, best, sweeps)
  }

  /** The tables after a refresh of bucket `b` from the window's rows
      (main.py:201-232): each kind of refresh replaces its own tables, the
      value-iteration refresh only bucket `b`'s entries, and every other
      table stays as it was. */
  ghost predicate Refreshed(refresh: Refresh, b: nat, data: seq<Row>, window: seq<nat>, fuel: nat,
                            before: Tables, after: Tables)
  {
    match refresh
    case NoRefresh => after == before
    case MostUsedRefresh =>
      && MostUsedFrom(data, window, after.mostUsed)
      && after == before.(mostUsed := after.mostUsed)
    case PolicyRefresh =>
      && PolicyIterated(data, window, before.q, before.returnLists, after.q, after.returnLists)
      && after == before.(q := after.q, returnLists := after.returnLists)
    case ValueRefresh =>
      && b in after.counts && b in after.bestActions
      && ValuesRefreshed(data, window, CountsIn(before.counts, b), fuel, after.counts[b], after.bestActions[b])
      && after == before.(counts := before.counts[b := after.counts[b]],
                          bestActions := before.bestActions[b := after.bestActions[b]])
  }

  /** A most-used refresh, as `RefreshMostUsed` states it, is a `Refreshed` one. */
  lemma RefreshedByMostUsed(b: nat, data: seq<Row>, window: seq<nat>, fuel: nat, before: Tables, after: Tables)
    requires MostUsedFrom(data, window, after.mostUsed)
    requires after == before.(mostUsed := after.mostUsed)
    ensures Refreshed(MostUsedRefresh, b, data, window, fuel, before, after)
  {
  }

  /** A policy-iteration refresh, as `RefreshPolicy` states it, is a `Refreshed` one. */
  lemma RefreshedByPolicy(b: nat, data: seq<Row>, window: seq<nat>, fuel: nat, before: Tables, after: Tables)
    requires PolicyIterated(data, window, before.q, before.returnLists, after.q, after.returnLists)
    requires after == before.(q := after.q, returnLists := after.returnLists)
    ensures Refreshed(PolicyRefresh, b, data, window, fuel, before, after)
  {
  }

  /** A value-iteration refresh, as `RefreshValues` states it for some key
      order and sweep count, is a `Refreshed` one. */
  lemma RefreshedByValues(b: nat, data: seq<Row>, window: seq<nat>, fuel: nat, order: seq<TKey>, sweeps: nat,
                          before: Tables, after: Tables)
    requires ValidPairs(data, window)
    requires b in after.bestActions
    requires after.mostUsed == before.mostUsed && after.q == before.q && after.returnLists == before.returnLists
    requires after.bestActions == before.bestActions[b := after.bestActions[b]]
    requires var counts' := Counted(CountsIn(before.counts, b), Transitions.Transitions(data, window));
      && after.counts == before.counts[b := counts']
      && Enumerates(order, counts'.Keys)
      && RowsNonEmpty(FillRows(ExtendAll(counts', counts', order), GridSAs()))
      && ValueIterated(Normalise(FillRows(ExtendAll(counts', counts', order), GridSAs())), fuel, after.bestActions[b], sweeps)
    ensures Refreshed(ValueRefresh, b, data, window, fuel, before, after)
  {
  }

  /** The state of the main loop (main.py:22-42): the round counter, the
      trajectory written so far, the per-bucket counters and windows, the
      UCB1 objects and the estimators' tables. */
  class ControlLoop {
    const algorithm: Algorithm
    /** The exploration bonus of UCB1. */
    const bonus: (nat, nat) -> real
    /** The percentile the tail-delay metric takes. */
    const tail: seq<real> -> real
    /** The most sweeps value iteration runs. */
    const fuel: nat
    const ucbs: UcbObjects
    var t: nat
    var running: bool
    var trajectory: seq<Row>
    var usersVsCounts: map<nat, nat>
    var usersVsLastRounds: map<nat, seq<nat>>
    var mostUsed: map<Ctx, Arm>
    var q: map<SaKey, real>
    var returnLists: map<SaKey, seq<real>>
    var stateTransitionCount: map<nat, map<TKey, nat>>
    var bestActionMap: map<nat, map<St, Arm>>
    /** The user bucket of every round written to the trajectory. */
    ghost var buckets: seq<nat>

    /** The trajectory has one valid row per counted round, and every
        bucket's counter and window agree with its rounds. */
    ghost predicate Books()
      reads this
    {
      && t == |trajectory| + (if running then 0 else 1)
      && BooksOf(algorithm, buckets, trajectory, usersVsCounts, usersVsLastRounds)
    }

    /** The books of a running loop just after round `n` of bucket `b` was
        recorded: they agree with the rounds once the bucket's window is
        emptied, if the round closes an episode. */
    ghost predicate Pending(b: nat, n: nat)
      reads this
    {
      && running && t == |trajectory|
      && BooksOf(algorithm, buckets, trajectory, usersVsCounts,
                 if Adaptive(algorithm) && EndsEpisode(n) then usersVsLastRounds[b := []] else usersVsLastRounds)
    }

    /** The UCB1 objects are consistent, and `no_adaptation` only ever uses
        the single state [0, 0, 0]. */
    ghost predicate UcbsValid()
      reads ucbs, ucbs.objects.Values
    {
      ucbs.Valid() && (algorithm == NoAdaptation ==> forall c :: c in ucbs.objects ==> c == Ctx(0, 0, 0))
    }

    /** Every transition-count table is about grid states. */
    ghost predicate CountsOnGrid()
      reads this`stateTransitionCount
    {
      forall b :: b in stateTransitionCount ==> SaOnGrid(stateTransitionCount[b])
    }

    ghost predicate Valid()
      reads this, ucbs, ucbs.objects.Values
    {
      fuel >= 1 && UcbsValid() && Books() && CountsOnGrid()
    }

    constructor (algorithm: Algorithm, bonus: (nat, nat) -> real, tail: seq<real> -> real, fuel: nat)
      requires fuel >= 1
      ensures Valid() && running && t == 0
      ensures this.algorithm == algorithm && this.bonus == bonus && this.tail == tail && this.fuel == fuel
      ensures trajectory == [] && usersVsCounts == map[] && usersVsLastRounds == map[]
      ensures fresh(ucbs) && ucbs.objects == map[]
      ensures mostUsed == map[] && q == map[] && returnLists == map[]
      ensures stateTransitionCount == map[] && bestActionMap == map[]
    {
      this.algorithm := algorithm;
      this.bonus := bonus;
      this.tail := tail;
      this.fuel := fuel;
      ucbs := new UcbObjects();
      t := 0;
      running := true;
      trajectory := [];
      usersVsCounts := map[];
      usersVsLastRounds := map[];
      mostUsed := map[];
      q := map[];
      returnLists := map[];
      stateTransitionCount := map[];
      bestActionMap := map[];
      buckets := [];
    }

    /** The estimators' tables. */
    ghost function Snapshot(): Tables
      reads this`mostUsed, this`q, this`returnLists, this`stateTransitionCount, this`bestActionMap
    {
      Tables(mostUsed, q, returnLists, stateTransitionCount, bestActionMap)
    }

    /** One pass of the main loop (main.py:39-232). The round is numbered;
        with no live user the loop ends and the bandwidth is reset. Otherwise
        the round is counted in its user bucket, the arm comes from the
        estimator `SelectorFor` names for the bucket's episode, the round's
        row is appended to the trajectory, UCB1 learns the QoS verdict while
        it is in charge, and a round closing an episode refreshes the
        estimator from the bucket's window (see `SelectAction`, `Record` and
        `RefreshEstimators` for each step's effects). */
    method Round(users: real, mcs: real, bsr: real, alive: nat,
                 delays: Option<seq<seq<real>>>, choose: seq<real> -> Arm)
      returns (stop: bool, selected: Arm, via: Selector, recommended: Arm, refresh: Refresh,
               window: seq<nat>, metric: real, qos: nat, bandwidth: int)
      requires Valid() && running
      modifies this, ucbs, ucbs.objects.Values
      ensures Valid()
      ensures t == old(t) + 1
      ensures stop <==> alive == 0
      ensures stop ==>
        && !running && bandwidth == ResetBandwidth && trajectory == old(trajectory)
        && usersVsCounts == old(usersVsCounts) && usersVsLastRounds == old(usersVsLastRounds)
        && buckets == old(buckets) && Snapshot() == old(Snapshot())
        && ucbs.objects == old(ucbs.objects)
      ensures !stop ==>
        var c := RoundContext(algorithm, users, mcs, bsr);
        var n := old(CountIn(usersVsCounts, c.users)) + 1;
        && running
        && CountIn(usersVsCounts, c.users) == n
        && via == SelectorFor(algorithm, EpisodeOf(n))
        && bandwidth == PRBs[selected]
        && Qos.SliceMetric(delays, DesiredQoS, tail, metric)
        && qos == Qos.Verdict(metric)
        && trajectory == old(trajectory) + [Row(bandwidth as real, users, mcs, bsr, metric, qos as real)]
        && (via != ByUcb ==> selected == choose(EpsilonSoftPolicySelect(recommended)))
        && (via == ByUcb ==> selected == recommended)
        && window == WindowOf(algorithm, RoundsOf(old(buckets), c.users)) + [t]
        && refresh == RefreshAt(algorithm, n)
        && (refresh != NoRefresh ==> |window| == if n == InitialRounds then InitialRounds else RoundsPerEpisode)
        && buckets == old(buckets) + [c.users]
        && usersVsCounts == old(usersVsCounts)[c.users := n]
        && usersVsLastRounds == old(usersVsLastRounds)[c.users := if refresh == NoRefresh then window else []]
        && Recommends(via, c, recommended, old(Snapshot()))
        && Refreshed(refresh, c.users, trajectory, window, fuel, old(Snapshot()), Snapshot())
        && (via == ByUcb ==>
              selected == (if c in old(ucbs.objects)
                           then ArmToSelect(old(ucbs.objects[c].counts), old(ucbs.objects[c].avgRewards),
                                            old(ucbs.objects[c].iterations), bonus)
                           else 0))
    {
      var c := RoundContext(algorithm, users, mcs, bsr);
      if alive == 0 {
        t := t + 1;
        running := false;
        stop, selected, via, recommended, refresh, window := true, 0, ByUcb, 0, NoRefresh, [];
        metric, qos, bandwidth := 0.0, 0, ResetBandwidth;
        return;
      }
      stop := false;
      selected, via, recommended, refresh, window, metric, qos, bandwidth := Advance(c, users, mcs, bsr, delays, choose);
    }

    /** A round with live users (main.py:65-232), in context `c`. */
    method Advance(c: Ctx, users: real, mcs: real, bsr: real,
                   delays: Option<seq<seq<real>>>, choose: seq<real> -> Arm)
      returns (selected: Arm, via: Selector, recommended: Arm, refresh: Refresh,
               window: seq<nat>, metric: real, qos: nat, bandwidth: int)
      requires Valid() && running && c == RoundContext(algorithm, users, mcs, bsr)
      modifies this, ucbs, ucbs.objects.Values
      ensures Valid() && running
      ensures t == old(t) + 1
      ensures var n := old(CountIn(usersVsCounts, c.users)) + 1;
        && CountIn(usersVsCounts, c.users) == n
        && via == SelectorFor(algorithm, EpisodeOf(n))
        && bandwidth == PRBs[selected]
        && Qos.SliceMetric(delays, DesiredQoS, tail, metric)
        && qos == Qos.Verdict(metric)
        && trajectory == old(trajectory) + [Row(bandwidth as real, users, mcs, bsr, metric, qos as real)]
        && (via != ByUcb ==> selected == choose(EpsilonSoftPolicySelect(recommended)))
        && (via == ByUcb ==> selected == recommended)
        && window == WindowOf(algorithm, RoundsOf(old(buckets), c.users)) + [t]
        && refresh == RefreshAt(algorithm, n)
        && (refresh != NoRefresh ==> |window| == if n == InitialRounds then InitialRounds else RoundsPerEpisode)
        && buckets == old(buckets) + [c.users]
        && usersVsCounts == old(usersVsCounts)[c.users := n]
        && usersVsLastRounds == old(usersVsLastRounds)[c.users := if refresh == NoRefresh then window else []]
      ensures Recommends(via, c, recommended, old(Snapshot()))
      ensures Refreshed(refresh, c.users, trajectory, window, fuel, old(Snapshot()), Snapshot())
      ensures via == ByUcb ==>
        selected == (if c in old(ucbs.objects)
                     then ArmToSelect(old(ucbs.objects[c].counts), old(ucbs.objects[c].avgRewards),
                                      old(ucbs.objects[c].iterations), bonus)
                     else 0)
    {
      var n := CountIn(usersVsCounts, c.users) + 1;
      selected, via, recommended, metric, qos := Act(c, EpisodeOf(n), delays, choose);
      bandwidth := PRBs[selected];
      var row := Row(bandwidth as real, users, mcs, bsr, metric, qos as real);
      assert ValidRow(row) by {
        assert selected == 0 || selected == 1 || selected == 2 || selected == 3;
      }
      window, refresh := Book(c.users, n, row);
    }

    /** The part of a round that involves the UCB1 objects (main.py:80-130,
        163-169, 187-189): the arm is selected, the QoS verdict of the
        round's delays is taken, and UCB1 learns the verdict while it is in
        charge of the episode. */
    method Act(c: Ctx, episode: int, delays: Option<seq<seq<real>>>, choose: seq<real> -> Arm)
      returns (selected: Arm, via: Selector, recommended: Arm, metric: real, qos: nat)
      requires UcbsValid() && (algorithm == NoAdaptation ==> c == Ctx(0, 0, 0))
      modifies ucbs, ucbs.objects.Values
      ensures UcbsValid()
      ensures via == SelectorFor(algorithm, episode)
      ensures via != ByUcb ==> selected == choose(EpsilonSoftPolicySelect(recommended))
      ensures ucbs.objects.Keys == old(ucbs.objects.Keys) + (if via == ByUcb then {c} else {})
      ensures forall d :: d in old(ucbs.objects) ==> ucbs.objects[d] == old(ucbs.objects[d])
      ensures forall d :: d in old(ucbs.objects) && (via != ByUcb || d != c) ==> unchanged(ucbs.objects[d])
      ensures Recommends(via, c, recommended, Snapshot())
      ensures Qos.SliceMetric(delays, DesiredQoS, tail, metric)
      ensures qos == Qos.Verdict(metric)
      ensures via == ByUcb ==>
        && selected == recommended
        && selected == (if c in old(ucbs.objects)
                        then ArmToSelect(old(ucbs.objects[c].counts), old(ucbs.objects[c].avgRewards),
                                         old(ucbs.objects[c].iterations), bonus)
                        else 0)
        && ucbs.objects[c].iterations == (if c in old(ucbs.objects) then old(ucbs.objects[c].iterations) else 0) + 1
        && forall i :: 0 <= i < NumArms ==>
             ucbs.objects[c].fed[i] == (if c in old(ucbs.objects) then old(ucbs.objects[c].fed[i]) else []) +
               (if UpdatedBy(ArmCorrelations, selected, qos as real, i) then [RlReward(PRBs[i] as real, qos as real)] else [])
    {
      selected, via, recommended := SelectAction(c, episode, choose);
      metric, qos := EvaluateQos(delays, DesiredQoS, tail);
      UpdateFollowsSelection(algorithm, episode);
      if UpdatesUcb(algorithm, episode) {
        ucbs.Update(c, selected, qos as real);
      }
    }

    /** The bookkeeping of a round of bucket `b` (main.py:65-67, 176-181,
        202-232): the round is counted and recorded, and a round closing an
        episode refreshes the estimator from the bucket's window, which then
        starts afresh. */
    method Book(b: nat, n: nat, row: Row) returns (window: seq<nat>, refresh: Refresh)
      requires fuel >= 1 && Books() && CountsOnGrid() && running && ValidRow(row)
      requires n == CountIn(usersVsCounts, b) + 1
      modifies this`t, this`buckets, this`trajectory, this`usersVsCounts, this`usersVsLastRounds,
               this`mostUsed, this`q, this`returnLists, this`stateTransitionCount, this`bestActionMap
      ensures Books() && CountsOnGrid() && running
      ensures t == old(t) + 1 && trajectory == old(trajectory) + [row]
      ensures buckets == old(buckets) + [b] && usersVsCounts == old(usersVsCounts)[b := n]
      ensures window == WindowOf(algorithm, RoundsOf(old(buckets), b)) + [t]
      ensures refresh == RefreshAt(algorithm, n)
      ensures refresh != NoRefresh ==> |window| == if n == InitialRounds then InitialRounds else RoundsPerEpisode
      ensures usersVsLastRounds == old(usersVsLastRounds)[b := if refresh == NoRefresh then window else []]
      ensures Refreshed(refresh, b, trajectory, window, fuel, old(Snapshot()), Snapshot())
    {
      window := Record(b, n, row);
      refresh := RefreshEstimators(b, n, window);
      if refresh != NoRefresh {
        RefreshSeesOneEpisode(algorithm, n);
      }
    }

    /** Picks the round's arm (main.py:80-130): from the context's UCB1
        object, or as a draw (`choose`) from the epsilon-soft distribution
        around the arm the algorithm's current policy recommends. Only the
        UCB1 object of context `c` can be created or changed. */
    method SelectAction(c: Ctx, episode: int, choose: seq<real> -> Arm)
      returns (selected: Arm, via: Selector, recommended: Arm)
      requires UcbsValid() && (algorithm == NoAdaptation ==> c == Ctx(0, 0, 0))
      modifies ucbs, ucbs.objects.Values
      ensures UcbsValid()
      ensures via == SelectorFor(algorithm, episode)
      ensures ucbs.objects.Keys == old(ucbs.objects.Keys) + (if via == ByUcb then {c} else {})
      ensures forall d :: d in old(ucbs.objects) ==> ucbs.objects[d] == old(ucbs.objects[d])
      ensures forall d :: d in old(ucbs.objects) && (via != ByUcb || d != c) ==> unchanged(ucbs.objects[d])
      ensures via != ByUcb ==> selected == choose(EpsilonSoftPolicySelect(recommended))
      ensures via == BySecondPolicy ==> recommended == MostUsedIn(mostUsed, c)
      ensures via == ByQ ==> Greedy(c, q, recommended)
      ensures via == ByBestAction ==> recommended == BestActionIn(bestActionMap, c)
      ensures via == ByUcb ==> selected == recommended
      ensures via == ByUcb && c in old(ucbs.objects) ==>
        && selected == ArmToSelect(old(ucbs.objects[c].counts), old(ucbs.objects[c].avgRewards),
                                   old(ucbs.objects[c].iterations), bonus)
        && ucbs.objects[c].iterations == old(ucbs.objects[c].iterations)
        && ucbs.objects[c].fed == old(ucbs.objects[c].fed)
      ensures via == ByUcb && c !in old(ucbs.objects) ==>
        fresh(ucbs.objects[c]) && selected == 0 && ucbs.objects[c].iterations == 0
        && ucbs.objects[c].fed == seq(NumArms, _ => [])
    {
      via := SelectorFor(algorithm, episode);
      match via {
        case ByUcb =>
          selected := ucbs.SelectArm(c, bonus);
          recommended := selected;
        case BySecondPolicy =>
          recommended := MostUsedIn(mostUsed, c);
          selected := choose(SecondPolicy(c, mostUsed));
        case ByQ =>
          var pmf;
          recommended, pmf := EpsilonSoftPolicy(c, q);
          selected := choose(pmf);
        case ByBestAction =>
          recommended := BestActionIn(bestActionMap, c);
          selected := choose(EpsilonSoftPolicySelect(recommended));
      }
    }

    /** Counts the round in its bucket, appends it to the bucket's window
        (main.py:65-67) and writes its row to the trajectory (main.py:176-181).
        The window then holds the bucket's rounds of the current episode,
        and the books are pending the window's reset. */
    method Record(b: nat, n: nat, row: Row) returns (window: seq<nat>)
      requires Books() && running && ValidRow(row)
      requires n == CountIn(usersVsCounts, b) + 1
      modifies this`t, this`buckets, this`trajectory, this`usersVsCounts, this`usersVsLastRounds
      ensures Pending(b, n)
      ensures t == old(t) + 1
      ensures buckets == old(buckets) + [b] && trajectory == old(trajectory) + [row]
      ensures usersVsCounts == old(usersVsCounts)[b := n]
      ensures window == WindowIn(old(usersVsLastRounds), b) + [t]
      ensures usersVsLastRounds == old(usersVsLastRounds)[b := window]
      ensures window == WindowOf(algorithm, RoundsOf(old(buckets), b)) + [t]
      ensures |window| == Since(algorithm, n - 1) + 1
      ensures ValidPairs(trajectory, window)
    {
      RecordStep(algorithm, buckets, trajectory, usersVsCounts, usersVsLastRounds, b, row);
      window := WindowIn(usersVsLastRounds, b) + [t + 1];
      assert window == WindowIn(usersVsLastRounds, b) + [|trajectory| + 1];
      var windows', counts', trajectory' := usersVsLastRounds[b := window], usersVsCounts[b := n], trajectory + [row];
      ghost var buckets' := buckets + [b];
      assert BooksOf(algorithm, buckets', trajectory', counts',
                     if Adaptive(algorithm) && EndsEpisode(n) then windows'[b := []] else windows');
      assert ValidPairs(trajectory', window);
      usersVsLastRounds := windows';
      usersVsCounts := counts';
      buckets := buckets';
      trajectory := trajectory';
      t := t + 1;
      assert Pending(b, n);
    }

    /** At the end of an episode of bucket `b` (main.py:202-232), refreshes
        the algorithm's estimator from the bucket's window and empties the
        window; the books then agree with the rounds again. Between
        refreshes nothing changes. */
    method RefreshEstimators(b: nat, n: nat, window: seq<nat>) returns (refresh: Refresh)
      requires fuel >= 1 && Pending(b, n) && ValidPairs(trajectory, window) && CountsOnGrid()
      modifies this`usersVsLastRounds, this`mostUsed, this`q, this`returnLists,
               this`stateTransitionCount, this`bestActionMap
      ensures Books() && CountsOnGrid()
      ensures refresh == RefreshAt(algorithm, n)
      ensures usersVsLastRounds == if refresh == NoRefresh then old(usersVsLastRounds) else old(usersVsLastRounds)[b := []]
      ensures Refreshed(refresh, b, trajectory, window, fuel, old(Snapshot()), Snapshot())
    {
      refresh := RefreshAt(algorithm, n);
      RefreshesCloseEpisodes(algorithm, n);
      RefreshTables(refresh, b, window);
      if refresh != NoRefresh {
        usersVsLastRounds := usersVsLastRounds[b := []];
      }
    }

    /** The estimator tables a refresh of kind `refresh` replaces
        (`RefreshMostUsed`, `RefreshPolicy` or `RefreshValues`, each of which
        states its effect); the others stay. */
    method RefreshTables(refresh: Refresh, b: nat, window: seq<nat>)
      requires fuel >= 1 && ValidPairs(trajectory, window) && CountsOnGrid()
      modifies this`mostUsed, this`q, this`returnLists, this`stateTransitionCount, this`bestActionMap
      ensures CountsOnGrid()
      ensures Refreshed(refresh, b, trajectory, window, fuel, old(Snapshot()), Snapshot())
    {
      match refresh {
        case NoRefresh =>
        case MostUsedRefresh =>
          RefreshMostUsed(b, window);
          RefreshedByMostUsed(b, trajectory, window, fuel, old(Snapshot()), Snapshot());
        case PolicyRefresh =>
          RefreshPolicy(b, window);
          RefreshedByPolicy(b, trajectory, window, fuel, old(Snapshot()), Snapshot());
        case ValueRefresh =>
          ghost var order, sweeps := RefreshValues(b, window);
          RefreshedByValues(b, trajectory, window, fuel, order, sweeps, old(Snapshot()), Snapshot());
      }
    }

    /** The first refresh of the policy-iteration algorithm (main.py:202-207):
        the most used arm of every context in the window. */
    method RefreshMostUsed(b: nat, window: seq<nat>)
      requires ValidPairs(trajectory, window)
      modifies this`mostUsed
      ensures MostUsedFrom(old(trajectory), window, mostUsed)
    {
      mostUsed := FindMostUsedArm(trajectory, window);
    }

    /** A later refresh of the policy-iteration algorithm (main.py:208-213):
        first-visit Monte Carlo evaluation of the window's episode. */
    method RefreshPolicy(b: nat, window: seq<nat>)
      requires ValidPairs(trajectory, window)
      modifies this`q, this`returnLists
      ensures PolicyIterated(old(trajectory), window, old(q), old(returnLists), q, returnLists)
    {
      q, returnLists := PolicyIteration(trajectory, window, q, returnLists);
    }

    /** A refresh of the value-iteration algorithm (main.py:214-232): the
        bucket's transition counts take in the window's transitions, and
        value iteration over the normalised counts gives the bucket's best
        arm for every grid state. */
    method RefreshValues(b: nat, window: seq<nat>) returns (ghost order: seq<TKey>, ghost sweeps: nat)
      requires fuel >= 1 && ValidPairs(trajectory, window) && CountsOnGrid()
      modifies this`stateTransitionCount, this`bestActionMap
      ensures CountsOnGrid()
      ensures var counts' := Counted(old(CountsIn(stateTransitionCount, b)), Transitions.Transitions(old(trajectory), window));
        && stateTransitionCount == old(stateTransitionCount)[b := counts']
        && b in bestActionMap && bestActionMap == old(bestActionMap)[b := bestActionMap[b]]
        && Enumerates(order, counts'.Keys)
        && RowsNonEmpty(FillRows(ExtendAll(counts', counts', order), GridSAs()))
        && ValueIterated(Normalise(FillRows(ExtendAll(counts', counts', order), GridSAs())), fuel, bestActionMap[b], sweeps)
      ensures bestActionMap[b].Keys == GridStateSet()
    {
      var prob, counts;
      prob, counts, order := UpdateTransitionMatrix(trajectory, window, CountsIn(stateTransitionCount, b));
      var best;
      ghost var values;
      best, values, sweeps := RunValueIteration(prob, fuel);
      stateTransitionCount := stateTransitionCount[b := counts];
      bestActionMap := bestActionMap[b := best];
    }
  }
}
