/**
 * The empirical model of the (MCS, buffer) dynamics used by value iteration.
 * Every window round but the last counts one transition from its
 * (MCS bucket, buffer bucket, arm) to the buckets of the next trajectory row
 * and its own reward. The counts are extended by arm monotonicity, every empty
 * row of the (MCS, buffer, arm) grid gets an optimistic transition, and the
 * counts are normalised into probabilities.
 */
module Transitions {
  import opened Stats
  import opened Parameters
  import opened Reward
  import opened Trajectory

  /** A state-action pair of the MDP: MCS bucket, buffer bucket and arm. */
  datatype SA = SA(mcs: nat, bsr: nat, arm: Arm)
  /** A next state with the reward earned on the way: MCS bucket, buffer bucket, reward. */
  datatype Outcome = Outcome(mcs: nat, bsr: nat, reward: real)
  /** A transition: a state-action pair and the outcome it led to. */
  datatype TKey = TKey(sa: SA, next: Outcome)

  /** The count of `k`, zero when absent (the table is a default dictionary). */
  function Get(m: map<TKey, nat>, k: TKey): nat
  {
    if k in m then m[k] else 0
  }

  /** Adds `c` to the count of `k`. */
  function Add(m: map<TKey, nat>, k: TKey, c: nat): (m': map<TKey, nat>)
    ensures m'.Keys == m.Keys + {k}
    ensures Get(m', k) == Get(m, k) + c
    ensures forall x :: x != k ==> Get(m', x) == Get(m, x)
  {
    m[k := Get(m, k) + c]
  }

  /** Every key's state-action pair lies on the (MCS, buffer) grid. */
  ghost predicate SaOnGrid(m: map<TKey, nat>)
  {
    forall k :: k in m ==> k.sa.mcs < |MCSs| && k.sa.bsr < |BSRs|
  }

  // ----- Empirical counts -----

  /** A round's row and the following row both exist, and the round's
      bandwidth is a PRB value. */
  predicate ValidPairs(data: seq<Row>, window: seq<nat>)
  {
    ValidWindow(data, window) && forall i :: 0 <= i < |window| - 1 ==> window[i] < |data|
  }

  /** The transition observed at row `t`: its MCS and buffer buckets and arm,
      the MCS and buffer buckets of row `t + 1`, and row `t`'s reward. */
  function Transition(data: seq<Row>, t: nat): (k: TKey)
    requires t + 1 < |data| && ValidRow(data[t])
    ensures k.sa.mcs < |MCSs| && k.sa.bsr < |BSRs|
  {
    var s, s' := CtxOf(data[t]), CtxOf(data[t + 1]);
    TKey(SA(s.mcs, s.bsr, ArmOf(data[t])), Outcome(s'.mcs, s'.bsr, RewardOf(data[t])))
  }

  /** The transitions of every window round but the last, in window order. */
  function Transitions(data: seq<Row>, window: seq<nat>): (ks: seq<TKey>)
    requires ValidPairs(data, window)
    ensures |ks| == if window == [] then 0 else |window| - 1
    ensures forall i :: 0 <= i < |ks| ==> ks[i] == Transition(data, window[i] - 1)
  {
    var n := if window == [] then 0 else |window| - 1;
    seq(n, i requires 0 <= i < n => Transition(data, window[i] - 1))
  }

  /** `counts` with one increment per transition of `ks`. */
  function Counted(counts: map<TKey, nat>, ks: seq<TKey>): map<TKey, nat>
  {
    if ks == [] then counts else Add(Counted(counts, ks[..|ks| - 1]), ks[|ks| - 1], 1)
  }

  /** The count of a transition grows by the number of times it was observed. */
  lemma {:induction false} CountedGet(counts: map<TKey, nat>, ks: seq<TKey>, k: TKey)
    ensures Get(Counted(counts, ks), k) == Get(counts, k) + Count(ks, k)
  {
    if ks != [] {
      CountedGet(counts, ks[..|ks| - 1], k);
    }
  }

  /** Counting keeps every state-action pair on the grid. */
  lemma {:induction false} CountedOnGrid(counts: map<TKey, nat>, ks: seq<TKey>)
    requires SaOnGrid(counts)
    requires forall i :: 0 <= i < |ks| ==> ks[i].sa.mcs < |MCSs| && ks[i].sa.bsr < |BSRs|
    ensures SaOnGrid(Counted(counts, ks))
  {
    if ks != [] {
      CountedOnGrid(counts, ks[..|ks| - 1]);
    }
  }

  /** Reads the transition of the `i`-th window round. */
  method ReadTransition(data: seq<Row>, window: seq<nat>, i: nat) returns (k: TKey)
    requires ValidPairs(data, window) && i < |window| - 1
    ensures k == Transitions(data, window)[i]
  {
    var t := window[i] - 1;
    var state, newState := CtxOf(data[t]), CtxOf(data[t + 1]);
    k := TKey(SA(state.mcs, state.bsr, ArmOf(data[t])), Outcome(newState.mcs, newState.bsr, RewardOf(data[t])));
  }

  /** Reads the transition of every window round but the last. */
  method ReadTransitions(data: seq<Row>, window: seq<nat>) returns (ks: seq<TKey>)
    requires ValidPairs(data, window)
    ensures ks == Transitions(data, window)
  {
    ghost var all := Transitions(data, window);
    ks := [];
    var i := 0;
    while i + 1 < |window|
      invariant 0 <= i <= |all|
      invariant ks == all[..i]
    {
      var k := ReadTransition(data, window, i);
      assert all[..i + 1] == all[..i] + [all[i]];
      ks := ks + [k];
      i := i + 1;
    }
    assert all[..i] == all;
  }

  /** Counts one transition per window round but the last. */
  method CountTransitions(data: seq<Row>, window: seq<nat>, counts: map<TKey, nat>)
    returns (counts': map<TKey, nat>)
    requires ValidPairs(data, window)
    ensures counts' == Counted(counts, Transitions(data, window))
  {
    var ks := ReadTransitions(data, window);
    counts' := CountAll(counts, ks);
  }

  /** Increments the count of every transition of `ks`, in order. */
  method CountAll(counts: map<TKey, nat>, ks: seq<TKey>) returns (counts': map<TKey, nat>)
    ensures counts' == Counted(counts, ks)
  {
    counts' := counts;
    var i := 0;
    while i < |ks|
      invariant 0 <= i <= |ks|
      invariant counts' == Counted(counts, ks[..i])
    {
      assert ks[..i + 1][..i] == ks[..i];
      counts' := Add(counts', ks[i], 1);
      i := i + 1;
    }
    assert ks[..i] == ks;
  }

  // ----- Extension by arm monotonicity -----

  /** The transition met the QoS: its reward, read back through the reward
      model at its arm's bandwidth, is a success. */
  predicate Success(k: TKey)
  {
    QosReward(PRBs[k.sa.arm] as real, k.next.reward) == 1.0
  }

  /** An observed transition is a success exactly when its round met the QoS. */
  lemma {:induction false} SuccessOfObserved(k: TKey, qos: real)
    requires k.next.reward == RlReward(PRBs[k.sa.arm] as real, qos)
    ensures Success(k) <==> qos == 1.0
  {
    QosRoundTrip(PRBs[k.sa.arm] as real, qos);
  }

  /** The synthetic transitions implied by `k`, one per arm of the loop over
      actions (see `TargetsShape`). */
  function Targets(k: TKey): (ts: seq<TKey>)
    ensures |ts| == if Success(k) then NumArms - 1 - k.sa.arm else k.sa.arm
    ensures Success(k) ==> forall j :: 0 <= j < |ts| ==> ts[j] == SuccessTarget(k, k.sa.arm + 1 + j)
    ensures !Success(k) ==> forall j :: 0 <= j < |ts| ==> ts[j] == FailureTarget(k, j)
  {
    var a := k.sa.arm;
    if Success(k) then
      seq(NumArms - 1 - a, j requires 0 <= j < NumArms - 1 - a => SuccessTarget(k, a + 1 + j))
    else
      seq(a, j requires 0 <= j < a => FailureTarget(k, j))
  }

  /** The synthetic success of the larger arm `action`. */
  function SuccessTarget(k: TKey, action: Arm): TKey
  {
    TKey(SA(k.sa.mcs, k.sa.bsr, action),
         Outcome(k.next.mcs, if k.next.bsr == 0 then 0 else k.next.bsr - 1,
                 RlReward(PRBs[action] as real, 1.0)))
  }

  /** The synthetic failure of the smaller arm `action`. */
  function FailureTarget(k: TKey, action: Arm): TKey
  {
    TKey(SA(k.sa.mcs, k.sa.bsr, action),
         Outcome(k.next.mcs, if k.next.bsr + 1 < |BSRs| then k.next.bsr + 1 else |BSRs| - 1,
                 RlReward(PRBs[action] as real, 0.0)))
  }

  /** After a success every larger arm also succeeds, with the same next MCS, a
      buffer bucket one lower (floored at 0) and its own success reward; after a
      failure every smaller arm also fails, with a buffer bucket one higher
      (capped at the last) and its own failure reward. The state stays the same. */
  lemma {:induction false} TargetsShape(k: TKey, j: nat)
    requires j < |Targets(k)|
    ensures Targets(k)[j].sa.mcs == k.sa.mcs && Targets(k)[j].sa.bsr == k.sa.bsr
    ensures Targets(k)[j].next.mcs == k.next.mcs
    ensures Success(k) ==> Targets(k)[j].sa.arm == k.sa.arm + 1 + j
    ensures Success(k) ==> Targets(k)[j].next.bsr == (if k.next.bsr == 0 then 0 else k.next.bsr - 1)
    ensures Success(k) ==> Targets(k)[j].next.reward == RlReward(PRBs[Targets(k)[j].sa.arm] as real, 1.0)
    ensures !Success(k) ==> Targets(k)[j].sa.arm == j
    ensures !Success(k) ==>
      Targets(k)[j].next.bsr == (if k.next.bsr + 1 < |BSRs| then k.next.bsr + 1 else |BSRs| - 1)
    ensures !Success(k) ==> Targets(k)[j].next.reward == RlReward(PRBs[Targets(k)[j].sa.arm] as real, 0.0)
  {
  }

  /** `m` with `c` added to every key of `ts`. */
  function AddAll(m: map<TKey, nat>, ts: seq<TKey>, c: nat): map<TKey, nat>
  {
    if ts == [] then m else Add(AddAll(m, ts[..|ts| - 1], c), ts[|ts| - 1], c)
  }

  lemma {:induction false} AddAllGet(m: map<TKey, nat>, ts: seq<TKey>, c: nat, x: TKey)
    ensures Get(AddAll(m, ts, c), x) == Get(m, x) + c * Count(ts, x)
  {
    if ts != [] {
      AddAllGet(m, ts[..|ts| - 1], c, x);
      var n := Count(ts[..|ts| - 1], x);
      if ts[|ts| - 1] == x {
        MulSucc(c, n);
      }
    }
  }

  lemma {:induction false} MulSucc(c: nat, n: nat)
    ensures c * (n + 1) == c * n + c
  {
  }

  /** `base` extended by the targets of every key of `order`, each weighted by its count. */
  function ExtendAll(base: map<TKey, nat>, counts: map<TKey, nat>, order: seq<TKey>): map<TKey, nat>
  {
    if order == [] then base
    else
      var k := order[|order| - 1];
      AddAll(ExtendAll(base, counts, order[..|order| - 1]), Targets(k), Get(counts, k))
  }

  lemma {:induction false} ExtendAllSnoc(base: map<TKey, nat>, counts: map<TKey, nat>, order: seq<TKey>, k: TKey)
    ensures ExtendAll(base, counts, order + [k]) == AddAll(ExtendAll(base, counts, order), Targets(k), Get(counts, k))
  {
    assert (order + [k])[..|order|] == order;
  }

  /** The synthetic count `x` receives from the keys of `order`: each key's count
      times the number of times `x` is one of its targets. */
  function ExtraFor(counts: map<TKey, nat>, order: seq<TKey>, x: TKey): nat
  {
    if order == [] then 0
    else
      var k := order[|order| - 1];
      ExtraFor(counts, order[..|order| - 1], x) + Get(counts, k) * Count(Targets(k), x)
  }

  /** The extended count of a key is its own count plus what the keys implying it contribute. */
  lemma {:induction false} ExtendAllGet(base: map<TKey, nat>, counts: map<TKey, nat>, order: seq<TKey>, x: TKey)
    ensures Get(ExtendAll(base, counts, order), x) == Get(base, x) + ExtraFor(counts, order, x)
  {
    if order != [] {
      var k := order[|order| - 1];
      ExtendAllGet(base, counts, order[..|order| - 1], x);
      AddAllGet(ExtendAll(base, counts, order[..|order| - 1]), Targets(k), Get(counts, k), x);
    }
  }

  /** Extension never lowers a count. */
  lemma {:induction false} ExtendAllGrows(base: map<TKey, nat>, counts: map<TKey, nat>, order: seq<TKey>, x: TKey)
    ensures Get(base, x) <= Get(ExtendAll(base, counts, order), x)
  {
    ExtendAllGet(base, counts, order, x);
  }

  /** Extension keeps every state-action pair on the grid. */
  lemma {:induction false} ExtendAllOnGrid(base: map<TKey, nat>, counts: map<TKey, nat>, order: seq<TKey>)
    requires SaOnGrid(base)
    requires forall i :: 0 <= i < |order| ==> order[i].sa.mcs < |MCSs| && order[i].sa.bsr < |BSRs|
    ensures SaOnGrid(ExtendAll(base, counts, order))
  {
    if order != [] {
      var k := order[|order| - 1];
      ExtendAllOnGrid(base, counts, order[..|order| - 1]);
      forall j | 0 <= j < |Targets(k)|
        ensures Targets(k)[j].sa.mcs < |MCSs| && Targets(k)[j].sa.bsr < |BSRs|
      {
        TargetsShape(k, j);
      }
      AddAllOnGrid(ExtendAll(base, counts, order[..|order| - 1]), Targets(k), Get(counts, k));
    }
  }

  lemma {:induction false} AddAllOnGrid(m: map<TKey, nat>, ts: seq<TKey>, c: nat)
    requires SaOnGrid(m)
    requires forall i :: 0 <= i < |ts| ==> ts[i].sa.mcs < |MCSs| && ts[i].sa.bsr < |BSRs|
    ensures SaOnGrid(AddAll(m, ts, c))
  {
    if ts != [] {
      AddAllOnGrid(m, ts[..|ts| - 1], c);
    }
  }

  /** `order` lists every key of `keys` exactly once. */
  ghost predicate Enumerates(order: seq<TKey>, keys: set<TKey>)
  {
    (forall i :: 0 <= i < |order| ==> order[i] in keys)
    && (forall k :: k in keys ==> k in order)
    && (forall i, j :: 0 <= i < j < |order| ==> order[i] != order[j])
  }

  lemma {:induction false} AddAllSnoc(m: map<TKey, nat>, ts: seq<TKey>, c: nat, n: nat)
    requires n < |ts|
    ensures AddAll(m, ts[..n + 1], c) == Add(AddAll(m, ts[..n], c), ts[n], c)
  {
    assert ts[..n + 1][..n] == ts[..n];
  }

  /** Adds the count of `key` to each of its synthetic transitions, one arm at a time. */
  method AddTargets(fake: map<TKey, nat>, key: TKey, currentCount: nat) returns (fake': map<TKey, nat>)
    ensures fake' == AddAll(fake, Targets(key), currentCount)
  {
    if Success(key) {
      fake' := AddLargerArms(fake, key, currentCount);
    } else {
      fake' := AddSmallerArms(fake, key, currentCount);
    }
  }

  /** After a success: one synthetic success per larger arm. */
  method AddLargerArms(fake: map<TKey, nat>, key: TKey, currentCount: nat) returns (fake': map<TKey, nat>)
    requires Success(key)
    ensures fake' == AddAll(fake, Targets(key), currentCount)
  {
    ghost var ts := Targets(key);
    var a := key.sa.arm;
    fake' := fake;
    var action := a + 1;
    while action < NumArms
      invariant a + 1 <= action <= NumArms
      invariant fake' == AddAll(fake, ts[..action - (a + 1)], currentCount)
    {
      AddAllSnoc(fake, ts, currentCount, action - (a + 1));
      var newBsr := if key.next.bsr == 0 then 0 else key.next.bsr - 1;
      var newKey := TKey(SA(key.sa.mcs, key.sa.bsr, action),
                         Outcome(key.next.mcs, newBsr, RlReward(PRBs[action] as real, 1.0)));
      assert newKey == ts[action - (a + 1)];
      fake' := Add(fake', newKey, currentCount);
      action := action + 1;
    }
    assert ts[..action - (a + 1)] == ts;
  }

  /** After a failure: one synthetic failure per smaller arm. */
  method AddSmallerArms(fake: map<TKey, nat>, key: TKey, currentCount: nat) returns (fake': map<TKey, nat>)
    requires !Success(key)
    ensures fake' == AddAll(fake, Targets(key), currentCount)
  {
    ghost var ts := Targets(key);
    fake' := fake;
    var action := 0;
    while action < key.sa.arm
      invariant 0 <= action <= key.sa.arm
      invariant fake' == AddAll(fake, ts[..action], currentCount)
    {
      AddAllSnoc(fake, ts, currentCount, action);
      var newBsr := if key.next.bsr + 1 < |BSRs| then key.next.bsr + 1 else |BSRs| - 1;
      var newKey := TKey(SA(key.sa.mcs, key.sa.bsr, action),
                         Outcome(key.next.mcs, newBsr, RlReward(PRBs[action] as real, 0.0)));
      assert newKey == ts[action];
      fake' := Add(fake', newKey, currentCount);
      action := action + 1;
    }
    assert ts[..action] == ts;
  }

  /** Extends a copy of the counts by the synthetic transitions of every key, in
      some order of the keys; the counts themselves are left as they are. */
  method ExtendCounts(counts: map<TKey, nat>) returns (fake: map<TKey, nat>, order: seq<TKey>)
    ensures Enumerates(order, counts.Keys)
    ensures fake == ExtendAll(counts, counts, order)
  {
    fake := counts;
    order := [];
    var keys := counts.Keys;
    while keys != {}
      invariant keys <= counts.Keys
      invariant forall i :: 0 <= i < |order| ==> order[i] in counts && order[i] !in keys
      invariant forall k :: k in counts ==> k in keys || k in order
      invariant forall i, j :: 0 <= i < j < |order| ==> order[i] != order[j]
      invariant fake == ExtendAll(counts, counts, order)
      decreases keys
    {
      var key :| key in keys;
      fake := AddTargets(fake, key, counts[key]);
      ExtendAllSnoc(counts, counts, order, key);
      order := order + [key];
      keys := keys - {key};
    }
  }

  // ----- Optimistic filling of empty rows -----

  /** The 32 outcomes value iteration reads for arm `w`, in its loop order:
      next MCS bucket, then next buffer bucket, then failure before success. */
  function GridOutcomes(w: Arm): (os: seq<Outcome>)
    ensures |os| == |MCSs| * |BSRs| * 2
  {
    seq(32, i requires 0 <= i < 32 => Outcome(i / 8, (i / 2) % 4, RlReward(PRBs[w] as real, (i % 2) as real)))
  }

  /** The 64 state-action pairs of the grid, in loop order: MCS, buffer, arm. */
  function GridSAs(): (sas: seq<SA>)
    ensures |sas| == |MCSs| * |BSRs| * NumArms
    ensures forall j :: 0 <= j < |sas| ==> sas[j].mcs < |MCSs| && sas[j].bsr < |BSRs|
  {
    seq(64, i requires 0 <= i < 64 => SA(i / 16, (i / 4) % 4, i % 4))
  }

  /** Every state-action pair on the grid is listed, at its loop position. */
  lemma {:induction false} GridSAsComplete(sa: SA)
    requires sa.mcs < |MCSs| && sa.bsr < |BSRs|
    ensures GridSAs()[16 * sa.mcs + 4 * sa.bsr + sa.arm] == sa
  {
    var i := 16 * sa.mcs + 4 * sa.bsr + sa.arm;
    assert i / 16 == sa.mcs;
    assert (i / 4) % 4 == sa.bsr;
  }

  /** No state-action pair is listed twice. */
  lemma {:induction false} GridSAsDistinct(i: nat, j: nat)
    requires i < j < 64
    ensures GridSAs()[i] != GridSAs()[j]
  {
    GridSAsPosition(i);
    GridSAsPosition(j);
  }

  /** The pair listed at position `i` gives back `i` as its loop position. */
  lemma {:induction false} GridSAsPosition(i: nat)
    requires i < 64
    ensures var sa := GridSAs()[i]; i == 16 * sa.mcs + 4 * sa.bsr + sa.arm
  {
    var q, r := i / 16, i % 16;
    assert i == 16 * q + r && r < 16;
    assert i / 4 == 4 * q + r / 4;
    assert (i / 4) % 4 == r / 4;
    assert i % 4 == r % 4;
    assert r == 4 * (r / 4) + r % 4;
  }

  /** The count of the row `sa` over the outcomes `os`. */
  function RowTotalOver(m: map<TKey, nat>, sa: SA, os: seq<Outcome>): nat
  {
    if os == [] then 0 else RowTotalOver(m, sa, os[..|os| - 1]) + Get(m, TKey(sa, os[|os| - 1]))
  }

  /** The count of the row `sa` over its 32 grid outcomes. */
  function RowTotal(m: map<TKey, nat>, sa: SA): nat
  {
    RowTotalOver(m, sa, GridOutcomes(sa.arm))
  }

  lemma {:induction false} RowTotalOverMember(m: map<TKey, nat>, sa: SA, os: seq<Outcome>, i: nat)
    requires i < |os|
    ensures Get(m, TKey(sa, os[i])) <= RowTotalOver(m, sa, os)
  {
    if i < |os| - 1 {
      RowTotalOverMember(m, sa, os[..|os| - 1], i);
    }
  }

  lemma {:induction false} RowTotalOverMono(m: map<TKey, nat>, m': map<TKey, nat>, sa: SA, os: seq<Outcome>)
    requires forall x :: Get(m, x) <= Get(m', x)
    ensures RowTotalOver(m, sa, os) <= RowTotalOver(m', sa, os)
  {
    if os != [] {
      RowTotalOverMono(m, m', sa, os[..|os| - 1]);
    }
  }

  lemma {:induction false} RowTotalOverFrame(m: map<TKey, nat>, m': map<TKey, nat>, sa: SA, os: seq<Outcome>)
    requires forall x: TKey :: x.sa == sa ==> Get(m, x) == Get(m', x)
    ensures RowTotalOver(m, sa, os) == RowTotalOver(m', sa, os)
  {
    if os != [] {
      RowTotalOverFrame(m, m', sa, os[..|os| - 1]);
    }
  }

  /** The optimistic transition of an empty row: same MCS, empty buffer, the
      arm's success reward. */
  function OptimisticKey(sa: SA): TKey
  {
    TKey(sa, Outcome(sa.mcs, 0, RlReward(PRBs[sa.arm] as real, 1.0)))
  }

  /** The optimistic outcome is one of the row's grid outcomes. */
  lemma {:induction false} OptimisticOnGrid(sa: SA)
    requires sa.mcs < |MCSs|
    ensures 8 * sa.mcs + 1 < 32 && GridOutcomes(sa.arm)[8 * sa.mcs + 1] == OptimisticKey(sa).next
  {
    var i := 8 * sa.mcs + 1;
    assert i / 8 == sa.mcs && (i / 2) % 4 == 0 && i % 2 == 1;
  }

  /** Fills the row `sa` with its optimistic transition when it is empty. */
  function FillOne(m: map<TKey, nat>, sa: SA): map<TKey, nat>
  {
    if RowTotal(m, sa) == 0 then Add(m, OptimisticKey(sa), 1) else m
  }

  /** Fills every empty row of `sas`, in order. */
  function FillRows(m: map<TKey, nat>, sas: seq<SA>): map<TKey, nat>
  {
    if sas == [] then m else FillOne(FillRows(m, sas[..|sas| - 1]), sas[|sas| - 1])
  }

  /** Filling never lowers a count. */
  lemma {:induction false} FillRowsGrows(m: map<TKey, nat>, sas: seq<SA>)
    ensures forall x :: Get(m, x) <= Get(FillRows(m, sas), x)
  {
    if sas != [] {
      FillRowsGrows(m, sas[..|sas| - 1]);
    }
  }

  /** Filling other rows leaves the total of row `sa` as it is. */
  lemma {:induction false} FillRowsOtherRows(m: map<TKey, nat>, sas: seq<SA>, sa: SA)
    requires sa !in sas
    ensures forall x: TKey :: x.sa == sa ==> Get(FillRows(m, sas), x) == Get(m, x)
  {
    if sas != [] {
      FillRowsOtherRows(m, sas[..|sas| - 1], sa);
    }
  }

  /** Filling adds no key but the optimistic transitions of the listed rows. */
  lemma {:induction false} FillRowsKeys(m: map<TKey, nat>, sas: seq<SA>, k: TKey)
    requires k in FillRows(m, sas)
    ensures k in m || (k.sa in sas && k == OptimisticKey(k.sa))
  {
    if sas != [] {
      var prefix := sas[..|sas| - 1];
      if k in FillRows(m, prefix) {
        FillRowsKeys(m, prefix, k);
      }
    }
  }

  /** After filling, every listed row is nonempty. */
  lemma {:induction false} FillRowsNonEmpty(m: map<TKey, nat>, sas: seq<SA>)
    requires forall j :: 0 <= j < |sas| ==> sas[j].mcs < |MCSs|
    ensures forall j :: 0 <= j < |sas| ==> RowTotal(FillRows(m, sas), sas[j]) >= 1
  {
    if sas != [] {
      var prefix, sa := sas[..|sas| - 1], sas[|sas| - 1];
      var m0 := FillRows(m, prefix);
      var m1 := FillOne(m0, sa);
      FillRowsNonEmpty(m, prefix);
      assert forall x :: Get(m0, x) <= Get(m1, x);
      forall j | 0 <= j < |sas|
        ensures RowTotal(m1, sas[j]) >= 1
      {
        if j < |prefix| {
          assert prefix[j] == sas[j];
          RowTotalOverMono(m0, m1, sas[j], GridOutcomes(sas[j].arm));
        } else if RowTotal(m0, sa) == 0 {
          OptimisticOnGrid(sa);
          RowTotalOverMember(m1, sa, GridOutcomes(sa.arm), 8 * sa.mcs + 1);
        }
      }
    }
  }

  /** Filling adds exactly one optimistic transition to each listed row that was
      empty, and nothing else. */
  lemma {:induction false} FillRowsGet(m: map<TKey, nat>, sas: seq<SA>, x: TKey)
    requires forall i, j :: 0 <= i < j < |sas| ==> sas[i] != sas[j]
    ensures Get(FillRows(m, sas), x)
      == Get(m, x) + if x.sa in sas && x == OptimisticKey(x.sa) && RowTotal(m, x.sa) == 0 then 1 else 0
  {
    if sas != [] {
      var prefix, sa := sas[..|sas| - 1], sas[|sas| - 1];
      var m0 := FillRows(m, prefix);
      FillRowsGet(m, prefix, x);
      assert sa !in prefix;
      FillRowsOtherRows(m, prefix, sa);
      RowTotalOverFrame(m, m0, sa, GridOutcomes(sa.arm));
    }
  }

  /** Fills every empty row of the grid with its optimistic transition. */
  method FillEmptyRows(fake: map<TKey, nat>) returns (filled: map<TKey, nat>)
    ensures filled == FillRows(fake, GridSAs())
  {
    var sas := GridSAs();
    filled := fake;
    var i := 0;
    while i < |sas|
      invariant 0 <= i <= |sas|
      invariant filled == FillRows(fake, sas[..i])
    {
      assert sas[..i + 1][..i] == sas[..i];
      var stateAction := sas[i];
      if RowTotal(filled, stateAction) == 0 {
        filled := Add(filled, OptimisticKey(stateAction), 1);
      }
      i := i + 1;
    }
    assert sas[..i] == sas;
  }

  // ----- Normalisation -----

  /** The probability of `k`, zero when absent. */
  function GetP(p: map<TKey, real>, k: TKey): real
  {
    if k in p then p[k] else 0.0
  }

  /** Every row that holds a key has a positive total. */
  ghost predicate RowsNonEmpty(m: map<TKey, nat>)
  {
    forall k :: k in m ==> RowTotal(m, k.sa) > 0
  }

  /** Each count divided by the total of its row. */
  function Normalise(m: map<TKey, nat>): (p: map<TKey, real>)
    requires RowsNonEmpty(m)
    ensures p.Keys == m.Keys
    ensures forall k :: k in p ==> 0.0 <= p[k]
  {
    map k | k in m :: m[k] as real / RowTotal(m, k.sa) as real
  }

  /** The probability mass of the row `sa` over the outcomes `os`. */
  function RowMassOver(p: map<TKey, real>, sa: SA, os: seq<Outcome>): real
  {
    if os == [] then 0.0 else RowMassOver(p, sa, os[..|os| - 1]) + GetP(p, TKey(sa, os[|os| - 1]))
  }

  /** The probability mass of the row `sa` over its 32 grid outcomes, as value iteration reads it. */
  function RowMass(p: map<TKey, real>, sa: SA): real
  {
    RowMassOver(p, sa, GridOutcomes(sa.arm))
  }

  lemma {:induction false} DivAdd(a: real, b: real, t: real)
    requires t > 0.0
    ensures a / t + b / t == (a + b) / t
  {
  }

  lemma {:induction false} NormaliseRowOver(m: map<TKey, nat>, p: map<TKey, real>, sa: SA, os: seq<Outcome>, t: real)
    requires t > 0.0
    requires forall k: TKey :: k.sa == sa ==> GetP(p, k) == Get(m, k) as real / t
    ensures RowMassOver(p, sa, os) == RowTotalOver(m, sa, os) as real / t
  {
    if os != [] {
      NormaliseRowOver(m, p, sa, os[..|os| - 1], t);
      var k := TKey(sa, os[|os| - 1]);
      var a, b := RowTotalOver(m, sa, os[..|os| - 1]), Get(m, k);
      DivAdd(a as real, b as real, t);
      assert (a + b) as real == a as real + b as real;
    }
  }

  /** A normalised row sums to 1 over its grid outcomes. */
  lemma {:induction false} NormaliseRow(m: map<TKey, nat>, sa: SA)
    requires RowsNonEmpty(m) && RowTotal(m, sa) > 0
    ensures RowMass(Normalise(m), sa) == 1.0
  {
    var p, t := Normalise(m), RowTotal(m, sa) as real;
    forall k: TKey | k.sa == sa
      ensures GetP(p, k) == Get(m, k) as real / t
    {
      NormaliseGet(m, k);
    }
    NormaliseRowOver(m, p, sa, GridOutcomes(sa.arm), t);
    DivSelf(t);
  }

  lemma {:induction false} NormaliseGet(m: map<TKey, nat>, k: TKey)
    requires RowsNonEmpty(m) && RowTotal(m, k.sa) > 0
    ensures GetP(Normalise(m), k) == Get(m, k) as real / RowTotal(m, k.sa) as real
  {
  }

  lemma {:induction false} DivSelf(t: real)
    requires t > 0.0
    ensures t / t == 1.0
  {
  }

  /** Every grid entry of a normalised row lies in [0, 1]. */
  lemma {:induction false} NormaliseEntry(m: map<TKey, nat>, sa: SA, i: nat)
    requires RowsNonEmpty(m) && RowTotal(m, sa) > 0
    requires i < |GridOutcomes(sa.arm)|
    ensures 0.0 <= GetP(Normalise(m), TKey(sa, GridOutcomes(sa.arm)[i])) <= 1.0
  {
    var k := TKey(sa, GridOutcomes(sa.arm)[i]);
    RowTotalOverMember(m, sa, GridOutcomes(sa.arm), i);
    DivAtMostOne(Get(m, k) as real, RowTotal(m, sa) as real);
  }

  lemma {:induction false} DivAtMostOne(a: real, t: real)
    requires 0.0 <= a <= t && t > 0.0
    ensures 0.0 <= a / t <= 1.0
  {
  }

  /** A table whose state-action pairs lie on the grid has, once filled, no empty row. */
  lemma {:induction false} FilledRowsNonEmpty(m: map<TKey, nat>)
    requires SaOnGrid(m)
    ensures SaOnGrid(FillRows(m, GridSAs()))
    ensures RowsNonEmpty(FillRows(m, GridSAs()))
    ensures forall sa: SA :: sa.mcs < |MCSs| && sa.bsr < |BSRs| ==> RowTotal(FillRows(m, GridSAs()), sa) > 0
  {
    var sas := GridSAs();
    var filled := FillRows(m, sas);
    FillRowsNonEmpty(m, sas);
    forall i, j | 0 <= i < j < |sas|
      ensures sas[i] != sas[j]
    {
      GridSAsDistinct(i, j);
    }
    forall sa: SA | sa.mcs < |MCSs| && sa.bsr < |BSRs|
      ensures RowTotal(filled, sa) > 0
    {
      GridSAsComplete(sa);
    }
    forall k | k in filled
      ensures k.sa.mcs < |MCSs| && k.sa.bsr < |BSRs|
    {
      FillRowsKeys(m, sas, k);
    }
  }

  /** `update_transition_matrix`: counts the window's transitions into `counts`,
      extends a copy by arm monotonicity, fills the empty grid rows and
      normalises. Only the empirical counts are returned as the new count
      table; every grid row of the probabilities sums to 1. */
  method UpdateTransitionMatrix(data: seq<Row>, window: seq<nat>, counts: map<TKey, nat>)
    returns (prob: map<TKey, real>, counts': map<TKey, nat>, ghost order: seq<TKey>)
    requires ValidPairs(data, window)
    requires SaOnGrid(counts)
    ensures counts' == Counted(counts, Transitions(data, window))
    ensures SaOnGrid(counts')
    ensures Enumerates(order, counts'.Keys)
    ensures SaOnGrid(FillRows(ExtendAll(counts', counts', order), GridSAs()))
    ensures RowsNonEmpty(FillRows(ExtendAll(counts', counts', order), GridSAs()))
    ensures prob == Normalise(FillRows(ExtendAll(counts', counts', order), GridSAs()))
    ensures forall sa: SA :: sa.mcs < |MCSs| && sa.bsr < |BSRs| ==> RowMass(prob, sa) == 1.0
  {
    counts' := CountTransitions(data, window, counts);
    CountedOnGrid(counts, Transitions(data, window));
    var fake;
    fake, order := ExtendCounts(counts');
    ExtendAllOnGrid(counts', counts', order);
    var filled := FillEmptyRows(fake);
    FilledRowsNonEmpty(fake);
    prob := Normalise(filled);
    forall sa: SA | sa.mcs < |MCSs| && sa.bsr < |BSRs|
      ensures RowMass(prob, sa) == 1.0
    {
      NormaliseRow(filled, sa);
    }
  }
}
