/** Sums, means, counts and powers over `real` used by the estimators. */
module Stats {

  /** The sum of a sequence, accumulated from the front as Python's `sum` does. */
  function Sum(s: seq<real>): real
  {
    if s == [] then 0.0 else Sum(s[..|s| - 1]) + s[|s| - 1]
  }

  /** The arithmetic mean; 0.0 for an empty sequence (the initial running mean of a bandit arm). */
  function Mean(s: seq<real>): real
  {
    if s == [] then 0.0 else Sum(s) / (|s| as real)
  }

  /** Number of occurrences of `x` in `s`. */
  function Count<T(==)>(s: seq<T>, x: T): nat
  {
    if s == [] then 0 else Count(s[..|s| - 1], x) + (if s[|s| - 1] == x then 1 else 0)
  }

  /** `b` raised to the natural power `k` (Python's `gamma ** k`). */
  function Pow(b: real, k: nat): real
  {
    if k == 0 then 1.0 else Pow(b, k - 1) * b
  }

  predicate AllIn(s: seq<real>, lo: real, hi: real)
  {
    forall i :: 0 <= i < |s| ==> lo <= s[i] <= hi
  }

  lemma {:induction false} SumAppend(s: seq<real>, x: real)
    ensures Sum(s + [x]) == Sum(s) + x
  {
    assert (s + [x])[..|s|] == s;
  }

  lemma {:induction false} SumBounds(s: seq<real>, lo: real, hi: real)
    requires AllIn(s, lo, hi)
    ensures lo * (|s| as real) <= Sum(s) <= hi * (|s| as real)
  {
    if s != [] {
      SumBounds(s[..|s| - 1], lo, hi);
    }
  }

  /** Appending one value to a sequence turns its mean into the running-mean update
      `1/(n+1) * (mean * n + x)` that the bandit applies to an arm. */
  lemma {:induction false} MeanAppend(s: seq<real>, x: real)
    ensures Mean(s + [x]) == 1.0 / ((|s| + 1) as real) * (Mean(s) * (|s| as real) + x)
  {
    SumAppend(s, x);
    var n := |s| as real;
    if s != [] {
      assert Mean(s) * n == Sum(s);
    }
  }

  /** The mean of values in [lo, hi] lies in [lo, hi] (and is 0.0 when empty). */
  lemma {:induction false} MeanBounds(s: seq<real>, lo: real, hi: real)
    requires AllIn(s, lo, hi)
    requires s != []
    ensures lo <= Mean(s) <= hi
  {
    SumBounds(s, lo, hi);
    var n := |s| as real;
    assert Sum(s) / n >= lo by {
      assert lo * n <= Sum(s);
    }
    assert Sum(s) / n <= hi by {
      assert Sum(s) <= hi * n;
    }
  }

  lemma {:induction false} PowBounds(b: real, k: nat)
    requires 0.0 <= b <= 1.0
    ensures 0.0 <= Pow(b, k) <= 1.0
  {
    if k > 0 {
      PowBounds(b, k - 1);
      MulUnit(Pow(b, k - 1), b);
    }
  }

  /** The product of two numbers in [0, 1] is in [0, 1]. */
  lemma {:induction false} MulUnit(x: real, y: real)
    requires 0.0 <= x <= 1.0 && 0.0 <= y <= 1.0
    ensures 0.0 <= x * y <= 1.0
  {
    assert 0.0 <= x * y by { if y > 0.0 { assert x * y >= 0.0 * y; } }
    assert x * y == x - x * (1.0 - y);
    assert 0.0 <= x * (1.0 - y);
  }

  /** The larger of two reals. */
  function RMax(a: real, b: real): real
  {
    if a >= b then a else b
  }

  /** Python's `max` of a non-empty list, folding from the left. */
  function MaxOf(xs: seq<real>): real
    requires xs != []
  {
    if |xs| == 1 then xs[0] else RMax(MaxOf(xs[..|xs| - 1]), xs[|xs| - 1])
  }

  /** `MaxOf` is an element of the list and no element exceeds it. */
  lemma {:induction false} MaxOfIsMax(xs: seq<real>) returns (j: nat)
    requires xs != []
    ensures j < |xs| && MaxOf(xs) == xs[j]
    ensures forall k :: 0 <= k < |xs| ==> xs[k] <= MaxOf(xs)
  {
    if |xs| == 1 {
      j := 0;
    } else {
      var prefix := xs[..|xs| - 1];
      var i := MaxOfIsMax(prefix);
      j := if MaxOf(prefix) >= xs[|xs| - 1] then i else |xs| - 1;
      assert forall k :: 0 <= k < |xs| - 1 ==> xs[k] == prefix[k];
    }
  }

  /** The greedy arm, the first arm of maximal lookahead, attains the value a
      sweep stores: Python's `index(max(...))` points at `max(...)`. */
  lemma {:induction false} ArgmaxAttainsMax(xs: seq<real>)
    requires xs != []
    ensures xs[ArgmaxFirst(xs)] == MaxOf(xs)
  {
    var j := MaxOfIsMax(xs);
  }

  /** The position of the first maximum of a non-empty sequence: Python's
      `xs.index(max(xs))`, which breaks ties towards the smallest index. */
  function ArgmaxFirst(xs: seq<real>): (i: nat)
    requires xs != []
    ensures i < |xs|
    ensures forall j :: 0 <= j < |xs| ==> xs[j] <= xs[i]
    ensures forall j :: 0 <= j < i ==> xs[j] < xs[i]
  {
    if |xs| == 1 then 0
    else
      var b := ArgmaxFirst(xs[..|xs| - 1]);
      if xs[|xs| - 1] > xs[b] then |xs| - 1 else b
  }

  /** The sum of a four-element sequence, written out. */
  lemma {:induction false} Sum4(p: seq<real>)
    requires |p| == 4
    ensures Sum(p) == p[0] + p[1] + p[2] + p[3]
  {
    assert p[..3][..2] == p[..2] && p[..2][..1] == p[..1] && p[..1][..0] == [];
    assert Sum(p[..1]) == p[0];
    assert Sum(p[..2]) == p[0] + p[1];
    assert Sum(p[..3]) == p[0] + p[1] + p[2];
    assert p[..4] == p;
  }

  lemma {:induction false} CountAbsent<T>(s: seq<T>, x: T)
    requires x !in s
    ensures Count(s, x) == 0
  {
    if s != [] {
      CountAbsent(s[..|s| - 1], x);
    }
  }
}
