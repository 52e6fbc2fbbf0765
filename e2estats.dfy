/**
 * End-to-end packet statistics: packet identifiers made from payload bytes
 * read as one big-endian number, and the delay/loss tally that looks each
 * received packet up in the tree of transmitted packets of its window.
 */
module E2eStats {
  import opened Wrappers
  import opened Stats
  import opened Parameters
  import opened BsTree
  import Qos

  // ---------------------------------------------------------------------
  // list_to_hex
  // ---------------------------------------------------------------------

  predicate IsHexDigit(c: char)
  {
    '0' <= c <= '9' || 'a' <= c <= 'f' || 'A' <= c <= 'F'
  }

  function DigitValue(c: char): (d: nat)
    requires IsHexDigit(c)
    ensures d < 16
  {
    if '0' <= c <= '9' then (c - '0') as nat
    else if 'a' <= c <= 'f' then (c - 'a') as nat + 10
    else (c - 'A') as nat + 10
  }

  predicate AllHexDigits(s: string)
  {
    forall i :: 0 <= i < |s| ==> IsHexDigit(s[i])
  }

  /** What `int(s, 16)` accepts here: a non-empty run of hex digits. */
  predicate IsHexString(s: string)
  {
    |s| > 0 && AllHexDigits(s)
  }

  /** The value of a run of hex digits, most significant first. */
  function HexValue(s: string): (v: nat)
    requires AllHexDigits(s)
  {
    if s == [] then 0 else HexValue(s[..|s| - 1]) * 16 + DigitValue(s[|s| - 1])
  }

  /** A byte written with two hex digits is below 256. */
  lemma TwoDigitByte(s: string)
    requires IsHexString(s) && |s| == 2
    ensures HexValue(s) < 256
  {
    assert s[..1][..0] == [];
    assert HexValue(s[..1]) == DigitValue(s[0]);
    assert HexValue(s) == DigitValue(s[0]) * 16 + DigitValue(s[1]);
  }

  function NatPow(b: nat, k: nat): nat
  {
    if k == 0 then 1 else b * NatPow(b, k - 1)
  }

  /** Python's `16 ** (2 * k)` is `256 ** k`. */
  lemma {:induction false} SixteenSquared(k: nat)
    ensures NatPow(16, 2 * k) == NatPow(256, k)
  {
    if k > 0 {
      SixteenSquared(k - 1);
      assert NatPow(16, 2 * k) == 16 * (16 * NatPow(16, 2 * (k - 1)));
    }
  }

  /** Base-256 digits, most significant first, read as one number. */
  function BigEndian(vs: seq<nat>): nat
  {
    if vs == [] then 0 else BigEndian(vs[..|vs| - 1]) * 256 + vs[|vs| - 1]
  }

  /** The first `n` strings are hexadecimal. */
  predicate HexUpTo(bytes: seq<string>, n: nat)
    requires n <= |bytes|
  {
    forall j :: 0 <= j < n ==> IsHexString(bytes[j])
  }

  /** The values of the first `n` bytes. */
  function Values(bytes: seq<string>, n: nat): (vs: seq<nat>)
    requires n <= |bytes| && HexUpTo(bytes, n)
    ensures |vs| == n
  {
    if n == 0 then []
    else
      assert IsHexString(bytes[n - 1]);
      Values(bytes, n - 1) + [HexValue(bytes[n - 1])]
  }

  /** The sum `list_to_hex` accumulates over its first `n` iterations. */
  function WeightedSum(bytes: seq<string>, n: nat): nat
    requires n <= |bytes| && HexUpTo(bytes, n)
  {
    if n == 0 then 0
    else
      assert IsHexString(bytes[n - 1]);
      WeightedSum(bytes, n - 1) + HexValue(bytes[n - 1]) * NatPow(16, 2 * |bytes| - 2 * n)
  }

  /** Python's `list_to_hex`: byte `i` of `L` is weighted by `16 ** (2L - 2(i+1))`.
      `None` stands for the `ValueError` of a string that is not hexadecimal. */
  method ListToHex(bytes: seq<string>) returns (r: Option<nat>)
    ensures r.None? <==> exists i :: 0 <= i < |bytes| && !IsHexString(bytes[i])
    ensures r.Some? ==> HexUpTo(bytes, |bytes|) && r.value == BigEndian(Values(bytes, |bytes|))
  {
    var val := 0;
    var length := |bytes|;
    for i := 0 to length
      invariant HexUpTo(bytes, i)
      invariant val == WeightedSum(bytes, i)
    {
      if !IsHexString(bytes[i]) {
        return None;
      }
      val := val + HexValue(bytes[i]) * NatPow(16, 2 * length - 2 * (i + 1));
    }
    WeightedSumIsBigEndian(bytes, length);
    r := Some(val);
  }

  /** The accumulated sum is the big-endian value of the bytes read so far,
      shifted by the bytes still to come. */
  lemma {:induction false} WeightedSumIsBigEndian(bytes: seq<string>, n: nat)
    requires n <= |bytes| && HexUpTo(bytes, n)
    ensures WeightedSum(bytes, n) == BigEndian(Values(bytes, n)) * NatPow(256, |bytes| - n)
  {
    if n > 0 {
      WeightedSumIsBigEndian(bytes, n - 1);
      var m := |bytes| - n;
      SixteenSquared(m);
      assert 2 * |bytes| - 2 * n == 2 * m;
      assert IsHexString(bytes[n - 1]);
      AccumulateStep(Values(bytes, n - 1), HexValue(bytes[n - 1]), m);
    }
  }

  /** One iteration of the accumulation: adding the next byte at its weight. */
  lemma AccumulateStep(prefix: seq<nat>, v: nat, m: nat)
    ensures BigEndian(prefix) * NatPow(256, m + 1) + v * NatPow(256, m) == BigEndian(prefix + [v]) * NatPow(256, m)
  {
    assert (prefix + [v])[..|prefix|] == prefix;
    var p := NatPow(256, m);
    calc {
      BigEndian(prefix) * NatPow(256, m + 1) + v * p;
      BigEndian(prefix) * (256 * p) + v * p;
      (BigEndian(prefix) * 256 + v) * p;
    }
  }

  predicate AllBytes(vs: seq<nat>)
  {
    forall i :: 0 <= i < |vs| ==> vs[i] < 256
  }

  /** The `len` base-256 digits of `n`, most significant first. */
  function ToBytes(n: nat, len: nat): (vs: seq<nat>)
    ensures |vs| == len
  {
    if len == 0 then [] else ToBytes(n / 256, len - 1) + [n % 256]
  }

  /** The packet identifier keeps every byte: reading the identifier back in
      base 256 gives the bytes it was made of. */
  lemma {:induction false} BigEndianRoundTrip(vs: seq<nat>)
    requires AllBytes(vs)
    ensures ToBytes(BigEndian(vs), |vs|) == vs
  {
    if vs != [] {
      var prefix := vs[..|vs| - 1];
      var x := vs[|vs| - 1];
      BigEndianRoundTrip(prefix);
      var n := BigEndian(vs);
      assert n == BigEndian(prefix) * 256 + x;
      assert n / 256 == BigEndian(prefix) && n % 256 == x;
      assert vs == prefix + [x];
    }
  }

  /** The identifier needs no more than `len` bytes. */
  lemma {:induction false} BigEndianBound(vs: seq<nat>)
    requires AllBytes(vs)
    ensures BigEndian(vs) < NatPow(256, |vs|)
  {
    if vs != [] {
      var prefix := vs[..|vs| - 1];
      BigEndianBound(prefix);
      assert BigEndian(prefix) + 1 <= NatPow(256, |prefix|);
      assert BigEndian(vs) < (BigEndian(prefix) + 1) * 256;
    }
  }

  /** Two payloads of the same length have the same identifier only if they
      carry the same bytes. */
  lemma IdentifierInjective(a: seq<nat>, b: seq<nat>)
    requires AllBytes(a) && AllBytes(b) && |a| == |b|
    requires BigEndian(a) == BigEndian(b)
    ensures a == b
  {
    BigEndianRoundTrip(a);
    BigEndianRoundTrip(b);
  }

  // ---------------------------------------------------------------------
  // e2e_stats
  // ---------------------------------------------------------------------

  /** The delay charged to a received packet against the identifier map of
      its window: the time since transmission, or `max_delay` when unmatched. */
  function DelayOf(sent: map<int, int>, rx: Packet): real
  {
    if rx.0 in sent then (rx.1 - sent[rx.0]) as real else MaxDelay
  }

  /** The delays of the received packets, one per packet, in order. */
  function Delays(sent: seq<map<int, int>>, rx: seq<Packet>): (ds: seq<real>)
    requires |rx| <= |sent|
    ensures |ds| == |rx|
    ensures forall i :: 0 <= i < |rx| ==> ds[i] == DelayOf(sent[i], rx[i])
  {
    if rx == [] then []
    else Delays(sent, rx[..|rx| - 1]) + [DelayOf(sent[|rx| - 1], rx[|rx| - 1])]
  }

  /** How many received packets have no match in their window. */
  function LostCount(sent: seq<map<int, int>>, rx: seq<Packet>): nat
    requires |rx| <= |sent|
  {
    if rx == [] then 0
    else LostCount(sent, rx[..|rx| - 1]) + (if rx[|rx| - 1].0 in sent[|rx| - 1] then 0 else 1)
  }

  /** The identifier maps the trees stand for. */
  ghost function Snapshot(trees: seq<BSTree>): (ms: seq<map<int, int>>)
    reads set i | 0 <= i < |trees| :: trees[i]
    ensures |ms| == |trees|
    ensures forall i :: 0 <= i < |trees| ==> ms[i] == trees[i].Contents
  {
    if trees == [] then []
    else Snapshot(trees[..|trees| - 1]) + [trees[|trees| - 1].Contents]
  }

  /** Python's `e2e_stats`: window `i`'s tree is searched for received packet
      `i`. `None` stands for the `IndexError` when there are fewer trees than
      received packets. (The `if not data_tx[i]` branch never fires: a tree
      object is always truthy.) */
  method E2eStatsOf(dataTx: seq<BSTree>, dataRx: seq<Packet>) returns (r: Option<(nat, seq<real>)>)
    requires forall i :: 0 <= i < |dataTx| ==> dataTx[i].Valid()
    ensures r.None? <==> |dataRx| > |dataTx|
    ensures r.Some? ==> r.value == (LostCount(Snapshot(dataTx), dataRx), Delays(Snapshot(dataTx), dataRx))
  {
    if |dataRx| > |dataTx| {
      return None;
    }
    ghost var sent := Snapshot(dataTx);
    var lostPackets := 0;
    var e2eDelay := [];
    for i := 0 to |dataRx|
      invariant lostPackets == LostCount(sent, dataRx[..i])
      invariant e2eDelay == Delays(sent, dataRx[..i])
    {
      assert dataRx[..i + 1][..i] == dataRx[..i];
      var mapper := dataTx[i].Find(dataRx[i].0);
      if mapper.FoundNode? {
        var txTime := mapper.node.value.value.1;
        var rxTime := dataRx[i].1;
        e2eDelay := e2eDelay + [(rxTime - txTime) as real];
      } else {
        lostPackets := lostPackets + 1;
        e2eDelay := e2eDelay + [MaxDelay];
      }
    }
    assert dataRx[..|dataRx|] == dataRx;
    r := Some((lostPackets, e2eDelay));
  }

  /** No packet is lost exactly when every received packet is found in its
      window, and all are lost exactly when none is. */
  lemma {:induction false} LostCountRange(sent: seq<map<int, int>>, rx: seq<Packet>)
    requires |rx| <= |sent|
    ensures LostCount(sent, rx) <= |rx|
    ensures LostCount(sent, rx) == 0 <==> forall i :: 0 <= i < |rx| ==> rx[i].0 in sent[i]
    ensures LostCount(sent, rx) == |rx| <==> forall i :: 0 <= i < |rx| ==> rx[i].0 !in sent[i]
  {
    if rx != [] {
      var prefix := rx[..|rx| - 1];
      LostCountRange(sent, prefix);
      assert forall i :: 0 <= i < |prefix| ==> prefix[i] == rx[i];
    }
  }

  /** Against the tree built from a window's transmitted packets, a received
      packet is charged the time since the FIRST transmission of its
      identifier, or `max_delay` when the identifier was not sent. */
  lemma MatchedDelay(packets: seq<Packet>, rx: Packet)
    ensures (forall j :: 0 <= j < |packets| ==> packets[j].0 != rx.0) ==>
      DelayOf(FirstWins(packets), rx) == MaxDelay
    ensures (exists j :: 0 <= j < |packets| && packets[j].0 == rx.0) ==>
      exists j :: 0 <= j < |packets| && packets[j].0 == rx.0
        && (forall k :: 0 <= k < j ==> packets[k].0 != rx.0)
        && DelayOf(FirstWins(packets), rx) == (rx.1 - packets[j].1) as real
  {
    FirstWinsIsFirst(packets, rx.0);
  }

  /** A user none of whose packets is matched gets the average delay
      `max_delay`, which fails the QoS target. */
  lemma AllLostFailsQos(sent: seq<map<int, int>>, rx: seq<Packet>, tail: seq<real> -> real)
    requires |rx| <= |sent| && rx != []
    requires LostCount(sent, rx) == |rx|
    ensures Qos.UserMetric(Delays(sent, rx), AvgPacketDelay, tail) == MaxDelay
    ensures Qos.Verdict(Qos.UserMetric(Delays(sent, rx), AvgPacketDelay, tail)) == 0
  {
    LostCountRange(sent, rx);
    MeanBounds(Delays(sent, rx), MaxDelay, MaxDelay);
  }
}
