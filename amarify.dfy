/**
 * The UE schedule builder of the Amarisoft configuration generator: the
 * activity intervals of a piecewise-constant UE population, their grouping
 * into one lifecycle per simulated UE, the start/end contributions used for
 * the activity plot, and the per-UE configuration with its identifier
 * counter and event list. Event and configuration templates keep the fields
 * that vary; the random channel attributes are not modelled.
 */
module Amarify {
  import opened Wrappers

  /** An activity interval (start, end), in seconds. */
  type Interval = (int, int)

  // ---------------------------------------------------------------------
  // group_tuples

  /** The position of the last tuple within its run of equal adjacent
      tuples: 0 for the first copy, 1 for the second, and so on. */
  function RunIndex(s: seq<Interval>): nat
    requires s != []
  {
    if |s| == 1 || s[|s| - 1] != s[|s| - 2] then 0 else RunIndex(s[..|s| - 1]) + 1
  }

  /** Every tuple's run position is below `m`: no run of equal adjacent
      tuples is longer than `m`. */
  predicate Fits(s: seq<Interval>, m: nat)
  {
    s == [] || (Fits(s[..|s| - 1], m) && RunIndex(s) < m)
  }

  /** The `i`-th copy of every run, in order. */
  function Copies(s: seq<Interval>, i: int): seq<Interval>
  {
    if s == [] then []
    else Copies(s[..|s| - 1], i) + (if RunIndex(s) == i then [s[|s| - 1]] else [])
  }

  /** A prefix that does not fit makes the whole list not fit. */
  lemma {:induction false} NotFitsExtends(s: seq<Interval>, n: nat, m: nat)
    requires n <= |s| && !Fits(s[..n], m)
    ensures !Fits(s, m)
  {
    if n < |s| {
      var p := s[..|s| - 1];
      assert p[..n] == s[..n];
      NotFitsExtends(p, n, m);
    } else {
      assert s[..n] == s;
    }
  }

  /** `group_tuples`: `maxUsers` lists, list `i` holding the `i`-th copy of
      every run of equal adjacent tuples; `None` for the `IndexError` raised
      by a run longer than `maxUsers`. */
  method GroupTuples(tuples: seq<Interval>, maxUsers: nat) returns (result: Option<seq<seq<Interval>>>)
    ensures result.None? <==> !Fits(tuples, maxUsers)
    ensures result.Some? ==> |result.value| == maxUsers
    ensures result.Some? ==> forall i :: 0 <= i < maxUsers ==> result.value[i] == Copies(tuples, i)
  {
    var groups: seq<seq<Interval>> := seq(maxUsers, _ => []);
    if tuples != [] {
      var index := -1;
      var current := tuples[0];
      for k := 0 to |tuples|
        invariant |groups| == maxUsers
        invariant Fits(tuples[..k], maxUsers)
        invariant forall i :: 0 <= i < maxUsers ==> groups[i] == Copies(tuples[..k], i)
        invariant k == 0 ==> index == -1 && current == tuples[0]
        invariant k > 0 ==> index == RunIndex(tuples[..k]) && current == tuples[k - 1]
      {
        var t := tuples[k];
        assert tuples[..k + 1][..k] == tuples[..k];
        if t == current {
          index := index + 1;
        } else {
          index := 0;
          current := t;
        }
        if index >= maxUsers {
          NotFitsExtends(tuples, k + 1, maxUsers);
          return None;
        }
        groups := groups[index := groups[index] + [t]];
      }
      assert tuples[..|tuples|] == tuples;
    }
    return Some(groups);
  }

  /** The total number of tuples in the lists. */
  function TotalSize(groups: seq<seq<Interval>>): nat
  {
    if groups == [] then 0 else TotalSize(groups[..|groups| - 1]) + |groups[|groups| - 1]|
  }

  /** Adding one tuple to one list adds one to the total. */
  lemma {:induction false} TotalSizeGrows(g: seq<seq<Interval>>, h: seq<seq<Interval>>, r: nat, x: Interval)
    requires |g| == |h| && r < |g|
    requires h[r] == g[r] + [x]
    requires forall i :: 0 <= i < |g| && i != r ==> h[i] == g[i]
    ensures TotalSize(h) == TotalSize(g) + 1
  {
    var n := |g|;
    if r < n - 1 {
      TotalSizeGrows(g[..n - 1], h[..n - 1], r, x);
    } else {
      assert g[..n - 1] == h[..n - 1];
    }
  }

  /** When every run fits, grouping loses no tuple: the lists hold as many
      tuples as the input. */
  lemma {:induction false} GroupingKeepsCount(s: seq<Interval>, m: nat)
    requires Fits(s, m)
    ensures TotalSize(seq(m, i => Copies(s, i))) == |s|
  {
    if s == [] {
      EmptyGroups(m);
    } else {
      var p := s[..|s| - 1];
      GroupingKeepsCount(p, m);
      TotalSizeGrows(seq(m, i => Copies(p, i)), seq(m, i => Copies(s, i)), RunIndex(s), s[|s| - 1]);
    }
  }

  lemma {:induction false} EmptyGroups(m: nat)
    ensures TotalSize(seq(m, i => Copies([], i))) == 0
  {
    if m > 0 {
      EmptyGroups(m - 1);
      assert seq(m, i => Copies([], i))[..m - 1] == seq(m - 1, i => Copies([], i));
    }
  }

  // ---------------------------------------------------------------------
  // ue_lifecycle_alt

  /** How many (activity time, UE count) segments `zip` pairs up. */
  function SegmentCount(times: seq<int>, counts: seq<nat>): nat
  {
    if |times| < |counts| then |times| else |counts|
  }

  /** `current_time` after the first `n` segments: the sum of the activity
      times of those segments that have at least one UE. */
  function Time(times: seq<int>, counts: seq<nat>, n: nat): int
    requires n <= SegmentCount(times, counts)
  {
    if n == 0 then 0 else Time(times, counts, n - 1) + (if counts[n - 1] > 0 then times[n - 1] else 0)
  }

  /** The interval every UE of segment `j` is active in. */
  function Segment(times: seq<int>, counts: seq<nat>, j: nat): Interval
    requires j < SegmentCount(times, counts)
  {
    (Time(times, counts, j), Time(times, counts, j) + times[j])
  }

  /** The intervals of the first `n` segments: segment `j` contributes
      `counts[j]` copies of its interval. */
  function Lifecycles(times: seq<int>, counts: seq<nat>, n: nat): seq<Interval>
    requires n <= SegmentCount(times, counts)
  {
    if n == 0 then []
    else Lifecycles(times, counts, n - 1) + seq(counts[n - 1], _ => Segment(times, counts, n - 1))
  }

  /** The intervals of those of the first `n` segments with more than `i` UEs. */
  function SegmentsAbove(times: seq<int>, counts: seq<nat>, n: nat, i: int): seq<Interval>
    requires n <= SegmentCount(times, counts)
  {
    if n == 0 then []
    else SegmentsAbove(times, counts, n - 1, i) + (if counts[n - 1] > i then [Segment(times, counts, n - 1)] else [])
  }

  /** The loops of `ue_lifecycle_alt`, before the grouping. */
  method LifecycleIntervals(times: seq<int>, counts: seq<nat>) returns (cycles: seq<Interval>)
    ensures cycles == Lifecycles(times, counts, SegmentCount(times, counts))
  {
    cycles := [];
    var currentTime := 0;
    var currentUeCount := 0;
    for j := 0 to SegmentCount(times, counts)
      invariant cycles == Lifecycles(times, counts, j)
      invariant currentTime == Time(times, counts, j) && currentUeCount == 0
    {
      var time, count := times[j], counts[j];
      for q := 0 to count
        invariant cycles == Lifecycles(times, counts, j) + seq(q, _ => Segment(times, counts, j))
        invariant q < count ==> currentUeCount == q && currentTime == Time(times, counts, j)
        invariant q == count ==> currentUeCount == 0 && currentTime == Time(times, counts, j + 1)
      {
        var startTime := currentTime;
        var endTime := currentTime + time;
        assert seq(q + 1, _ => Segment(times, counts, j)) == seq(q, _ => Segment(times, counts, j)) + [(startTime, endTime)];
        cycles := cycles + [(startTime, endTime)];
        currentUeCount := currentUeCount + 1;
        if currentUeCount == count {
          currentUeCount := 0;
          currentTime := endTime;
        }
      }
    }
  }

  /** The largest UE count. */
  function MaxCount(counts: seq<nat>): (m: nat)
    requires counts != []
    ensures forall j :: 0 <= j < |counts| ==> counts[j] <= m
    ensures exists j :: 0 <= j < |counts| && counts[j] == m
  {
    if |counts| == 1 then counts[0]
    else
      var m := MaxCount(counts[..|counts| - 1]);
      assert forall j :: 0 <= j < |counts| - 1 ==> counts[..|counts| - 1][j] == counts[j];
      if counts[|counts| - 1] > m then counts[|counts| - 1] else m
  }

  /** `ue_lifecycle_alt`: the segment intervals grouped into `max(ue_counts)`
      lifecycles; `None` for the `ValueError` of `max` on no counts and for
      the `IndexError` of the grouping. */
  method UeLifecycleAlt(times: seq<int>, counts: seq<nat>) returns (r: Option<seq<seq<Interval>>>)
    ensures counts == [] ==> r.None?
    ensures counts != [] ==>
      (r.None? <==> !Fits(Lifecycles(times, counts, SegmentCount(times, counts)), MaxCount(counts)))
    ensures r.Some? ==> counts != [] && |r.value| == MaxCount(counts)
    ensures r.Some? ==> forall i :: 0 <= i < |r.value| ==>
      r.value[i] == Copies(Lifecycles(times, counts, SegmentCount(times, counts)), i)
  {
    var cycles := LifecycleIntervals(times, counts);
    if counts == [] {
      return None;
    }
    r := GroupTuples(cycles, MaxCount(counts));
  }

  /** `q` copies of `x` after a list not ending in `x`: the last copy sits at
      run position `q - 1`. */
  lemma {:induction false} RunIndexOfCopies(l: seq<Interval>, x: Interval, q: nat)
    requires q >= 1
    requires l == [] || l[|l| - 1] != x
    ensures RunIndex(l + seq(q, _ => x)) == q - 1
  {
    var s := l + seq(q, _ => x);
    if q > 1 {
      assert s[..|s| - 1] == l + seq(q - 1, _ => x);
      RunIndexOfCopies(l, x, q - 1);
    }
  }

  /** Appending a run of `c` copies of a new tuple keeps the runs within `m`
      when `c <= m`, and adds the tuple to lists `0 .. c-1`. */
  lemma {:induction false} AppendRun(l: seq<Interval>, x: Interval, c: nat, m: nat)
    requires l == [] || l[|l| - 1] != x
    requires Fits(l, m) && c <= m
    ensures Fits(l + seq(c, _ => x), m)
    ensures forall i: nat :: Copies(l + seq(c, _ => x), i) == Copies(l, i) + (if i < c then [x] else [])
  {
    if c == 0 {
      assert l + seq(c, _ => x) == l;
    } else {
      var s := l + seq(c, _ => x);
      assert s[..|s| - 1] == l + seq(c - 1, _ => x);
      AppendRun(l, x, c - 1, m);
      RunIndexOfCopies(l, x, c);
    }
  }

  /** With positive activity times, consecutive segments have different
      intervals, so the runs are exactly the segments: the grouping fits in
      `max(ue_counts)` lists and list `i` holds, in order, the interval of
      every segment with more than `i` UEs. */
  lemma LifecycleGroups(times: seq<int>, counts: seq<nat>)
    requires counts != []
    requires forall j :: 0 <= j < SegmentCount(times, counts) ==> times[j] > 0
    ensures Fits(Lifecycles(times, counts, SegmentCount(times, counts)), MaxCount(counts))
    ensures forall i: nat ::
      Copies(Lifecycles(times, counts, SegmentCount(times, counts)), i)
        == SegmentsAbove(times, counts, SegmentCount(times, counts), i)
  {
    LifecycleGroupsUpTo(times, counts, SegmentCount(times, counts));
  }

  lemma {:induction false} LifecycleGroupsUpTo(times: seq<int>, counts: seq<nat>, n: nat)
    requires counts != [] && n <= SegmentCount(times, counts)
    requires forall j :: 0 <= j < SegmentCount(times, counts) ==> times[j] > 0
    ensures Fits(Lifecycles(times, counts, n), MaxCount(counts))
    ensures forall i: nat :: Copies(Lifecycles(times, counts, n), i) == SegmentsAbove(times, counts, n, i)
    ensures var l := Lifecycles(times, counts, n);
      l != [] ==> l[|l| - 1].0 < l[|l| - 1].1 == Time(times, counts, n)
  {
    if n > 0 {
      LifecycleGroupsUpTo(times, counts, n - 1);
      var l := Lifecycles(times, counts, n - 1);
      var x := Segment(times, counts, n - 1);
      var c := counts[n - 1];
      AppendRun(l, x, c, MaxCount(counts));
      if c > 0 {
        var s := l + seq(c, _ => x);
        assert s[|s| - 1] == x;
      }
    }
  }

  // ---------------------------------------------------------------------
  // augment_cycles

  /** A (start, +1) item for every interval. */
  function Starts(cycles: seq<Interval>): (r: seq<(int, int)>)
    ensures |r| == |cycles| && forall k :: 0 <= k < |cycles| ==> r[k] == (cycles[k].0, 1)
  {
    seq(|cycles|, k requires 0 <= k < |cycles| => (cycles[k].0, 1))
  }

  /** An (end, -1) item for every interval. */
  function Ends(cycles: seq<Interval>): (r: seq<(int, int)>)
    ensures |r| == |cycles| && forall k :: 0 <= k < |cycles| ==> r[k] == (cycles[k].1, -1)
  {
    seq(|cycles|, k requires 0 <= k < |cycles| => (cycles[k].1, -1))
  }

  /** `augment_cycles`: the start items of all intervals followed by their
      end items. */
  function AugmentCycles(cycles: seq<Interval>): (r: seq<(int, int)>)
    ensures |r| == 2 * |cycles|
    ensures forall k :: 0 <= k < |cycles| ==> r[k] == (cycles[k].0, 1) && r[|cycles| + k] == (cycles[k].1, -1)
  {
    Starts(cycles) + Ends(cycles)
  }

  /** The intervals read back from the contribution list: the times of the
      first half paired with those of the second half. */
  function PairUp(items: seq<(int, int)>): seq<Interval>
  {
    seq(|items| / 2, k requires 0 <= k < |items| / 2 => (items[k].0, items[|items| / 2 + k].0))
  }

  lemma AugmentRoundTrip(cycles: seq<Interval>)
    ensures PairUp(AugmentCycles(cycles)) == cycles
  {
  }

  /** The sum of the contributions of the items. */
  function Net(items: seq<(int, int)>): int
  {
    if items == [] then 0 else Net(items[..|items| - 1]) + items[|items| - 1].1
  }

  lemma {:induction false} NetAppend(a: seq<(int, int)>, b: seq<(int, int)>)
    ensures Net(a + b) == Net(a) + Net(b)
  {
    if b == [] {
      assert a + b == a;
    } else {
      assert (a + b)[..|a + b| - 1] == a + b[..|b| - 1];
      NetAppend(a, b[..|b| - 1]);
    }
  }

  /** Items all contributing `v` add up to `v` times their number. */
  lemma {:induction false} NetConstant(items: seq<(int, int)>, v: int)
    requires forall k :: 0 <= k < |items| ==> items[k].1 == v
    ensures Net(items) == |items| * v
  {
    if items != [] {
      NetConstant(items[..|items| - 1], v);
    }
  }

  /** Every UE that becomes active becomes inactive again: the contributions
      of an augmented list add up to zero. */
  lemma AugmentBalanced(cycles: seq<Interval>)
    ensures Net(AugmentCycles(cycles)) == 0
  {
    NetAppend(Starts(cycles), Ends(cycles));
    NetConstant(Starts(cycles), 1);
    NetConstant(Ends(cycles), -1);
  }

  // ---------------------------------------------------------------------
  // UE configuration

  /** The traffic kinds of the event templates. */
  datatype EventKind = Http | Rtp | Udp | Voip

  /** A simulation event: power on or off at a time, or a traffic interval. */
  datatype Event =
    | PowerOn(startTime: int)
    | PowerOff(startTime: int)
    | Traffic(kind: EventKind, startTime: int, endTime: int)

  /** The `ue_list` entry of one UE. */
  datatype UeEntry = UeEntry(
    ueId: nat, imsi: string, imeisv: string, simAlgo: string, channelSim: bool,
    key: string, asRelease: nat, ueCategory: nat, simEvents: seq<Event>)

  /** The `ue_db` entry of one UE. */
  datatype DbEntry = DbEntry(imsi: string, key: string, amf: nat, sqn: string, simAlgo: string)

  const ImsiBase: nat := 1010123456789
  const ImeisvBase: nat := 8180960000000101
  const SimKey: string := "00112233445566778899aabbccddeeff"

  /** The event kind and channel simulation flag of each supported protocol. */
  function ProtoHandler(proto: string): (r: Option<(EventKind, bool)>)
    ensures r.Some? <==> proto in {"HTTP", "RTP", "UDP", "VoIP"}
  {
    if proto == "HTTP" then Some((Http, false))
    else if proto == "RTP" then Some((Rtp, true))
    else if proto == "UDP" then Some((Udp, true))
    else if proto == "VoIP" then Some((Voip, false))
    else None
  }

  function DigitChar(d: nat): char
    requires d < 10
  {
    ('0' as int + d) as char
  }

  predicate AllDigits(s: string)
  {
    forall k :: 0 <= k < |s| ==> '0' <= s[k] <= '9'
  }

  /** `str(n)`: the decimal digits of `n`. */
  function Decimal(n: nat): (s: string)
    ensures |s| >= 1 && AllDigits(s)
  {
    if n < 10 then [DigitChar(n)] else Decimal(n / 10) + [DigitChar(n % 10)]
  }

  /** The number a string of decimal digits denotes. */
  function DecimalValue(s: string): nat
    requires AllDigits(s)
  {
    if s == [] then 0 else DecimalValue(s[..|s| - 1]) * 10 + (s[|s| - 1] as int - '0' as int)
  }

  lemma {:induction false} DecimalRoundTrip(n: nat)
    ensures DecimalValue(Decimal(n)) == n
  {
    if n >= 10 {
      DecimalRoundTrip(n / 10);
      var s := Decimal(n);
      assert s[..|s| - 1] == Decimal(n / 10);
    }
  }

  function Pow10(k: nat): nat
  {
    if k == 0 then 1 else 10 * Pow10(k - 1)
  }

  /** A number below 10^k has at most k digits. */
  lemma {:induction false} DecimalLength(n: nat, k: nat)
    requires k >= 1 && n < Pow10(k)
    ensures |Decimal(n)| <= k
  {
    if n >= 10 {
      DecimalLength(n / 10, k - 1);
    }
  }

  /** `"{:0wd}".format`: the digits left-padded with zeros to `width`. */
  function ZeroPad(s: string, width: nat): (r: string)
    ensures |r| == if |s| >= width then |s| else width
  {
    if |s| >= width then s else seq(width - |s|, _ => '0') + s
  }

  lemma {:induction false} LeadingZeros(k: nat, s: string)
    requires AllDigits(s)
    ensures AllDigits(seq(k, _ => '0') + s)
    ensures DecimalValue(seq(k, _ => '0') + s) == DecimalValue(s)
  {
    var z := seq(k, _ => '0');
    if s == [] {
      assert z + s == z;
      ZerosValue(k);
    } else {
      var p := s[..|s| - 1];
      assert (z + s)[..|z + s| - 1] == z + p;
      LeadingZeros(k, p);
    }
  }

  lemma {:induction false} ZerosValue(k: nat)
    ensures DecimalValue(seq(k, _ => '0')) == 0
  {
    if k > 0 {
      assert seq(k, _ => '0')[..k - 1] == seq(k - 1, _ => '0');
      ZerosValue(k - 1);
    }
  }

  /** The IMSI of a UE: `ImsiBase + ueId` in 15 zero-padded digits. */
  function Imsi(ueId: nat): string
  {
    ZeroPad(Decimal(ImsiBase + ueId), 15)
  }

  /** The IMSI reads back as `ImsiBase + ueId`, so different UEs get
      different IMSIs. */
  lemma ImsiRoundTrip(ueId: nat)
    ensures AllDigits(Imsi(ueId)) && DecimalValue(Imsi(ueId)) == ImsiBase + ueId
  {
    var n := ImsiBase + ueId;
    var d := Decimal(n);
    DecimalRoundTrip(n);
    if |d| < 15 {
      LeadingZeros(15 - |d|, d);
    }
  }

  /** The IMSI has exactly 15 digits while `ImsiBase + ueId < 10^15`. */
  lemma ImsiLength(ueId: nat)
    requires ImsiBase + ueId < Pow10(15)
    ensures |Imsi(ueId)| == 15
  {
    DecimalLength(ImsiBase + ueId, 15);
  }

  /** The traffic events of the intervals, in order. */
  function TrafficEvents(kind: EventKind, cycle: seq<Interval>): (r: seq<Event>)
    ensures |r| == |cycle|
    ensures forall k :: 0 <= k < |cycle| ==> r[k] == Traffic(kind, cycle[k].0, cycle[k].1)
  {
    if cycle == [] then []
    else TrafficEvents(kind, cycle[..|cycle| - 1]) + [Traffic(kind, cycle[|cycle| - 1].0, cycle[|cycle| - 1].1)]
  }

  /** The interval of each traffic event. */
  function IntervalsOf(events: seq<Event>): seq<Interval>
  {
    if events == [] then []
    else
      var e := events[|events| - 1];
      IntervalsOf(events[..|events| - 1]) + (if e.Traffic? then [(e.startTime, e.endTime)] else [])
  }

  /** A UE's event list: power on at 0, one traffic event per interval of its
      lifecycle in order, power off at the horizon. */
  function SimEvents(kind: EventKind, horizon: int, cycle: seq<Interval>): (r: seq<Event>)
    ensures |r| == |cycle| + 2
    ensures r[0] == PowerOn(0) && r[|r| - 1] == PowerOff(horizon)
    ensures forall k :: 0 <= k < |cycle| ==> r[k + 1] == Traffic(kind, cycle[k].0, cycle[k].1)
  {
    [PowerOn(0)] + TrafficEvents(kind, cycle) + [PowerOff(horizon)]
  }

  /** The lifecycle can be read back from the event list. */
  lemma EventsRoundTrip(kind: EventKind, horizon: int, cycle: seq<Interval>)
    ensures IntervalsOf(SimEvents(kind, horizon, cycle)) == cycle
  {
    var t := TrafficEvents(kind, cycle);
    var e := SimEvents(kind, horizon, cycle);
    assert e[..|e| - 1] == [PowerOn(0)] + t;
    TrafficRoundTrip(kind, cycle);
    PowerOnFirst(t);
  }

  lemma {:induction false} TrafficRoundTrip(kind: EventKind, cycle: seq<Interval>)
    ensures IntervalsOf(TrafficEvents(kind, cycle)) == cycle
  {
    if cycle != [] {
      var p := cycle[..|cycle| - 1];
      var t := TrafficEvents(kind, cycle);
      assert t[..|t| - 1] == TrafficEvents(kind, p);
      TrafficRoundTrip(kind, p);
    }
  }

  lemma {:induction false} PowerOnFirst(t: seq<Event>)
    ensures IntervalsOf([PowerOn(0)] + t) == IntervalsOf(t)
  {
    if t != [] {
      var s := [PowerOn(0)] + t;
      assert s[..|s| - 1] == [PowerOn(0)] + t[..|t| - 1];
      PowerOnFirst(t[..|t| - 1]);
    } else {
      assert [PowerOn(0)] + t == [PowerOn(0)];
    }
  }

  /** The event loop of `ue_configure_alt`: power on at 0, one traffic
      event per interval of the cycle, power off at the horizon. */
  method LifecycleEvents(kind: EventKind, horizon: int, cycle: seq<Interval>)
    returns (events: seq<Event>)
    ensures events == SimEvents(kind, horizon, cycle)
  {
    events := [PowerOn(0)];
    for k := 0 to |cycle|
      invariant events == [PowerOn(0)] + TrafficEvents(kind, cycle[..k])
    {
      assert cycle[..k + 1][..k] == cycle[..k];
      events := events + [Traffic(kind, cycle[k].0, cycle[k].1)];
    }
    assert cycle[..|cycle|] == cycle;
    events := events + [PowerOff(horizon)];
  }

  /** The generator's UE counter, the attribute `config_template.ue_id`. */
  class UeConfigurator {
    /** The identifier handed out last; -1 before the first call. */
    var lastId: int

    predicate Valid()
      reads this
    {
      lastId >= -1
    }

    constructor ()
      ensures Valid() && lastId == -1
    {
      lastId := -1;
    }

    /** `config_template`: the next UE identifier, and the UE's list and
        database entries without events. */
    method ConfigTemplate(channelSim: bool) returns (ue: UeEntry, db: DbEntry)
      requires Valid()
      modifies this
      ensures Valid() && lastId == old(lastId) + 1
      ensures ue == UeEntry(lastId, Imsi(lastId), Decimal(ImeisvBase + lastId), "xor", channelSim, SimKey, 8, 4, [])
      ensures db == DbEntry(Imsi(lastId), SimKey, 36865, "000000000000", "xor")
    {
      lastId := lastId + 1;
      var ueId: nat := lastId;
      var imsi := Imsi(ueId);
      var imeisv := Decimal(ImeisvBase + ueId);
      ue := UeEntry(ueId, imsi, imeisv, "xor", channelSim, SimKey, 8, 4, []);
      db := DbEntry(imsi, SimKey, 36865, "000000000000", "xor");
    }

    /** `ue_configure_alt`: for a supported protocol, a fresh UE whose events
        follow its lifecycle; `None` (the empty dictionaries) for any other
        protocol, without using an identifier. */
    method ConfigureAlt(proto: string, horizon: int, cycle: seq<Interval>)
      returns (r: Option<(UeEntry, DbEntry, bool)>)
      requires Valid()
      modifies this
      ensures Valid()
      ensures ProtoHandler(proto).None? ==> r.None? && lastId == old(lastId)
      ensures ProtoHandler(proto).Some? ==>
        && lastId == old(lastId) + 1
        && r.Some?
        && r.value.2 == ProtoHandler(proto).value.1
        && r.value.0 == UeEntry(lastId, Imsi(lastId), Decimal(ImeisvBase + lastId), "xor", r.value.2, SimKey, 8, 4,
                                SimEvents(ProtoHandler(proto).value.0, horizon, cycle))
        && r.value.1 == DbEntry(Imsi(lastId), SimKey, 36865, "000000000000", "xor")
    {
      var handler := ProtoHandler(proto);
      if handler.None? {
        return None;
      }
      var (kind, channelSim) := handler.value;
      var ue, db := ConfigTemplate(channelSim);
      var events := LifecycleEvents(kind, horizon, cycle);
      return Some((ue.(simEvents := events), db, channelSim));
    }
  }
}
