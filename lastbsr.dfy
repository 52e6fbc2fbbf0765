/**
 * The buffer-status table of `last_bsr`: MAC header lines are scanned newest
 * first, and each active user's downlink and uplink slots keep the first
 * buffer-status value reported for them inside a one-second window. Slots
 * with no report become 0. Matching a line against the MAC/BSR pattern is
 * abstracted: a line carries its time and, when it matches, the report.
 */
module LastBsr {
  import opened Wrappers

  datatype Direction = DL | UL

  /** A matching line's groups: the direction, the UE identifier read from
      hex, and the `b=` value. */
  datatype BsrReport = BsrReport(direction: Direction, ueId: int, b: nat)

  /** A MAC header line: its time of day in milliseconds and, if it matches
      the pattern, what it reports. */
  datatype MacHeader = MacHeader(timeMs: int, report: Option<BsrReport>)

  /** The downlink and uplink values of one user, `None` while unreported. */
  type Slots = (Option<nat>, Option<nat>)

  function Slot(s: Slots, d: Direction): Option<nat>
  {
    if d == DL then s.0 else s.1
  }

  function SetSlot(s: Slots, d: Direction, b: nat): (r: Slots)
    ensures Slot(r, d) == Some(b)
    ensures forall e :: e != d ==> Slot(r, e) == Slot(s, e)
  {
    if d == DL then (Some(b), s.1) else (s.0, Some(b))
  }

  /** Python's `list.index`: the first position of `x`, `None` for the `ValueError`. */
  function Position(s: seq<int>, x: int): (r: Option<nat>)
    ensures r.Some? ==> r.value < |s| && s[r.value] == x && forall j :: 0 <= j < r.value ==> s[j] != x
    ensures r.None? ==> forall j :: 0 <= j < |s| ==> s[j] != x
  {
    if s == [] then None
    else if s[0] == x then Some(0)
    else match Position(s[1..], x)
      case None => None
      case Some(k) => Some(k + 1)
  }

  /** The user slot a line reports on, if any. */
  function Target(h: MacHeader, users: seq<int>): Option<(nat, Direction, nat)>
  {
    if h.report.None? then None
    else match Position(users, h.report.value.ueId)
      case None => None
      case Some(u) => Some((u, h.report.value.direction, h.report.value.b))
  }

  function NoReports(n: nat): (t: seq<Slots>)
    ensures |t| == n && forall u :: 0 <= u < n ==> t[u] == (None, None)
  {
    seq(n, _ => (None, None))
  }

  /** One line's effect on the table: an empty slot takes the reported value. */
  function Record(t: seq<Slots>, users: seq<int>, h: MacHeader): (r: seq<Slots>)
    requires |t| == |users|
    ensures |r| == |users|
  {
    match Target(h, users)
    case None => t
    case Some((u, d, b)) => if Slot(t[u], d).None? then t[u := SetSlot(t[u], d, b)] else t
  }

  /** The table after the given lines, in order. */
  function Fill(lines: seq<MacHeader>, users: seq<int>): (t: seq<Slots>)
    ensures |t| == |users|
  {
    if lines == [] then NoReports(|users|)
    else Record(Fill(lines[..|lines| - 1], users), users, lines[|lines| - 1])
  }

  /** The value of the first line reporting on user `u` in direction `d`. */
  function FirstReport(lines: seq<MacHeader>, users: seq<int>, u: nat, d: Direction): Option<nat>
  {
    if lines == [] then None
    else match Target(lines[0], users)
      case Some((v, e, b)) => if v == u && e == d then Some(b) else FirstReport(lines[1..], users, u, d)
      case None => FirstReport(lines[1..], users, u, d)
  }

  predicate Full(t: seq<Slots>)
  {
    forall u :: 0 <= u < |t| ==> t[u].0.Some? && t[u].1.Some?
  }

  function OrZero(x: Option<nat>): nat
  {
    if x.Some? then x.value else 0
  }

  /** The final table: unreported slots become 0. */
  function Defaults(t: seq<Slots>): (r: seq<(nat, nat)>)
    ensures |r| == |t|
    ensures forall u :: 0 <= u < |t| ==> r[u] == (OrZero(t[u].0), OrZero(t[u].1))
  {
    seq(|t|, u requires 0 <= u < |t| => (OrZero(t[u].0), OrZero(t[u].1)))
  }

  /** Where the scan stops: the first line for which `stop(first, current)`
      holds, or the end. */
  function WindowEnd(lines: seq<MacHeader>, stop: (int, int) -> bool): (w: nat)
    ensures w <= |lines|
    ensures forall i :: 0 <= i < w ==> !stop(lines[0].timeMs, lines[i].timeMs)
    ensures w < |lines| ==> stop(lines[0].timeMs, lines[w].timeMs)
  {
    if lines == [] then 0 else FirstStop(lines, lines[0].timeMs, stop, 0)
  }

  function FirstStop(lines: seq<MacHeader>, first: int, stop: (int, int) -> bool, from: nat): (w: nat)
    requires from <= |lines|
    requires forall i :: 0 <= i < from ==> !stop(first, lines[i].timeMs)
    ensures from <= w <= |lines|
    ensures forall i :: 0 <= i < w ==> !stop(first, lines[i].timeMs)
    ensures w < |lines| ==> stop(first, lines[w].timeMs)
    decreases |lines| - from
  {
    if from == |lines| then from
    else if stop(first, lines[from].timeMs) then from
    else FirstStop(lines, first, stop, from + 1)
  }

  /** The window test as written: the current line is more than a second
      AFTER the first. */
  function AsWrittenStop(first: int, current: int): bool
  {
    current - first > 1000
  }

  /** The window test as intended for lines read newest first: the current
      line is more than a second BEFORE the first. */
  function IntendedStop(first: int, current: int): bool
  {
    first - current > 1000
  }

  /** The scan of `last_bsr` with the window test `stop`. The table is
      filled line by line, and the scan also ends as soon as every slot
      is filled. */
  method ScanBsr(macHeaders: seq<MacHeader>, activeUsers: seq<int>, stop: (int, int) -> bool)
    returns (bsr: seq<(nat, nat)>)
    ensures bsr == Defaults(Fill(macHeaders[..WindowEnd(macHeaders, stop)], activeUsers))
  {
    var t := NoReports(|activeUsers|);
    ghost var w := WindowEnd(macHeaders, stop);
    var i := 0;
    while i < |macHeaders|
      invariant i <= w
      invariant t == Fill(macHeaders[..i], activeUsers)
      decreases |macHeaders| - i
    {
      if stop(macHeaders[0].timeMs, macHeaders[i].timeMs) {
        break;
      }
      assert macHeaders[..i + 1][..i] == macHeaders[..i];
      var updated := false;
      var h := macHeaders[i];
      if h.report.Some? {
        var pos := Position(activeUsers, h.report.value.ueId);
        if pos.Some? && Slot(t[pos.value], h.report.value.direction).None? {
          t := t[pos.value := SetSlot(t[pos.value], h.report.value.direction, h.report.value.b)];
          updated := true;
        }
      }
      i := i + 1;
      if updated && Full(t) {
        FullStaysFull(macHeaders, activeUsers, i, w);
        break;
      }
    }
    bsr := Defaults(t);
  }

  /** Python's `last_bsr` as written. */
  method LastBsrAsWritten(macHeaders: seq<MacHeader>, activeUsers: seq<int>) returns (bsr: seq<(nat, nat)>)
    ensures bsr == Defaults(Fill(macHeaders[..WindowEnd(macHeaders, AsWrittenStop)], activeUsers))
  {
    bsr := ScanBsr(macHeaders, activeUsers, AsWrittenStop);
  }

  /** Python's `last_bsr` with the window test corrected. */
  method LastBsrOf(macHeaders: seq<MacHeader>, activeUsers: seq<int>) returns (bsr: seq<(nat, nat)>)
    ensures bsr == Defaults(Fill(macHeaders[..WindowEnd(macHeaders, IntendedStop)], activeUsers))
  {
    bsr := ScanBsr(macHeaders, activeUsers, IntendedStop);
  }

  /** A full table no longer changes, so stopping the scan early does not
      change the result. */
  lemma {:induction false} FullStaysFull(lines: seq<MacHeader>, users: seq<int>, i: nat, w: nat)
    requires i <= w <= |lines|
    requires Full(Fill(lines[..i], users))
    ensures Fill(lines[..w], users) == Fill(lines[..i], users)
    decreases w
  {
    if w > i {
      FullStaysFull(lines, users, i, w - 1);
      assert lines[..w][..w - 1] == lines[..w - 1];
    }
  }

  /** The first report of a longer run is that of the shorter run, or the
      last line's when the shorter run has none. */
  lemma {:induction false} FirstReportSnoc(lines: seq<MacHeader>, users: seq<int>, h: MacHeader, u: nat, d: Direction)
    ensures FirstReport(lines + [h], users, u, d) ==
      if FirstReport(lines, users, u, d).Some? then FirstReport(lines, users, u, d)
      else if Target(h, users).Some? && Target(h, users).value.0 == u && Target(h, users).value.1 == d
      then Some(Target(h, users).value.2)
      else None
  {
    if lines == [] {
      assert ([] + [h])[1..] == [];
    } else {
      assert (lines + [h])[0] == lines[0];
      assert (lines + [h])[1..] == lines[1..] + [h];
      FirstReportSnoc(lines[1..], users, h, u, d);
    }
  }

  /** Every slot of the table holds the first value reported for it. */
  lemma {:induction false} FillIsFirstReport(lines: seq<MacHeader>, users: seq<int>, u: nat)
    requires u < |users|
    ensures Fill(lines, users)[u].0 == FirstReport(lines, users, u, DL)
    ensures Fill(lines, users)[u].1 == FirstReport(lines, users, u, UL)
  {
    if lines != [] {
      var prefix := lines[..|lines| - 1];
      var h := lines[|lines| - 1];
      FillIsFirstReport(prefix, users, u);
      assert lines == prefix + [h];
      FirstReportSnoc(prefix, users, h, u, DL);
      FirstReportSnoc(prefix, users, h, u, UL);
    }
  }

  /** Lines whose times never exceed the first line's, as when they are
      read newest first. */
  predicate NewestFirst(lines: seq<MacHeader>)
  {
    forall i, j :: 0 <= i < j < |lines| ==> lines[j].timeMs <= lines[i].timeMs
  }

  /** As written, the window test never stops a newest-first scan: every line
      is considered, however old. */
  lemma AsWrittenWindowIsEverything(lines: seq<MacHeader>)
    requires NewestFirst(lines)
    ensures WindowEnd(lines, AsWrittenStop) == |lines|
  {
  }

  /** With the corrected test, a newest-first scan considers exactly the
      lines at most one second older than the newest. */
  lemma IntendedWindowIsLastSecond(lines: seq<MacHeader>, i: nat)
    requires NewestFirst(lines) && i < |lines|
    ensures i < WindowEnd(lines, IntendedStop) <==> lines[0].timeMs - lines[i].timeMs <= 1000
  {
    var w := WindowEnd(lines, IntendedStop);
    if i >= w {
      assert lines[i].timeMs <= lines[w].timeMs;
    }
  }

  /** A report four seconds older than the newest line: as written it fills
      the uplink slot, with the corrected window it is ignored. */
  lemma StaleReportCounterexample()
    ensures
      var lines := [MacHeader(10000, None), MacHeader(6000, Some(BsrReport(UL, 1, 7)))];
      && NewestFirst(lines)
      && Defaults(Fill(lines[..WindowEnd(lines, AsWrittenStop)], [1])) == [(0, 7)]
      && Defaults(Fill(lines[..WindowEnd(lines, IntendedStop)], [1])) == [(0, 0)]
  {
    var lines := [MacHeader(10000, None), MacHeader(6000, Some(BsrReport(UL, 1, 7)))];
    assert WindowEnd(lines, AsWrittenStop) == 2;
    assert WindowEnd(lines, IntendedStop) == 1;
    assert lines[..2] == lines && lines[..2][..1] == lines[..1];
    assert Fill(lines[..1], [1]) == [(None, None)];
    assert Position([1], 1) == Some(0);
  }
}
