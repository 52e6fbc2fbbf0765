/**
 * The log flattener's searches and line filters. Log files are known by the
 * time stamps in their names and intervals by their end points, all as
 * ordered integers. A log line is seen through what the filters test on it:
 * whether it starts with a time stamp (and then its time and whether it
 * carries the IP marker), or else whether it is blank or a `#` comment.
 */
module LogFlatten {
  import opened Wrappers

  // ---------------------------------------------------------------------
  // Time stamps

  /** `math.ceil(ms / 1000)` for a whole number of milliseconds: the
      smallest number of seconds covering `ms`. */
  function MsToSecondsCeil(ms: int): (s: int)
    ensures (s - 1) * 1000 < ms <= s * 1000
  {
    if ms % 1000 == 0 then ms / 1000 else ms / 1000 + 1
  }

  predicate IsDigit(c: char)
  {
    '0' <= c <= '9'
  }

  /** A clock time `HH:MM:SS`: three pairs of digits separated by colons. */
  predicate IsClock(s: string)
  {
    && |s| == 8
    && IsDigit(s[0]) && IsDigit(s[1]) && s[2] == ':'
    && IsDigit(s[3]) && IsDigit(s[4]) && s[5] == ':'
    && IsDigit(s[6]) && IsDigit(s[7])
  }

  /** The line begins with `HH:MM:SS.mmm`. */
  predicate StartsWithStamp(line: string)
  {
    && |line| >= 12
    && IsClock(line[..8]) && line[8] == '.'
    && IsDigit(line[9]) && IsDigit(line[10]) && IsDigit(line[11])
  }

  /** `extract_timestamp`: the clock time the line starts with, prefixed by
      the file date, with the milliseconds dropped; `None` for a line that
      does not start with a time stamp. */
  function ExtractTimestamp(line: string, filedate: string): (r: Option<string>)
    ensures r.Some? <==> StartsWithStamp(line)
    ensures r.Some? ==> r.value == filedate + "." + line[..8] && IsClock(r.value[|filedate| + 1..])
  {
    if StartsWithStamp(line) then
      Some(filedate + "." + line[..2] + ":" + line[3..5] + ":" + line[6..8])
    else None
  }

  /** Reading a stamped line gives back the clock time it was written with,
      whatever its milliseconds and the rest of the line. */
  lemma ClockRoundTrip(clock: string, millis: string, rest: string, filedate: string)
    requires IsClock(clock)
    requires |millis| == 3 && IsDigit(millis[0]) && IsDigit(millis[1]) && IsDigit(millis[2])
    ensures ExtractTimestamp(clock + "." + millis + rest, filedate) == Some(filedate + "." + clock)
  {
    var line := clock + "." + millis + rest;
    assert line[..8] == clock;
    assert line[8] == '.' && line[9] == millis[0] && line[10] == millis[1] && line[11] == millis[2];
  }

  // ---------------------------------------------------------------------
  // Binary search for the log file to start from

  predicate Sorted(ts: seq<int>)
  {
    forall i, j :: 0 <= i < j < |ts| ==> ts[i] <= ts[j]
  }

  /** How many of the time stamps are earlier than `target`. */
  function CountBelow(ts: seq<int>, target: int): (n: nat)
    ensures n <= |ts|
  {
    if ts == [] then 0
    else CountBelow(ts[..|ts| - 1], target) + (if ts[|ts| - 1] < target then 1 else 0)
  }

  /** In a sorted list, the stamps below `target` are exactly a prefix. */
  lemma {:induction false} CountBelowSorted(ts: seq<int>, target: int, k: nat)
    requires Sorted(ts) && k <= |ts|
    requires forall i :: 0 <= i < k ==> ts[i] < target
    requires forall i :: k <= i < |ts| ==> target <= ts[i]
    ensures CountBelow(ts, target) == k
  {
    if ts != [] {
      var prefix := ts[..|ts| - 1];
      assert Sorted(prefix);
      if k < |ts| {
        CountBelowSorted(prefix, target, k);
      } else {
        CountBelowSorted(prefix, target, k - 1);
      }
    }
  }

  /** `find_latest_file_before_time`, over the files' time stamps: the
      position of the last file stamped before `target`, the first file when
      none is, and `None` for no files. */
  method FindLatestFileBefore(logFiles: seq<int>, target: int) returns (latest: Option<nat>)
    ensures latest.None? <==> logFiles == []
    ensures latest.Some? ==> latest.value < |logFiles|
    ensures latest.Some? ==> latest.value == 0 || logFiles[latest.value] < target
    ensures Sorted(logFiles) && logFiles != [] ==>
      latest == Some(if CountBelow(logFiles, target) == 0 then 0 else CountBelow(logFiles, target) - 1)
  {
    var left, right := 0, |logFiles| - 1;
    latest := if logFiles == [] then None else Some(0);
    while left <= right
      invariant 0 <= left <= right + 1 <= |logFiles|
      invariant logFiles == [] ==> latest == None
      invariant logFiles != [] ==> latest == Some(if left == 0 then 0 else left - 1)
      invariant 0 < left ==> logFiles[left - 1] < target
      invariant Sorted(logFiles) ==> forall i :: 0 <= i < left ==> logFiles[i] < target
      invariant Sorted(logFiles) ==> forall i :: right < i < |logFiles| ==> target <= logFiles[i]
      decreases right - left
    {
      var mid := (left + right) / 2;
      if logFiles[mid] < target {
        latest := Some(mid);
        left := mid + 1;
      } else {
        right := mid - 1;
      }
    }
    if Sorted(logFiles) {
      CountBelowSorted(logFiles, target, left);
    }
  }

  /** In a sorted list, the position found is that of the last file stamped
      before `target`: every earlier file is too, no later file is. */
  lemma LatestIsLast(logFiles: seq<int>, target: int, i: nat)
    requires Sorted(logFiles) && i < |logFiles|
    ensures logFiles[i] < target <==> i < CountBelow(logFiles, target)
  {
    var k := CountBelow(logFiles, target);
    var j := 0;
    while j < |logFiles| && logFiles[j] < target
      invariant j <= |logFiles|
      invariant forall m :: 0 <= m < j ==> logFiles[m] < target
      decreases |logFiles| - j
    {
      j := j + 1;
    }
    CountBelowSorted(logFiles, target, j);
  }

  // ---------------------------------------------------------------------
  // Searches over time intervals

  /** A closed interval of times. */
  type Interval = (int, int)

  predicate Contains(iv: Interval, t: int)
  {
    iv.0 <= t <= iv.1
  }

  /** Intervals each non-empty and each ending before the next one begins. */
  predicate SortedDisjoint(ivs: seq<Interval>)
  {
    && (forall i :: 0 <= i < |ivs| ==> ivs[i].0 <= ivs[i].1)
    && (forall i, j :: 0 <= i < j < |ivs| ==> ivs[i].1 < ivs[j].0)
  }

  /** How many intervals end before `t`. */
  function CountBefore(ivs: seq<Interval>, t: int): (n: nat)
    ensures n <= |ivs|
  {
    if ivs == [] then 0
    else CountBefore(ivs[..|ivs| - 1], t) + (if ivs[|ivs| - 1].1 < t then 1 else 0)
  }

  lemma {:induction false} CountBeforeSorted(ivs: seq<Interval>, t: int, k: nat)
    requires SortedDisjoint(ivs) && k <= |ivs|
    requires forall i :: 0 <= i < k ==> ivs[i].1 < t
    requires forall i :: k <= i < |ivs| ==> t < ivs[i].0
    ensures CountBefore(ivs, t) == k
  {
    if ivs != [] {
      var prefix := ivs[..|ivs| - 1];
      assert SortedDisjoint(prefix);
      if k < |ivs| {
        CountBeforeSorted(prefix, t, k);
      } else {
        CountBeforeSorted(prefix, t, k - 1);
      }
    }
  }

  /** `find_interval_index0`: a binary search that answers `(i, true)` for an
      interval containing `t`, and otherwise `(low, false)` where, for sorted
      disjoint intervals, `low` counts the intervals before `t`. */
  method FindIntervalIndex0(t: int, ivs: seq<Interval>) returns (index: int, found: bool)
    ensures found ==> 0 <= index < |ivs| && Contains(ivs[index], t)
    ensures !found ==> 0 <= index <= |ivs|
    ensures SortedDisjoint(ivs) ==> (found <==> exists i :: 0 <= i < |ivs| && Contains(ivs[i], t))
    ensures SortedDisjoint(ivs) && !found ==> index == CountBefore(ivs, t)
  {
    var low, high := 0, |ivs| - 1;
    while low <= high
      invariant 0 <= low <= high + 1 <= |ivs|
      invariant SortedDisjoint(ivs) ==> forall i :: 0 <= i < low ==> ivs[i].1 < t
      invariant SortedDisjoint(ivs) ==> forall i :: high < i < |ivs| ==> t < ivs[i].0
      decreases high - low
    {
      var mid := (low + high) / 2;
      var (start, end) := ivs[mid];
      if start <= t <= end {
        return mid, true;
      } else if t < start {
        high := mid - 1;
      } else {
        low := mid + 1;
      }
    }
    if SortedDisjoint(ivs) {
      CountBeforeSorted(ivs, t, low);
    }
    return low, false;
  }

  /** `find_interval_indices`: the positions of all intervals containing `t`,
      in ascending order. */
  method FindIntervalIndices(t: int, ivs: seq<Interval>) returns (indices: seq<nat>)
    ensures forall k :: 0 <= k < |indices| ==> indices[k] < |ivs| && Contains(ivs[indices[k]], t)
    ensures forall i :: 0 <= i < |ivs| && Contains(ivs[i], t) ==> i in indices
    ensures forall k, l :: 0 <= k < l < |indices| ==> indices[k] < indices[l]
  {
    indices := [];
    for i := 0 to |ivs|
      invariant forall k :: 0 <= k < |indices| ==> indices[k] < i && Contains(ivs[indices[k]], t)
      invariant forall j :: 0 <= j < i && Contains(ivs[j], t) ==> j in indices
      invariant forall k, l :: 0 <= k < l < |indices| ==> indices[k] < indices[l]
    {
      if Contains(ivs[i], t) {
        indices := indices + [i];
      }
    }
  }

  /** Sorted disjoint intervals share no time, so at most one index is
      yielded and it is the one the binary search finds. */
  lemma OneContainingInterval(ivs: seq<Interval>, t: int, i: nat, j: nat)
    requires SortedDisjoint(ivs) && i < |ivs| && j < |ivs|
    requires Contains(ivs[i], t) && Contains(ivs[j], t)
    ensures i == j
  {
  }

  // ---------------------------------------------------------------------
  // Line filters

  /** A log line: a header starting with a time stamp (its time, and whether
      it carries the IP marker), or a body line (and whether it is blank or a
      `#` comment). `text` stands for the line itself. */
  datatype LogLine =
    | Header(time: int, isIp: bool, text: string)
    | Body(blank: bool, text: string)

  /** Payload lines kept after an IP header, beyond the first. */
  const MaxPayloadLines: nat := 3

  /** One IP packet in this many is kept. */
  const PacketSparsity: nat := 1

  predicate IsIpHeader(x: LogLine)
  {
    x.Header? && x.isIp
  }

  predicate IsComment(x: LogLine)
  {
    x.Body? && x.blank
  }

  /** How many IP headers the lines hold. */
  function IpHeaderCount(lines: seq<LogLine>): (n: nat)
    ensures n <= |lines|
  {
    if lines == [] then 0
    else IpHeaderCount(lines[..|lines| - 1]) + (if IsIpHeader(lines[|lines| - 1]) then 1 else 0)
  }

  /** The headers of the lines that are not IP headers, in order. */
  function OtherHeaders(lines: seq<LogLine>): (r: seq<LogLine>)
    ensures forall k :: 0 <= k < |r| ==> r[k].Header? && !r[k].isIp
  {
    if lines == [] then []
    else
      var x := lines[|lines| - 1];
      OtherHeaders(lines[..|lines| - 1]) + (if x.Header? && !x.isIp then [x] else [])
  }

  /** Reference description of the kept payload: `Some(k)` when the latest
      header of `w` is an IP header followed by `k` kept non-blank lines,
      `None` when the latest header is not an IP header or there is none. */
  function Open(w: seq<LogLine>): (o: Option<nat>)
    ensures o.Some? ==> o.value <= MaxPayloadLines
  {
    if w == [] then None
    else
      var x := w[|w| - 1];
      var o := Open(w[..|w| - 1]);
      if x.Header? then (if x.isIp then Some(0) else None)
      else if x.blank || o.None? || o.value == MaxPayloadLines then o
      else Some(o.value + 1)
  }

  /** The lines of `w` a filter keeps: every IP header, and the first
      `MaxPayloadLines` non-blank lines after it up to the next header. */
  function KeptLines(w: seq<LogLine>): seq<LogLine>
  {
    if w == [] then []
    else
      var x := w[|w| - 1];
      var o := Open(w[..|w| - 1]);
      KeptLines(w[..|w| - 1])
        + (if IsIpHeader(x) || (x.Body? && !x.blank && o.Some? && o.value < MaxPayloadLines) then [x] else [])
  }

  /** Non-blank lines since the latest header of the output, or -1 before
      any header. */
  function Tail(ip: seq<LogLine>): int
  {
    if ip == [] then -1
    else if ip[|ip| - 1].Header? then 0
    else if Tail(ip[..|ip| - 1]) < 0 then -1
    else Tail(ip[..|ip| - 1]) + 1
  }

  /** Output made of blocks: an IP header followed by at most
      `MaxPayloadLines` non-blank body lines. */
  predicate Blocked(ip: seq<LogLine>)
  {
    ip == [] ||
    (&& Blocked(ip[..|ip| - 1])
     && var x := ip[|ip| - 1];
        IsIpHeader(x) || (x.Body? && !x.blank && 0 <= Tail(ip[..|ip| - 1]) < MaxPayloadLines))
  }

  /** The kept lines form blocks, and the block still open has as many body
      lines as `Open` says. */
  lemma {:induction false} KeptLinesBlocked(w: seq<LogLine>)
    ensures Blocked(KeptLines(w))
    ensures Open(w).Some? ==> Tail(KeptLines(w)) == Open(w).value
  {
    if w != [] {
      var p := w[..|w| - 1];
      KeptLinesBlocked(p);
      var x := w[|w| - 1];
      if IsIpHeader(x) || (x.Body? && !x.blank && Open(p).Some? && Open(p).value < MaxPayloadLines) {
        var kept := KeptLines(p) + [x];
        assert KeptLines(w) == kept;
        assert kept[..|kept| - 1] == KeptLines(p);
        assert Tail(kept) == if x.Header? then 0 else Tail(KeptLines(p)) + 1;
        assert Blocked(kept);
      } else {
        assert KeptLines(w) == KeptLines(p);
      }
    }
  }

  /** What blocks mean line by line: the output starts with an IP header,
      holds no blank or comment line and no header other than IP headers,
      and its last block has at most `MaxPayloadLines` lines after the header. */
  lemma {:induction false} BlockedShape(ip: seq<LogLine>)
    requires Blocked(ip)
    ensures ip != [] ==> IsIpHeader(ip[0]) && 0 <= Tail(ip)
    ensures Tail(ip) <= MaxPayloadLines
    ensures forall k :: 0 <= k < |ip| ==> IsIpHeader(ip[k]) || (ip[k].Body? && !ip[k].blank)
  {
    if ip != [] {
      var p := ip[..|ip| - 1];
      BlockedShape(p);
      assert forall k :: 0 <= k < |p| ==> ip[k] == p[k];
    }
  }

  // extract_entries_from_file

  /** The loop state of `extract_entries_from_file`. */
  datatype Filter = Filter(
    append: bool, ignore: bool, payloadLines: nat, packetCount: nat,
    ipLines: seq<LogLine>, macHeaders: seq<LogLine>)

  /** One line of `extract_entries_from_file`: the first header stamped
      within [startTime, endTime] switches appending on; from then on IP
      headers open a payload, other headers are recorded and close it. */
  function EntryStep(s: Filter, x: LogLine, startTime: int, endTime: int): Filter
  {
    var s1 := if !s.append && x.Header? && startTime <= x.time <= endTime then s.(append := true) else s;
    if !s1.append then s1
    else
      var s2 :=
        if x.Header? && x.isIp then
          s1.(payloadLines := 0, packetCount := s1.packetCount + 1,
              ignore := (s1.packetCount + 1) % PacketSparsity != 0)
        else if x.Header? then s1.(ignore := true, macHeaders := s1.macHeaders + [x])
        else s1;
      if s2.ignore || IsComment(x) || s2.payloadLines > MaxPayloadLines then s2
      else s2.(ipLines := s2.ipLines + [x], payloadLines := s2.payloadLines + 1)
  }

  /** The state after the given lines. */
  function Entries(lines: seq<LogLine>, startTime: int, endTime: int): Filter
  {
    if lines == [] then Filter(false, false, 0, 0, [], [])
    else EntryStep(Entries(lines[..|lines| - 1], startTime, endTime), lines[|lines| - 1], startTime, endTime)
  }

  predicate InWindow(x: LogLine, startTime: int, endTime: int)
  {
    x.Header? && startTime <= x.time <= endTime
  }

  /** The window's lines after one more line: nothing until a header stamped
      within the window, every line from then on. */
  function Extend(w: seq<LogLine>, x: LogLine, startTime: int, endTime: int): seq<LogLine>
  {
    if w != [] || InWindow(x, startTime, endTime) then w + [x] else []
  }

  /** The lines from the first header stamped within the window on. */
  function Windowed(lines: seq<LogLine>, startTime: int, endTime: int): (w: seq<LogLine>)
    ensures |w| <= |lines|
  {
    if lines == [] then []
    else Extend(Windowed(lines[..|lines| - 1], startTime, endTime), lines[|lines| - 1], startTime, endTime)
  }

  /** `extract_entries_from_file` over the lines of the file. */
  method ExtractEntries(lines: seq<LogLine>, startTime: int, endTime: int)
    returns (ipLines: seq<LogLine>, macHeaders: seq<LogLine>)
    ensures ipLines == Entries(lines, startTime, endTime).ipLines
    ensures macHeaders == Entries(lines, startTime, endTime).macHeaders
  {
    ipLines, macHeaders := [], [];
    var payloadLines: nat, ignoreContent, appendMode, packetCount: nat := 0, false, false, 0;
    for i := 0 to |lines|
      invariant Filter(appendMode, ignoreContent, payloadLines, packetCount, ipLines, macHeaders)
        == Entries(lines[..i], startTime, endTime)
    {
      var line := lines[i];
      assert lines[..i + 1][..i] == lines[..i];
      if !appendMode {
        if line.Header? && startTime <= line.time <= endTime {
          appendMode := true;
        }
      }
      if appendMode {
        if line.Header? {
          if line.isIp {
            payloadLines := 0;
            ignoreContent := false;
            packetCount := packetCount + 1;
            if packetCount % PacketSparsity != 0 {
              ignoreContent := true;
            }
          } else {
            ignoreContent := true;
            macHeaders := macHeaders + [line];
          }
        }
        if !(ignoreContent || IsComment(line)) && payloadLines <= MaxPayloadLines {
          ipLines := ipLines + [line];
          payloadLines := payloadLines + 1;
        }
      }
    }
    assert lines[..|lines|] == lines;
  }

  /** The filter's state `s` described without its flags, by the lines `w`
      read since appending was switched on: appending is on once there is
      such a line, the kept lines are those `KeptLines` picks from `w`, the
      MAC headers are the other headers of `w`, and the payload counter
      agrees with `Open`. */
  predicate Describes(s: Filter, w: seq<LogLine>)
  {
    && s.append == (w != [])
    && s.ipLines == KeptLines(w)
    && s.macHeaders == OtherHeaders(w)
    && (!s.append ==> !s.ignore && s.payloadLines == 0)
    && (s.append && !s.ignore ==> 1 <= s.payloadLines && Open(w) == Some(s.payloadLines - 1))
    && (s.append && s.ignore ==> Open(w).None?)
  }

  lemma EntryStepDescribes(s: Filter, x: LogLine, w: seq<LogLine>, startTime: int, endTime: int)
    requires Describes(s, w)
    ensures Describes(EntryStep(s, x, startTime, endTime), Extend(w, x, startTime, endTime))
  {
    var w' := Extend(w, x, startTime, endTime);
    if w' != [] {
      assert w' == w + [x] && w'[..|w'| - 1] == w;
      assert KeptLines(w') == KeptLines(w)
        + (if IsIpHeader(x) || (x.Body? && !x.blank && Open(w).Some? && Open(w).value < MaxPayloadLines) then [x] else []);
      assert OtherHeaders(w') == OtherHeaders(w) + (if x.Header? && !x.isIp then [x] else []);
    }
  }

  /** The filter's state after any lines is described by the lines read from
      the first one stamped inside the window on. */
  lemma {:induction false} EntriesSpec(lines: seq<LogLine>, startTime: int, endTime: int)
    ensures Describes(Entries(lines, startTime, endTime), Windowed(lines, startTime, endTime))
  {
    if lines != [] {
      var p := lines[..|lines| - 1];
      EntriesSpec(p, startTime, endTime);
      EntryStepDescribes(Entries(p, startTime, endTime), lines[|lines| - 1], Windowed(p, startTime, endTime), startTime, endTime);
    }
  }

  /** Once appending is on it stays on. */
  lemma {:induction false} AppendStays(lines: seq<LogLine>, n: nat, startTime: int, endTime: int)
    requires n <= |lines|
    requires Entries(lines[..n], startTime, endTime).append
    ensures Entries(lines, startTime, endTime).append
  {
    if n < |lines| {
      var p := lines[..|lines| - 1];
      assert p[..n] == lines[..n];
      AppendStays(p, n, startTime, endTime);
    } else {
      assert lines[..n] == lines;
    }
  }

  /** The kept lines are blocks of an IP header and at most
      `MaxPayloadLines` further lines, never a blank or comment line; every IP
      header from the window's first line on is kept, and every other header
      goes to the MAC headers. */
  lemma EntriesKeepBlocks(lines: seq<LogLine>, startTime: int, endTime: int)
    ensures var s := Entries(lines, startTime, endTime);
      && Blocked(s.ipLines)
      && (forall k :: 0 <= k < |s.ipLines| ==> !IsComment(s.ipLines[k]))
      && IpHeaderCount(s.ipLines) == IpHeaderCount(Windowed(lines, startTime, endTime))
      && s.macHeaders == OtherHeaders(Windowed(lines, startTime, endTime))
  {
    var w := Windowed(lines, startTime, endTime);
    EntriesSpec(lines, startTime, endTime);
    KeptLinesBlocked(w);
    BlockedShape(KeptLines(w));
    KeptHeaders(w);
  }

  /** Every IP header is kept. */
  lemma {:induction false} KeptHeaders(w: seq<LogLine>)
    ensures IpHeaderCount(KeptLines(w)) == IpHeaderCount(w)
  {
    if w != [] {
      var p := w[..|w| - 1];
      var x := w[|w| - 1];
      KeptHeaders(p);
      var kept := KeptLines(w);
      if kept != [] && kept[|kept| - 1] == x && KeptLines(p) + [x] == kept {
        assert kept[..|kept| - 1] == KeptLines(p);
      } else {
        assert kept == KeptLines(p);
      }
    }
  }

  // extract_mme_entries_from_file

  function Abs(x: int): nat
  {
    if x < 0 then -x else x
  }

  /** The loop state of `extract_mme_entries_from_file`. */
  datatype Sampler = Sampler(
    append: bool, ignore: bool, payloadLines: nat, packetCount: nat,
    ipLines: seq<LogLine>, stamps: seq<int>, sampleIdx: nat)

  /** One line of `extract_mme_entries_from_file`. Once every sample time is
      used the loop has stopped, and further lines change nothing. An IP
      header within `tolerance` of the current sample time is accepted and
      uses the sample; any other header stamped more than `tolerance` after
      it skips the sample; only the payload of an accepted header is kept. */
  function MmeStep(s: Sampler, x: LogLine, samples: seq<int>, tolerance: int): Sampler
  {
    if s.sampleIdx >= |samples| then s
    else
      var s1 :=
        if x.Header? then
          if x.isIp && Abs(samples[s.sampleIdx] - x.time) <= tolerance then
            s.(append := true, sampleIdx := s.sampleIdx + 1, stamps := s.stamps + [x.time])
          else if x.time - samples[s.sampleIdx] > tolerance then
            s.(append := false, sampleIdx := s.sampleIdx + 1)
          else s.(append := false)
        else s;
      if !s1.append then s1
      else
        var s2 :=
          if x.Header? && x.isIp then
            s1.(payloadLines := 0, packetCount := s1.packetCount + 1,
                ignore := (s1.packetCount + 1) % PacketSparsity != 0)
          else if x.Header? then s1.(ignore := true)
          else s1;
        if s2.ignore || IsComment(x) || s2.payloadLines > MaxPayloadLines then s2
        else s2.(ipLines := s2.ipLines + [x], payloadLines := s2.payloadLines + 1)
  }

  /** The state after the given lines, starting at sample `sampleIdx`. */
  function MmeEntries(lines: seq<LogLine>, samples: seq<int>, tolerance: int, sampleIdx: nat): Sampler
  {
    if lines == [] then Sampler(false, false, 0, 0, [], [], sampleIdx)
    else MmeStep(MmeEntries(lines[..|lines| - 1], samples, tolerance, sampleIdx), lines[|lines| - 1], samples, tolerance)
  }

  /** Lines read after the samples ran out change nothing. */
  lemma {:induction false} MmeStopped(lines: seq<LogLine>, n: nat, samples: seq<int>, tolerance: int, sampleIdx: nat)
    requires n <= |lines|
    requires MmeEntries(lines[..n], samples, tolerance, sampleIdx).sampleIdx >= |samples|
    ensures MmeEntries(lines, samples, tolerance, sampleIdx) == MmeEntries(lines[..n], samples, tolerance, sampleIdx)
  {
    if n < |lines| {
      var p := lines[..|lines| - 1];
      assert p[..n] == lines[..n];
      MmeStopped(p, n, samples, tolerance, sampleIdx);
    } else {
      assert lines[..n] == lines;
    }
  }

  /** `extract_mme_entries_from_file` over the lines of the file. */
  method ExtractMmeEntries(lines: seq<LogLine>, samples: seq<int>, sampleIdx: nat, tolerance: int)
    returns (ipLines: seq<LogLine>, sampleTimestamps: seq<int>, idx: nat)
    ensures var s := MmeEntries(lines, samples, tolerance, sampleIdx);
      ipLines == s.ipLines && sampleTimestamps == s.stamps && idx == s.sampleIdx
  {
    ipLines, sampleTimestamps, idx := [], [], sampleIdx;
    var payloadLines: nat, ignoreContent, appendMode, packetCount: nat := 0, false, false, 0;
    var i := 0;
    while i < |lines|
      invariant i <= |lines|
      invariant Sampler(appendMode, ignoreContent, payloadLines, packetCount, ipLines, sampleTimestamps, idx)
        == MmeEntries(lines[..i], samples, tolerance, sampleIdx)
      decreases |lines| - i
    {
      if idx >= |samples| {
        break;
      }
      var line := lines[i];
      assert lines[..i + 1][..i] == lines[..i];
      if line.Header? {
        appendMode := false;
        if line.isIp && Abs(samples[idx] - line.time) <= tolerance {
          appendMode := true;
          idx := idx + 1;
          sampleTimestamps := sampleTimestamps + [line.time];
        } else if line.time - samples[idx] > tolerance {
          idx := idx + 1;
        }
      }
      if appendMode {
        if line.Header? {
          if line.isIp {
            payloadLines := 0;
            ignoreContent := false;
            packetCount := packetCount + 1;
            if packetCount % PacketSparsity != 0 {
              ignoreContent := true;
            }
          } else {
            ignoreContent := true;
          }
        }
        if !(ignoreContent || IsComment(line)) && payloadLines <= MaxPayloadLines {
          ipLines := ipLines + [line];
          payloadLines := payloadLines + 1;
        }
      }
      i := i + 1;
    }
    if i < |lines| {
      MmeStopped(lines, i, samples, tolerance, sampleIdx);
    } else {
      assert lines[..i] == lines;
    }
  }

  /** One line moves the sample index forward by at most one, and adds a
      time stamp exactly when it accepts an IP header close enough to the
      current sample, moving past that sample. */
  lemma MmeStepAccepts(s: Sampler, x: LogLine, samples: seq<int>, tolerance: int)
    ensures var t := MmeStep(s, x, samples, tolerance);
      && s.sampleIdx <= t.sampleIdx <= s.sampleIdx + 1
      && (t.stamps == s.stamps || t.stamps == s.stamps + [x.time])
      && (t.stamps != s.stamps <==>
            s.sampleIdx < |samples| && IsIpHeader(x) && Abs(samples[s.sampleIdx] - x.time) <= tolerance)
      && (t.stamps != s.stamps ==> t.sampleIdx == s.sampleIdx + 1)
  {
  }

  /** The invariant of the MME filter started at sample `sampleIdx`. */
  predicate MmeShaped(s: Sampler, samples: seq<int>, sampleIdx: nat)
  {
    && sampleIdx + |s.stamps| <= s.sampleIdx
    && (sampleIdx <= |samples| ==> s.sampleIdx <= |samples|)
    && IpHeaderCount(s.ipLines) == |s.stamps|
    && Blocked(s.ipLines)
    && (s.append ==> !s.ignore && 1 <= s.payloadLines && Tail(s.ipLines) == s.payloadLines - 1)
  }

  lemma MmeStepShaped(s: Sampler, x: LogLine, samples: seq<int>, tolerance: int, sampleIdx: nat)
    requires MmeShaped(s, samples, sampleIdx)
    ensures MmeShaped(MmeStep(s, x, samples, tolerance), samples, sampleIdx)
  {
    if s.sampleIdx < |samples| {
      if x.Header? {
        MmeHeaderShaped(s, x, samples, tolerance, sampleIdx);
      } else {
        MmeBodyShaped(s, x, samples, tolerance, sampleIdx);
      }
    }
  }

  /** A header line keeps the invariant: it is kept exactly when accepted. */
  lemma MmeHeaderShaped(s: Sampler, x: LogLine, samples: seq<int>, tolerance: int, sampleIdx: nat)
    requires MmeShaped(s, samples, sampleIdx) && s.sampleIdx < |samples| && x.Header?
    ensures MmeShaped(MmeStep(s, x, samples, tolerance), samples, sampleIdx)
  {
    var t := MmeStep(s, x, samples, tolerance);
    if x.isIp && Abs(samples[s.sampleIdx] - x.time) <= tolerance {
      assert t.ipLines == s.ipLines + [x] && t.stamps == s.stamps + [x.time];
      assert t.ipLines[..|t.ipLines| - 1] == s.ipLines;
    } else {
      assert t.ipLines == s.ipLines && t.stamps == s.stamps && !t.append;
    }
  }

  /** A body line keeps the invariant: it may extend the open block. */
  lemma MmeBodyShaped(s: Sampler, x: LogLine, samples: seq<int>, tolerance: int, sampleIdx: nat)
    requires MmeShaped(s, samples, sampleIdx) && s.sampleIdx < |samples| && x.Body?
    ensures MmeShaped(MmeStep(s, x, samples, tolerance), samples, sampleIdx)
  {
    var t := MmeStep(s, x, samples, tolerance);
    if t.ipLines != s.ipLines {
      assert t.ipLines == s.ipLines + [x];
      assert t.ipLines[..|t.ipLines| - 1] == s.ipLines;
    }
  }

  /** Over a whole file: the sample index only grows and never passes the
      number of samples; each accepted IP header contributes its header line
      and its time stamp, and the kept lines form blocks. */
  lemma {:induction false} MmeEntriesShape(lines: seq<LogLine>, samples: seq<int>, tolerance: int, sampleIdx: nat)
    ensures MmeShaped(MmeEntries(lines, samples, tolerance, sampleIdx), samples, sampleIdx)
  {
    if lines != [] {
      var p := lines[..|lines| - 1];
      MmeEntriesShape(p, samples, tolerance, sampleIdx);
      MmeStepShaped(MmeEntries(p, samples, tolerance, sampleIdx), lines[|lines| - 1], samples, tolerance, sampleIdx);
    }
  }

  /** The sample index after a prefix of the lines never exceeds the one
      after all of them. */
  lemma {:induction false} MmeIndexGrows(lines: seq<LogLine>, n: nat, samples: seq<int>, tolerance: int, sampleIdx: nat)
    requires n <= |lines|
    ensures MmeEntries(lines[..n], samples, tolerance, sampleIdx).sampleIdx
      <= MmeEntries(lines, samples, tolerance, sampleIdx).sampleIdx
  {
    if n < |lines| {
      var p := lines[..|lines| - 1];
      assert p[..n] == lines[..n];
      MmeIndexGrows(p, n, samples, tolerance, sampleIdx);
      MmeStepAccepts(MmeEntries(p, samples, tolerance, sampleIdx), lines[|lines| - 1], samples, tolerance);
    } else {
      assert lines[..n] == lines;
    }
  }
}
