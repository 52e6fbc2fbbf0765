/**
 * The user-equipment status report of the UE simulator and the raw context
 * computed from it: which UEs are alive and connected, their uplink MCS, their
 * IPv4 addresses, and the context triple (active users, mean uplink MCS,
 * buffer-size index nearest to the total uplink backlog).
 *
 * The report is taken already decoded: each `ue_list` entry is a record whose
 * `None` fields are keys the entry lacks, so the `KeyError` paths stay visible.
 */
module Liveness {
  import opened Wrappers
  import opened Stats
  import opened Parameters

  /** One decoded `ue_list` entry. A `None` field is a missing key (for the
      MCS fields: missing or null, which `get` treats alike). `cells` holds each
      cell's `cqi`; `pdnList` holds each PDN's `ipv4`. */
  datatype UeRecord = UeRecord(
    ueId: Option<int>,
    rrcState: Option<string>,
    emmState: Option<string>,
    cells: Option<seq<Option<int>>>,
    dlMcs: Option<real>,
    ulMcs: Option<real>,
    pdnList: Option<seq<Option<string>>>)

  /** What the status query gave back. */
  datatype StatusReport =
    | NoOutput                                  // the query failed
    | NoJson                                    // no `{` in the output
    | Malformed                                 // the JSON did not decode
    | Report(ueList: Option<seq<UeRecord>>)     // `None`: no `ue_list` key

  /** The `(ue_id, rrc_state, cells_cqi)` triple kept for each UE. */
  datatype UeInfo = UeInfo(ueId: int, rrcState: string, cellsCqi: seq<int>)

  /** The `(dl_mcs, ul_mcs)` pair kept for each UE. */
  type McsPair = (Option<real>, Option<real>)

  /** The position of the first entry failing `ok`, or the length when all pass. */
  function FirstNot(ues: seq<UeRecord>, ok: UeRecord -> bool): (k: nat)
    ensures k <= |ues|
    ensures forall j :: 0 <= j < k ==> ok(ues[j])
    ensures k < |ues| ==> !ok(ues[k])
  {
    if ues == [] || !ok(ues[0]) then 0 else 1 + FirstNot(ues[1..], ok)
  }

  predicate CellsComplete(cells: seq<Option<int>>)
  {
    forall i :: 0 <= i < |cells| ==> cells[i].Some?
  }

  /** The entry yields its triple without a `KeyError`. */
  predicate HasInfo(ue: UeRecord)
  {
    ue.cells.Some? && CellsComplete(ue.cells.value) && ue.ueId.Some? && ue.rrcState.Some?
  }

  function InfoOf(ue: UeRecord): UeInfo
    requires HasInfo(ue)
  {
    var cells := ue.cells.value;
    UeInfo(ue.ueId.value, ue.rrcState.value, seq(|cells|, i requires 0 <= i < |cells| => cells[i].value))
  }

  /** The entry is processed to its end without a `KeyError`. */
  predicate Processed(ue: UeRecord)
  {
    HasInfo(ue) && ue.emmState.Some?
  }

  /** The triples of fully processed entries, in order. */
  function Infos(ues: seq<UeRecord>): (infos: seq<UeInfo>)
    requires forall i :: 0 <= i < |ues| ==> Processed(ues[i])
    ensures |infos| == |ues|
  {
    if ues == [] then []
    else
      var last := ues[|ues| - 1];
      assert Processed(last);
      Infos(ues[..|ues| - 1]) + [InfoOf(last)]
  }

  function McsOf(ues: seq<UeRecord>): (mcs: seq<McsPair>)
    ensures |mcs| == |ues|
  {
    if ues == [] then [] else McsOf(ues[..|ues| - 1]) + [(ues[|ues| - 1].dlMcs, ues[|ues| - 1].ulMcs)]
  }

  /** The number of entries whose EMM state is not `power off`. */
  function AliveCount(ues: seq<UeRecord>): (n: nat)
    requires forall i :: 0 <= i < |ues| ==> ues[i].emmState.Some?
    ensures n <= |ues|
  {
    if ues == [] then 0
    else AliveCount(ues[..|ues| - 1]) + (if ues[|ues| - 1].emmState.value != "power off" then 1 else 0)
  }

  /** The ids of the connected UEs, in list order. */
  function ConnectedIds(infos: seq<UeInfo>): (ids: seq<int>)
    ensures |ids| <= |infos|
  {
    if infos == [] then []
    else
      var last := infos[|infos| - 1];
      ConnectedIds(infos[..|infos| - 1]) + (if last.rrcState == "connected" then [last.ueId] else [])
  }

  /** Parses the status report. A `KeyError` at entry `k` keeps what the entries
      before it (and, when its triple was complete, entry `k` itself) appended,
      and leaves the active users empty; any other failure gives nothing. */
  method Liveness(report: StatusReport)
    returns (ueList: seq<UeInfo>, mcs: seq<McsPair>, activeUsers: seq<int>, numAliveUsers: nat)
    ensures !(report.Report? && report.ueList.Some?) ==>
      ueList == [] && mcs == [] && activeUsers == [] && numAliveUsers == 0
    ensures report.Report? && report.ueList.Some? ==>
      var ues := report.ueList.value;
      var k := FirstNot(ues, Processed);
      && mcs == McsOf(ues[..k])
      && numAliveUsers == AliveCount(ues[..k])
      && ueList == Infos(ues[..k]) + (if k < |ues| && HasInfo(ues[k]) then [InfoOf(ues[k])] else [])
      && activeUsers == (if k == |ues| then ConnectedIds(ueList) else [])
  {
    ueList, mcs, activeUsers, numAliveUsers := [], [], [], 0;
    if !(report.Report? && report.ueList.Some?) {
      return;
    }
    var ues := report.ueList.value;
    ghost var k := FirstNot(ues, Processed);
    var i := 0;
    while i < |ues|
      invariant i <= k
      invariant ueList == Infos(ues[..i])
      invariant mcs == McsOf(ues[..i])
      invariant numAliveUsers == AliveCount(ues[..i])
    {
      assert ues[..i + 1][..i] == ues[..i];
      var ue := ues[i];
      if ue.cells.None? {
        return;
      }
      var cellsCqi := CollectCqis(ue.cells.value);
      if cellsCqi.None? || ue.ueId.None? || ue.rrcState.None? {
        return;
      }
      ueList := ueList + [UeInfo(ue.ueId.value, ue.rrcState.value, cellsCqi.value)];
      if ue.emmState.None? {
        return;
      }
      if ue.emmState.value != "power off" {
        numAliveUsers := numAliveUsers + 1;
      }
      mcs := mcs + [(ue.dlMcs, ue.ulMcs)];
      i := i + 1;
    }
    assert ues[..i] == ues;
    activeUsers := ConnectedIds(ueList);
  }

  /** The `cqi` of every cell, or `None` at the first cell lacking one. */
  method CollectCqis(cells: seq<Option<int>>) returns (cqis: Option<seq<int>>)
    ensures cqis.Some? <==> CellsComplete(cells)
    ensures cqis.Some? ==> cqis.value == seq(|cells|, i requires 0 <= i < |cells| => cells[i].value)
  {
    var cellsCqi: seq<int> := [];
    var i := 0;
    while i < |cells|
      invariant i <= |cells|
      invariant forall j :: 0 <= j < i ==> cells[j].Some?
      invariant cellsCqi == seq(i, j requires 0 <= j < i => cells[j].value)
    {
      if cells[i].None? {
        return None;
      }
      cellsCqi := cellsCqi + [cells[i].value];
      i := i + 1;
    }
    return Some(cellsCqi);
  }

  /** A UE counts as connected exactly when its triple says so, and the
      connected ids keep the list order: the ids of a concatenation are the ids
      of each part. */
  lemma {:induction false} ConnectedIdsAppend(a: seq<UeInfo>, b: seq<UeInfo>)
    ensures ConnectedIds(a + b) == ConnectedIds(a) + ConnectedIds(b)
  {
    if b == [] {
      assert a + b == a;
    } else {
      var ab := a + b;
      assert ab[..|ab| - 1] == a + b[..|b| - 1] && ab[|ab| - 1] == b[|b| - 1];
      ConnectedIdsAppend(a, b[..|b| - 1]);
    }
  }

  lemma {:induction false} ConnectedIdsMembers(infos: seq<UeInfo>, id: int)
    ensures id in ConnectedIds(infos) <==>
      exists i :: 0 <= i < |infos| && infos[i].ueId == id && infos[i].rrcState == "connected"
  {
    if infos != [] {
      var prefix := infos[..|infos| - 1];
      ConnectedIdsMembers(prefix, id);
      if id in ConnectedIds(prefix) {
        var i :| 0 <= i < |prefix| && prefix[i].ueId == id && prefix[i].rrcState == "connected";
        assert infos[i] == prefix[i];
      }
      if exists i :: 0 <= i < |infos| && infos[i].ueId == id && infos[i].rrcState == "connected" {
        var i :| 0 <= i < |infos| && infos[i].ueId == id && infos[i].rrcState == "connected";
        if i < |prefix| {
          assert prefix[i] == infos[i];
        }
      }
    }
  }

  /** Every UE is counted alive unless it is powered off: the count is the
      number of entries minus the powered-off ones. */
  lemma {:induction false} AliveCountAllPoweredOff(ues: seq<UeRecord>)
    requires forall i :: 0 <= i < |ues| ==> ues[i].emmState == Some("power off")
    ensures AliveCount(ues) == 0
  {
    if ues != [] {
      AliveCountAllPoweredOff(ues[..|ues| - 1]);
    }
  }

  lemma {:induction false} AliveCountNonePoweredOff(ues: seq<UeRecord>)
    requires forall i :: 0 <= i < |ues| ==> ues[i].emmState.Some? && ues[i].emmState.value != "power off"
    ensures AliveCount(ues) == |ues|
  {
    if ues != [] {
      AliveCountNonePoweredOff(ues[..|ues| - 1]);
    }
  }

  // ----- IPv4 addresses of the connected UEs -----

  /** The entry raises a `KeyError`: no RRC state, or connected without a PDN
      list or with a first PDN lacking `ipv4`. */
  predicate IpKeyError(ue: UeRecord)
  {
    ue.rrcState.None?
    || (ue.rrcState.value == "connected"
        && (ue.pdnList.None? || (ue.pdnList.value != [] && ue.pdnList.value[0].None?)))
  }

  /** The entry raises an `IndexError`: connected with an empty PDN list. */
  predicate IpIndexError(ue: UeRecord)
  {
    ue.rrcState == Some("connected") && ue.pdnList == Some([])
  }

  predicate IpReadable(ue: UeRecord)
  {
    !IpKeyError(ue) && !IpIndexError(ue)
  }

  /** The first PDN address of every connected entry, in order. */
  function ConnectedIps(ues: seq<UeRecord>): (ips: seq<string>)
    requires forall i :: 0 <= i < |ues| ==> IpReadable(ues[i])
    ensures |ips| <= |ues|
  {
    if ues == [] then []
    else
      var ue := ues[|ues| - 1];
      assert IpReadable(ue);
      ConnectedIps(ues[..|ues| - 1]) + (if ue.rrcState.value == "connected" then [ue.pdnList.value[0].value] else [])
  }

  /** The first IPv4 address of each connected UE. A `KeyError` stops the scan
      and keeps the addresses found so far; an empty PDN list of a connected UE
      raises an `IndexError` that nothing catches (`Failure`). */
  method UeIpAddresses(report: StatusReport) returns (r: Result<seq<string>, string>)
    ensures !(report.Report? && report.ueList.Some?) ==> r == Success([])
    ensures report.Report? && report.ueList.Some? ==>
      var ues := report.ueList.value;
      var k := FirstNot(ues, IpReadable);
      r == if k < |ues| && IpIndexError(ues[k]) then Failure("IndexError") else Success(ConnectedIps(ues[..k]))
  {
    if !(report.Report? && report.ueList.Some?) {
      return Success([]);
    }
    var ues := report.ueList.value;
    ghost var k := FirstNot(ues, IpReadable);
    var ueIp: seq<string> := [];
    var i := 0;
    while i < |ues|
      invariant i <= k
      invariant ueIp == ConnectedIps(ues[..i])
    {
      assert ues[..i + 1][..i] == ues[..i];
      var ue := ues[i];
      if ue.rrcState.None? {
        return Success(ueIp);
      }
      if ue.rrcState.value == "connected" {
        if ue.pdnList.None? {
          return Success(ueIp);
        }
        if ue.pdnList.value == [] {
          return Failure("IndexError");
        }
        if ue.pdnList.value[0].None? {
          return Success(ueIp);
        }
        ueIp := ueIp + [ue.pdnList.value[0].value];
      }
      i := i + 1;
    }
    assert ues[..i] == ues;
    return Success(ueIp);
  }

  /** Without errors, every connected UE contributes exactly one address. */
  lemma {:induction false} ConnectedIpsCount(ues: seq<UeRecord>)
    requires forall i :: 0 <= i < |ues| ==> IpReadable(ues[i])
    ensures |ConnectedIps(ues)| == CountConnected(ues)
  {
    if ues != [] {
      ConnectedIpsCount(ues[..|ues| - 1]);
    }
  }

  /** The number of entries in the connected RRC state. */
  function CountConnected(ues: seq<UeRecord>): nat
  {
    if ues == [] then 0
    else CountConnected(ues[..|ues| - 1]) + (if ues[|ues| - 1].rrcState == Some("connected") then 1 else 0)
  }

  // ----- Context arithmetic -----

  /** The uplink MCS values that are present, in order. */
  function UlMcsValues(mcs: seq<McsPair>): (values: seq<real>)
    ensures |values| <= |mcs|
  {
    if mcs == [] then []
    else UlMcsValues(mcs[..|mcs| - 1]) + (if mcs[|mcs| - 1].1.Some? then [mcs[|mcs| - 1].1.value] else [])
  }

  /** The mean uplink MCS, or 28 (the best MCS) when no UE reported one. */
  function AvgUlMcs(mcs: seq<McsPair>): real
  {
    var values := UlMcsValues(mcs);
    if values != [] then Mean(values) else 28.0
  }

  /** A present uplink MCS is one of the averaged values. */
  lemma {:induction false} UlMcsValuesMembers(mcs: seq<McsPair>, lo: real, hi: real)
    requires forall u :: 0 <= u < |mcs| && mcs[u].1.Some? ==> lo <= mcs[u].1.value <= hi
    ensures AllIn(UlMcsValues(mcs), lo, hi)
  {
    if mcs != [] {
      UlMcsValuesMembers(mcs[..|mcs| - 1], lo, hi);
    }
  }

  /** With every reported MCS in the valid range 0..28, so is the average. */
  lemma {:induction false} AvgUlMcsInRange(mcs: seq<McsPair>)
    requires forall u :: 0 <= u < |mcs| && mcs[u].1.Some? ==> 0.0 <= mcs[u].1.value <= 28.0
    ensures 0.0 <= AvgUlMcs(mcs) <= 28.0
  {
    UlMcsValuesMembers(mcs, 0.0, 28.0);
    if UlMcsValues(mcs) != [] {
      MeanBounds(UlMcsValues(mcs), 0.0, 28.0);
    }
  }

  /** The total uplink backlog in bytes: the table size of each user's uplink
      buffer-status index. */
  function UlBacklog(bsr: seq<(nat, nat)>): int
    requires forall u :: 0 <= u < |bsr| ==> bsr[u].1 < |BsrList|
  {
    if bsr == [] then 0 else UlBacklog(bsr[..|bsr| - 1]) + BsrList[bsr[|bsr| - 1].1]
  }

  function Dist(total: int, i: nat): nat
    requires i < |BsrList|
  {
    if BsrList[i] >= total then BsrList[i] - total else total - BsrList[i]
  }

  /** Python's `min(range(n), key=...)` over the distances to `total`: the first
      index among the first `n` whose table size is nearest. */
  function NearestAmong(total: int, n: nat): (i: nat)
    requires 1 <= n <= |BsrList|
    ensures i < n
    ensures forall j :: 0 <= j < n ==> Dist(total, i) <= Dist(total, j)
    ensures forall j :: 0 <= j < i ==> Dist(total, j) > Dist(total, i)
  {
    if n == 1 then 0
    else
      var i := NearestAmong(total, n - 1);
      if Dist(total, n - 1) < Dist(total, i) then n - 1 else i
  }

  /** The buffer-size index whose table size is nearest to the backlog. */
  function SnapIndex(total: int): nat
  {
    NearestAmong(total, |BsrList|)
  }

  /** The last two table entries are equal, so the snap never picks the last
      index: the first of two equally near entries wins. */
  lemma {:induction false} SnapIndexBelowLast(total: int)
    ensures SnapIndex(total) < |BsrList| - 1
  {
    var j := NearestAmong(total, |BsrList| - 1);
    assert Dist(total, |BsrList| - 2) == Dist(total, |BsrList| - 1);
  }

  /** The raw context: number of active users, mean uplink MCS and the snapped
      buffer-size index of the total uplink backlog. */
  function ContextFrom(activeUsers: seq<int>, mcs: seq<McsPair>, bsr: seq<(nat, nat)>): (context: (nat, real, nat))
    requires forall u :: 0 <= u < |bsr| ==> bsr[u].1 < |BsrList|
    ensures context.0 == |activeUsers|
    ensures context.1 == AvgUlMcs(mcs)
    ensures context.2 < |BsrList| - 1
    ensures forall j :: 0 <= j < |BsrList| ==> Dist(UlBacklog(bsr), context.2) <= Dist(UlBacklog(bsr), j)
    ensures forall j :: 0 <= j < context.2 ==> Dist(UlBacklog(bsr), j) > Dist(UlBacklog(bsr), context.2)
  {
    SnapIndexBelowLast(UlBacklog(bsr));
    (|activeUsers|, AvgUlMcs(mcs), SnapIndex(UlBacklog(bsr)))
  }
}
