// The protocol analysis page: the distribution and TCP flag charts, the flag
// table, the protocol-over-time datasets and the page's auto-refresh timer.

module ProtocolPage {
  import opened Common
  import opened Sorting
  import opened Grouping
  import opened PageCommon

  /** Protocols the distribution chart shows before folding the rest into "Other". */
  const MAX_PROTOCOLS: nat := 8

  /** Flag combinations the flags chart shows. */
  const MAX_FLAGS: nat := 10

  // ---------------------------------------------------------------------
  // TCP flag combinations

  /** An entry of the tcp-flags reply. */
  datatype FlagCount = FlagCount(flags: string, count: int, description: string)

  /** `(a, b) => b.count - a.count`. */
  predicate ByCount(a: FlagCount, b: FlagCount)
  {
    a.count >= b.count
  }

  function FlagLabel(f: FlagCount): string { f.flags }

  function FlagValue(f: FlagCount): int { f.count }

  function Min(a: int, b: int): int { if a <= b then a else b }

  /** The bars of the flags chart: the first ten of the sorted list, label beside count. */
  function FlagBars(sorted: seq<FlagCount>): (b: BarData)
    ensures |b.labels| == |b.values| == Min(|sorted|, MAX_FLAGS)
    ensures forall i :: 0 <= i < |b.labels| ==> b.labels[i] == sorted[i].flags && b.values[i] == sorted[i].count
  {
    var top := sorted[..Min(|sorted|, MAX_FLAGS)];
    BarData(MapSeq(top, FlagLabel), MapSeq(top, FlagValue))
  }

  /** A table row: the coloured flags, the count and the description. */
  datatype FlagRow = FlagRow(cell: string, count: int, description: string)

  function FlagRowOf(f: FlagCount): FlagRow
  {
    FlagRow(TcpFlagsCell(f.flags), f.count, f.description)
  }

  /** The bars show the most frequent combinations of the reply, in order, and no hidden one is more frequent than a shown one. */
  lemma FlagBarsTop(flags: seq<FlagCount>)
    ensures var sorted := Sort(flags, ByCount);
      var b := FlagBars(sorted);
      (forall i :: 0 <= i < |b.labels| ==> sorted[i] in flags) &&
      (forall i, j :: 0 <= i < j < |sorted| ==> sorted[i].count >= sorted[j].count) &&
      (forall i, j :: 0 <= i < |b.values| <= j < |sorted| ==> b.values[i] >= sorted[j].count)
  {
    var sorted := Sort(flags, ByCount);
    assert TotalPreorder(ByCount);
    SortCorrect(flags, ByCount);
    SortMembers(flags, ByCount);
    forall i | 0 <= i < |FlagBars(sorted).labels|
      ensures sorted[i] in flags
    {
      assert sorted[i] in Sort(flags, ByCount);
    }
  }

  /** The rows in table order: each cell reads back its own flag string, and two rows render alike only for equal strings. */
  lemma FlagRowsReadBack(f: FlagCount, g: FlagCount)
    ensures FlagRowOf(f).cell == FlagRowOf(g).cell <==> f.flags == g.flags
    ensures |FlagRowOf(f).cell| == 31 + 29 * |f.flags|
  {
    if FlagRowOf(f).cell == FlagRowOf(g).cell {
      var n := |FlagRowOf(f).cell|;
      assert FlagSpans(f.flags) == FlagRowOf(f).cell[24..n - 7];
      assert FlagSpans(g.flags) == FlagRowOf(g).cell[24..n - 7];
    }
    FlagSpansInjective(f.flags, g.flags);
  }

  // ---------------------------------------------------------------------
  // Protocol over time

  /** An entry of the time series: its timestamp and its other properties in key order. */
  datatype TimePoint = TimePoint(timestamp: string, fields: seq<(string, int)>)

  /** The Set after adding one key: `timestamp` is skipped and a key already present keeps its place. */
  function AddKey(keys: seq<string>, k: string): seq<string>
  {
    if k == "timestamp" || k in keys then keys else keys + [k]
  }

  function AddKeys(keys: seq<string>, fields: seq<(string, int)>): seq<string>
  {
    if fields == [] then keys else AddKey(AddKeys(keys, fields[..|fields| - 1]), fields[|fields| - 1].0)
  }

  /** The Set's insertion order after visiting every entry. */
  function KeyUnion(series: seq<TimePoint>): seq<string>
  {
    if series == [] then [] else AddKeys(KeyUnion(series[..|series| - 1]), series[|series| - 1].fields)
  }

  predicate Distinct(keys: seq<string>)
  {
    forall i, j :: 0 <= i < j < |keys| ==> keys[i] != keys[j]
  }

  /** The entry has a property named `k`. */
  predicate HasField(fields: seq<(string, int)>, k: string)
  {
    exists j :: 0 <= j < |fields| && fields[j].0 == k
  }

  /** Some entry carries `k` as a property other than `timestamp`. */
  predicate Carries(series: seq<TimePoint>, k: string)
  {
    k != "timestamp" && exists i :: 0 <= i < |series| && HasField(series[i].fields, k)
  }

  lemma {:induction false} AddKeysUnion(keys: seq<string>, fields: seq<(string, int)>)
    requires Distinct(keys)
    ensures Distinct(AddKeys(keys, fields))
    ensures forall k :: k in AddKeys(keys, fields) <==> k in keys || (k != "timestamp" && HasField(fields, k))
  {
    if fields != [] {
      var init := fields[..|fields| - 1];
      AddKeysUnion(keys, init);
      forall k
        ensures HasField(fields, k) <==> k == fields[|fields| - 1].0 || HasField(init, k)
      {
        if HasField(init, k) {
          var j :| 0 <= j < |init| && init[j].0 == k;
          assert fields[j] == init[j];
        }
        if HasField(fields, k) {
          var j :| 0 <= j < |fields| && fields[j].0 == k;
          if j < |init| {
            assert init[j] == fields[j];
          }
        }
      }
    }
  }

  /** The Set holds each non-timestamp key of every entry, once. */
  lemma {:induction false} KeyUnionMembers(series: seq<TimePoint>)
    ensures Distinct(KeyUnion(series))
    ensures forall k :: k in KeyUnion(series) <==> Carries(series, k)
  {
    if series != [] {
      var init := series[..|series| - 1];
      var last := series[|series| - 1];
      KeyUnionMembers(init);
      AddKeysUnion(KeyUnion(init), last.fields);
      forall k
        ensures Carries(series, k) <==> Carries(init, k) || (k != "timestamp" && HasField(last.fields, k))
      {
        if Carries(series, k) {
          var i :| 0 <= i < |series| && HasField(series[i].fields, k);
          if i < |init| {
            assert init[i] == series[i];
          }
        }
        if Carries(init, k) {
          var i :| 0 <= i < |init| && HasField(init[i].fields, k);
          assert series[i] == init[i];
        }
      }
    }
  }

  /** The nested forEach that fills the Set. */
  method CollectProtocols(series: seq<TimePoint>) returns (keys: seq<string>)
    ensures keys == KeyUnion(series)
  {
    keys := [];
    var i := 0;
    while i < |series|
      invariant 0 <= i <= |series|
      invariant keys == KeyUnion(series[..i])
    {
      var fields := series[i].fields;
      var j := 0;
      while j < |fields|
        invariant 0 <= j <= |fields|
        invariant keys == AddKeys(KeyUnion(series[..i]), fields[..j])
      {
        assert fields[..j + 1][..j] == fields[..j];
        keys := AddKey(keys, fields[j].0);
        j := j + 1;
      }
      assert fields[..j] == fields;
      assert series[..i + 1][..i] == series[..i];
      i := i + 1;
    }
    assert series[..i] == series;
  }

  /** `entry[protocol] || 0`: the property's value (a repeated JSON key keeps its last value), or 0. */
  function FieldOrZero(fields: seq<(string, int)>, k: string): int
  {
    if fields == [] then 0
    else if fields[|fields| - 1].0 == k then fields[|fields| - 1].1
    else FieldOrZero(fields[..|fields| - 1], k)
  }

  function PointOf(k: string): TimePoint -> int
  {
    (e: TimePoint) => FieldOrZero(e.fields, k)
  }

  const COLORS: seq<string> := ["#0d6efd", "#20c997", "#0dcaf0", "#ffc107", "#fd7e14", "#dc3545", "#6f42c1", "#6c757d", "#198754", "#343a40"]

  /** One line of the chart, labelled by its protocol; the fill colour is the border colour with alpha `33`. */
  datatype Dataset = Dataset(protocol: string, data: seq<int>, borderColor: string, backgroundColor: string)

  function DatasetOf(series: seq<TimePoint>, protocols: seq<string>, i: nat): Dataset
    requires i < |protocols|
  {
    var color := COLORS[i % |COLORS|];
    Dataset(protocols[i], MapSeq(series, PointOf(protocols[i])), color, color + "33")
  }

  /** The labels (the rendered timestamps) and one dataset per protocol, in sorted order. */
  datatype SeriesData = SeriesData(labels: seq<string>, datasets: seq<Dataset>)

  function SeriesChart(series: seq<TimePoint>, localTime: string -> string): SeriesData
  {
    var protocols := Sort(KeyUnion(series), LexLe);
    SeriesData(MapSeq(MapSeq(series, Stamp), localTime),
               seq(|protocols|, i requires 0 <= i < |protocols| => DatasetOf(series, protocols, i)))
  }

  function Stamp(e: TimePoint): string { e.timestamp }

  /**
   * The datasets are the distinct non-timestamp keys of the reply in string order,
   * each with one point per entry (its value there, or 0 where it is missing) and
   * colour i mod 10.
   */
  lemma SeriesChartCorrect(series: seq<TimePoint>, localTime: string -> string)
    ensures var d := SeriesChart(series, localTime).datasets;
      (forall k :: (exists i :: 0 <= i < |d| && d[i].protocol == k) <==> Carries(series, k)) &&
      (forall i, j :: 0 <= i < j < |d| ==> LexLe(d[i].protocol, d[j].protocol) && d[i].protocol != d[j].protocol) &&
      (forall i :: 0 <= i < |d| ==> |d[i].data| == |series| && d[i].borderColor == COLORS[i % 10]) &&
      (forall i, e :: 0 <= i < |d| && 0 <= e < |series| ==> d[i].data[e] == FieldOrZero(series[e].fields, d[i].protocol))
    ensures |SeriesChart(series, localTime).labels| == |series|
  {
    var protocols := Sort(KeyUnion(series), LexLe);
    var d := SeriesChart(series, localTime).datasets;
    SortedProtocols(series);
    assert |d| == |protocols| && forall i :: 0 <= i < |d| ==> d[i] == DatasetOf(series, protocols, i);
    forall k
      ensures (exists i :: 0 <= i < |d| && d[i].protocol == k) <==> Carries(series, k)
    {
      if Carries(series, k) {
        var i :| 0 <= i < |protocols| && protocols[i] == k;
        assert d[i].protocol == k;
      }
      if exists i :: 0 <= i < |d| && d[i].protocol == k {
        var i :| 0 <= i < |d| && d[i].protocol == k;
        assert protocols[i] in protocols;
      }
    }
  }

  /** `Array.from(allProtocols).sort()`: the carried keys, each once, in string order. */
  lemma SortedProtocols(series: seq<TimePoint>)
    ensures var p := Sort(KeyUnion(series), LexLe);
      (forall k :: k in p <==> Carries(series, k)) &&
      (forall i, j :: 0 <= i < j < |p| ==> LexLe(p[i], p[j]) && p[i] != p[j])
  {
    var keys := KeyUnion(series);
    KeyUnionMembers(series);
    LexIsPreorder();
    SortCorrect(keys, LexLe);
    SortMembers(keys, LexLe);
    PermutationKeepsDistinct(keys, Sort(keys, LexLe));
  }

  // ---------------------------------------------------------------------
  // The page's globals

  class Page {
    var protocolChart: Option<BarData>
    var tcpFlagsChart: Option<BarData>
    var protocolTimeChart: Option<SeriesData>
    var refreshInterval: Option<int>

    /** The page after `initCharts` (each chart present iff its canvas was), with no timer. */
    constructor (distribution: bool, flags: bool, overTime: bool)
      ensures protocolChart == (if distribution then Some(BarData([], [])) else None)
      ensures tcpFlagsChart == (if flags then Some(BarData([], [])) else None)
      ensures protocolTimeChart == (if overTime then Some(SeriesData([], [])) else None)
      ensures refreshInterval.None?
    {
      protocolChart := if distribution then Some(BarData([], [])) else None;
      tcpFlagsChart := if flags then Some(BarData([], [])) else None;
      protocolTimeChart := if overTime then Some(SeriesData([], [])) else None;
      refreshInterval := None;
    }

    /**
     * Sorts the reply in place by share and shows the first eight protocols plus
     * "Other"; with no chart, no list or an empty one, nothing changes.
     */
    method UpdateProtocolDistributionChart(protocols: array?<ProtocolSlice>)
      modifies this, protocols
      ensures protocols != null && old(protocolChart).Some? && protocols.Length > 0 ==>
        protocols[..] == Sort(old(protocols[..]), ByPercentage) &&
        protocolChart == Some(ProtocolBars(ChartSlices(old(protocols[..]), MAX_PROTOCOLS, true)))
      ensures protocols == null || old(protocolChart).None? || protocols.Length == 0 ==>
        protocolChart == old(protocolChart) && (protocols != null ==> protocols[..] == old(protocols[..]))
      ensures tcpFlagsChart == old(tcpFlagsChart) && protocolTimeChart == old(protocolTimeChart)
      ensures refreshInterval == old(refreshInterval)
    {
      if protocolChart.None? || protocols == null || protocols.Length == 0 {
        return;
      }
      var sorted := Sort(protocols[..], ByPercentage);
      forall i | 0 <= i < protocols.Length {
        protocols[i] := sorted[i];
      }
      assert protocols[..] == sorted;
      protocolChart := Some(ProtocolBars(TopWithOther(protocols[..], MAX_PROTOCOLS, true)));
    }

    /** Sorts the reply in place by count and shows the ten most frequent flag combinations. */
    method UpdateTcpFlagsChart(tcpFlags: array?<FlagCount>)
      modifies this, tcpFlags
      ensures tcpFlags != null && old(tcpFlagsChart).Some? && tcpFlags.Length > 0 ==>
        tcpFlags[..] == Sort(old(tcpFlags[..]), ByCount) &&
        tcpFlagsChart == Some(FlagBars(tcpFlags[..]))
      ensures tcpFlags == null || old(tcpFlagsChart).None? || tcpFlags.Length == 0 ==>
        tcpFlagsChart == old(tcpFlagsChart) && (tcpFlags != null ==> tcpFlags[..] == old(tcpFlags[..]))
      ensures protocolChart == old(protocolChart) && protocolTimeChart == old(protocolTimeChart)
      ensures refreshInterval == old(refreshInterval)
    {
      if tcpFlagsChart.None? || tcpFlags == null || tcpFlags.Length == 0 {
        return;
      }
      var sorted := Sort(tcpFlags[..], ByCount);
      forall i | 0 <= i < tcpFlags.Length {
        tcpFlags[i] := sorted[i];
      }
      assert tcpFlags[..] == sorted;
      tcpFlagsChart := Some(FlagBars(tcpFlags[..]));
    }

    /** Shows the datasets of the reply; with no chart, no list or an empty one, nothing changes. */
    method UpdateProtocolOverTimeChart(series: Option<seq<TimePoint>>, localTime: string -> string)
      modifies this
      ensures series.Some? && series.value != [] && old(protocolTimeChart).Some? ==>
        protocolTimeChart == Some(SeriesChart(series.value, localTime))
      ensures series.None? || series.value == [] || old(protocolTimeChart).None? ==>
        protocolTimeChart == old(protocolTimeChart)
      ensures protocolChart == old(protocolChart) && tcpFlagsChart == old(tcpFlagsChart)
      ensures refreshInterval == old(refreshInterval)
    {
      if protocolTimeChart.None? || series.None? || series.value == [] {
        return;
      }
      var protocols := CollectProtocols(series.value);
      protocols := Sort(protocols, LexLe);
      var datasets := seq(|protocols|, i requires 0 <= i < |protocols| => DatasetOf(series.value, protocols, i));
      protocolTimeChart := Some(SeriesData(MapSeq(MapSeq(series.value, Stamp), localTime), datasets));
    }

    /** Clears any running timer first, then installs one of `seconds` * 1000 ms: afterwards exactly that timer runs. */
    method StartAutoRefresh(timers: Scheduler, seconds: int)
      requires timers.Valid() && AtMostTimer(timers, refreshInterval)
      modifies this, timers
      ensures timers.Valid() && AtMostTimer(timers, refreshInterval)
      ensures refreshInterval.Some? && timers.active == map[refreshInterval.value := seconds * 1000]
      ensures protocolChart == old(protocolChart) && tcpFlagsChart == old(tcpFlagsChart)
      ensures protocolTimeChart == old(protocolTimeChart)
    {
      if refreshInterval.Some? {
        timers.ClearInterval(refreshInterval.value);
      }
      assert timers.active.Keys == {};
      var h := timers.SetInterval(seconds * 1000);
      refreshInterval := Some(h);
    }

    /** Clears the timer and forgets it; with no timer, nothing changes. */
    method StopAutoRefresh(timers: Scheduler)
      requires timers.Valid() && AtMostTimer(timers, refreshInterval)
      modifies this, timers
      ensures timers.Valid() && refreshInterval.None? && timers.active == map[]
      ensures old(refreshInterval).None? ==> timers.active == old(timers.active)
      ensures protocolChart == old(protocolChart) && tcpFlagsChart == old(tcpFlagsChart)
      ensures protocolTimeChart == old(protocolTimeChart)
    {
      if refreshInterval.Some? {
        timers.ClearInterval(refreshInterval.value);
        refreshInterval := None;
      }
      assert timers.active.Keys == {};
    }
  }

  /** The table rows of the reply, sorted by count: the flags column is built by the per-character loop. */
  method TcpFlagsTable(tcpFlags: array<FlagCount>) returns (rows: seq<FlagRow>)
    modifies tcpFlags
    ensures tcpFlags[..] == Sort(old(tcpFlags[..]), ByCount)
    ensures rows == MapSeq(tcpFlags[..], FlagRowOf)
  {
    var sorted := Sort(tcpFlags[..], ByCount);
    forall i | 0 <= i < tcpFlags.Length {
      tcpFlags[i] := sorted[i];
    }
    assert tcpFlags[..] == sorted;
    rows := [];
    var i := 0;
    while i < tcpFlags.Length
      invariant 0 <= i <= tcpFlags.Length
      invariant tcpFlags[..] == sorted
      invariant rows == MapSeq(sorted[..i], FlagRowOf)
    {
      var f := tcpFlags[i];
      var spans := FormatFlagSpans(f.flags);
      var cell := "<span class=\"tcp-flags\">" + spans + "</span>";
      assert MapSeq(sorted[..i + 1], FlagRowOf) == MapSeq(sorted[..i], FlagRowOf) + [FlagRowOf(f)];
      rows := rows + [FlagRow(cell, f.count, f.description)];
      i := i + 1;
    }
    assert sorted[..i] == sorted;
  }
}
