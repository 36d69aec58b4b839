// The dashboard page: the bandwidth and protocol charts, the anomaly list and
// the count badges, the live statistics and the auto-refresh timer.

module DashboardPage {
  import opened Common
  import opened Sorting
  import opened Grouping
  import opened PageCommon
  import AnomalyDetection

  /** Protocols the dashboard chart shows before folding the rest into "Other". */
  const MAX_PROTOCOLS: nat := 6

  /** Points the bandwidth chart keeps. */
  const MAX_DATA_POINTS: nat := 20

  // ---------------------------------------------------------------------
  // Bandwidth chart

  /** A point of the summary's bandwidth list. */
  datatype BandwidthPoint = BandwidthPoint(timestamp: Time, bytesIn: int, bytesOut: int)

  /** `(a, b) => new Date(a.timestamp) - new Date(b.timestamp)`. */
  predicate Chronological(a: BandwidthPoint, b: BandwidthPoint)
  {
    a.timestamp <= b.timestamp
  }

  function PointTime(p: BandwidthPoint): Time { p.timestamp }

  function PointIn(p: BandwidthPoint): int { p.bytesIn }

  function PointOut(p: BandwidthPoint): int { p.bytesOut }

  /** The line chart's labels (rendered times) and its inbound and outbound series. */
  datatype LineData = LineData(labels: seq<string>, bytesIn: seq<int>, bytesOut: seq<int>)

  /** The last twenty points of the sorted list. */
  function Latest(sorted: seq<BandwidthPoint>): (shown: seq<BandwidthPoint>)
    ensures |shown| == if |sorted| > MAX_DATA_POINTS then MAX_DATA_POINTS else |sorted|
    ensures shown == sorted[|sorted| - |shown|..]
  {
    if |sorted| > MAX_DATA_POINTS then sorted[|sorted| - MAX_DATA_POINTS..] else sorted
  }

  function BandwidthLine(sorted: seq<BandwidthPoint>, localTime: Time -> string): LineData
  {
    var shown := Latest(sorted);
    LineData(MapSeq(MapSeq(shown, PointTime), localTime), MapSeq(shown, PointIn), MapSeq(shown, PointOut))
  }

  /**
   * What the chart would show: the at most twenty most recent points of the reply,
   * oldest first, each series aligned with the labels, none hidden later than one shown.
   */
  lemma BandwidthLineLatest(data: seq<BandwidthPoint>, localTime: Time -> string)
    ensures var sorted := Sort(data, Chronological);
      var shown := Latest(sorted);
      var line := BandwidthLine(sorted, localTime);
      |line.labels| == |line.bytesIn| == |line.bytesOut| == |shown| <= MAX_DATA_POINTS &&
      (|data| <= MAX_DATA_POINTS ==> |shown| == |data|) &&
      (forall i :: 0 <= i < |shown| ==> shown[i] in data && line.bytesIn[i] == shown[i].bytesIn && line.bytesOut[i] == shown[i].bytesOut) &&
      (forall i, j :: 0 <= i < j < |shown| ==> shown[i].timestamp <= shown[j].timestamp) &&
      (forall i, j :: 0 <= i < |sorted| - |shown| && 0 <= j < |shown| ==> sorted[i].timestamp <= shown[j].timestamp)
  {
    var sorted := Sort(data, Chronological);
    var shown := Latest(sorted);
    var off := |sorted| - |shown|;
    assert TotalPreorder(Chronological);
    SortCorrect(data, Chronological);
    SortMembers(data, Chronological);
    forall i | 0 <= i < |shown|
      ensures shown[i] in data
    {
      assert shown[i] == sorted[off + i];
      assert sorted[off + i] in Sort(data, Chronological);
    }
    forall i, j | 0 <= i < j < |shown|
      ensures shown[i].timestamp <= shown[j].timestamp
    {
      assert Chronological(sorted[off + i], sorted[off + j]);
    }
    forall i, j | 0 <= i < off && 0 <= j < |shown|
      ensures sorted[i].timestamp <= shown[j].timestamp
    {
      assert Chronological(sorted[i], sorted[off + j]);
    }
  }

  // ---------------------------------------------------------------------
  // Anomaly list and count badges

  /** The icon beside an anomaly. */
  function AnomalyIcon(severity: int): string
  {
    if severity >= 4 then "exclamation-circle"
    else if severity >= 3 then "exclamation-triangle"
    else if severity >= 2 then "question-circle"
    else "info-circle"
  }

  function IconRank(icon: string): int
  {
    if icon == "exclamation-circle" then 3
    else if icon == "exclamation-triangle" then 2
    else if icon == "question-circle" then 1
    else 0
  }

  /**
   * The icon grows with the severity, one step per band from 2 to 4, and every
   * severity the banding of the detector assigns (2 to 5) gets a warning icon.
   */
  lemma AnomalyIconBands(s: int, t: int, z: real)
    ensures s <= t ==> IconRank(AnomalyIcon(s)) <= IconRank(AnomalyIcon(t))
    ensures IconRank(AnomalyIcon(s)) == if s >= 4 then 3 else if s <= 1 then 0 else s - 1
    ensures AnomalyIcon(AnomalyDetection.CalculateSeverity(z)) != "info-circle"
  {
  }

  /** An entry of the summary's anomaly list. */
  datatype AnomalySummary = AnomalySummary(severity: int, eventType: string, description: string, timestamp: Time)

  /** A list item: an anomaly with its icon and severity class, or the placeholder of an empty list. */
  datatype ListItem = AnomalyItem(severityClass: string, icon: string, eventType: string, description: string, time: string)
                    | NoAnomalies

  function ItemOf(localTime: Time -> string): AnomalySummary -> ListItem
  {
    (a: AnomalySummary) => AnomalyItem("severity-" + Decimal(a.severity), AnomalyIcon(a.severity), a.eventType, a.description, localTime(a.timestamp))
  }

  function ListLength<T>(list: Option<seq<T>>): nat
  {
    if list.Some? then |list.value| else 0
  }

  /** The items of the anomaly list: one per anomaly in reply order, or the single placeholder. */
  function AnomalyItems(anomalies: Option<seq<AnomalySummary>>, localTime: Time -> string): (items: seq<ListItem>)
    ensures ListLength(anomalies) == 0 <==> items == [NoAnomalies]
    ensures ListLength(anomalies) > 0 ==> |items| == ListLength(anomalies) && forall i :: 0 <= i < |items| ==>
      items[i].AnomalyItem? && items[i].icon == AnomalyIcon(anomalies.value[i].severity) && items[i].eventType == anomalies.value[i].eventType
  {
    if ListLength(anomalies) > 0 then
      var items := MapSeq(anomalies.value, ItemOf(localTime));
      assert items[0].AnomalyItem?;
      items
    else [NoAnomalies]
  }

  /**
   * The classes of a count badge after an update: the busy class when the list is
   * non-empty, `bg-secondary` when it is empty, every other class kept.
   */
  function BadgeClasses(classes: set<string>, count: nat, busy: string): (r: set<string>)
    requires busy != "bg-secondary"
    ensures busy in r <==> count > 0
    ensures "bg-secondary" in r <==> count == 0
    ensures r - {busy, "bg-secondary"} == classes - {busy, "bg-secondary"}
  {
    if count > 0 then classes - {"bg-secondary"} + {busy} else classes - {busy} + {"bg-secondary"}
  }

  /** The badge's text and classes. */
  datatype Badge = Badge(text: string, classes: set<string>)

  function CountBadge<T>(badge: Badge, list: Option<seq<T>>, busy: string): Badge
    requires busy != "bg-secondary"
  {
    Badge(Decimal(ListLength(list)), BadgeClasses(badge.classes, ListLength(list), busy))
  }

  /** The anomaly badge (`bg-danger`) and the capture badge (`bg-primary`) show the list length, 0 for no list, and turn grey exactly when it is 0. */
  lemma CountBadgeReadsBack<T>(badge: Badge, list: Option<seq<T>>)
    ensures ParseDecimal(CountBadge(badge, list, "bg-danger").text) == ListLength(list)
    ensures ParseDecimal(CountBadge(badge, list, "bg-primary").text) == ListLength(list)
    ensures list.None? ==> CountBadge(badge, list, "bg-danger").text == "0"
    ensures "bg-danger" in CountBadge(badge, list, "bg-danger").classes <==> list.Some? && list.value != []
    ensures "bg-primary" in CountBadge(badge, list, "bg-primary").classes <==> list.Some? && list.value != []
  {
    DecimalRoundTrip(ListLength(list));
  }

  // ---------------------------------------------------------------------
  // Live statistics

  /** `reduce((prev, current) => prev.percentage > current.percentage ? prev : current)`, as an index. */
  function TopIndex(protocols: seq<ProtocolSlice>): (k: nat)
    requires |protocols| > 0
    ensures k < |protocols|
    ensures forall j :: 0 <= j < |protocols| ==> protocols[j].percentage <= protocols[k].percentage
    ensures forall j :: k < j < |protocols| ==> protocols[j].percentage < protocols[k].percentage
  {
    if |protocols| == 1 then 0
    else
      var p := TopIndex(protocols[..|protocols| - 1]);
      if protocols[p].percentage > protocols[|protocols| - 1].percentage then p else |protocols| - 1
  }

  /** The top protocol shown, none for a missing or empty list: a largest share, the last such on a tie. */
  function TopProtocol(protocols: Option<seq<ProtocolSlice>>): (r: Option<ProtocolSlice>)
    ensures r.Some? <==> protocols.Some? && protocols.value != []
    ensures r.Some? ==> r.value in protocols.value && forall q :: q in protocols.value ==> q.percentage <= r.value.percentage
  {
    if protocols.None? || protocols.value == [] then None else Some(protocols.value[TopIndex(protocols.value)])
  }

  /** Of two entries with the same largest share, the later one is shown. */
  lemma TopProtocolTie(a: ProtocolSlice, b: ProtocolSlice)
    requires a.percentage == b.percentage
    ensures TopProtocol(Some([a, b])) == Some(b)
  {
  }

  /** The live bandwidth figures; a field is undefined when the reply lacks it. */
  datatype BandwidthStats = BandwidthStats(bytesIn: Option<int>, bytesOut: Option<int>)

  /** The three figures written, before byte formatting: inbound, outbound and their total. */
  datatype StatsShown = StatsShown(inRate: Option<int>, outRate: Option<int>, total: Option<int>)

  function BandwidthShown(data: Option<BandwidthStats>): (r: StatsShown)
    ensures data.None? ==> r == StatsShown(None, None, None)
    ensures data.Some? ==> r.inRate == data.value.bytesIn && r.outRate == data.value.bytesOut
    ensures r.total.Some? <==> r.inRate.Some? && r.outRate.Some?
    ensures r.total.Some? ==> r.total.value == r.inRate.value + r.outRate.value
  {
    if data.None? then StatsShown(None, None, None)
    else
      var d := data.value;
      StatsShown(d.bytesIn, d.bytesOut, if d.bytesIn.Some? && d.bytesOut.Some? then Some(d.bytesIn.value + d.bytesOut.value) else None)
  }

  // ---------------------------------------------------------------------
  // The page's globals

  class Dashboard {
    /** The global the bandwidth update tests; nothing ever assigns it. */
    var bandwidthChart: Option<LineData>
    /** `charts.bandwidth`, which `initCharts` creates. */
    var chartsBandwidth: Option<LineData>
    var protocolChart: Option<BarData>
    /** The rows of the protocol table, when the page has one. */
    var protocolTable: Option<seq<ProtocolSlice>>
    var refreshInterval: Option<int>

    /** The page after `initCharts`, each chart present iff its canvas was. */
    constructor (bandwidth: bool, protocol: bool, table: bool)
      ensures bandwidthChart.None?
      ensures chartsBandwidth == (if bandwidth then Some(LineData([], [], [])) else None)
      ensures protocolChart == (if protocol then Some(BarData([], [])) else None)
      ensures protocolTable == (if table then Some([]) else None)
      ensures refreshInterval.None?
    {
      bandwidthChart := None;
      chartsBandwidth := if bandwidth then Some(LineData([], [], [])) else None;
      protocolChart := if protocol then Some(BarData([], [])) else None;
      protocolTable := if table then Some([]) else None;
      refreshInterval := None;
    }

    /**
     * The update as written: it tests `bandwidthChart`, which stays null on the page
     * (the constructor leaves it so and no other update assigns it), so it returns at
     * once and neither the chart `initCharts` created nor the list changes.
     */
    method UpdateBandwidthChartAsWritten(data: array?<BandwidthPoint>, localTime: Time -> string)
      modifies this, data
      ensures old(bandwidthChart).None? ==>
        bandwidthChart == old(bandwidthChart) && (data != null ==> data[..] == old(data[..]))
      ensures old(bandwidthChart).Some? && data != null && data.Length > 0 ==>
        data[..] == Sort(old(data[..]), Chronological) && bandwidthChart == Some(BandwidthLine(data[..], localTime))
      ensures chartsBandwidth == old(chartsBandwidth)
      ensures protocolChart == old(protocolChart) && protocolTable == old(protocolTable)
      ensures refreshInterval == old(refreshInterval)
    {
      if bandwidthChart.None? || data == null || data.Length == 0 {
        return;
      }
      var sorted := Sort(data[..], Chronological);
      forall i | 0 <= i < data.Length {
        data[i] := sorted[i];
      }
      assert data[..] == sorted;
      bandwidthChart := Some(BandwidthLine(data[..], localTime));
    }

    /** The update with its guard on the chart `initCharts` created: sort the reply in place and show its latest points. */
    method UpdateBandwidthChart(data: array?<BandwidthPoint>, localTime: Time -> string)
      modifies this, data
      ensures bandwidthChart == old(bandwidthChart)
      ensures data != null && old(chartsBandwidth).Some? && data.Length > 0 ==>
        data[..] == Sort(old(data[..]), Chronological) &&
        chartsBandwidth == Some(BandwidthLine(data[..], localTime))
      ensures data == null || old(chartsBandwidth).None? || data.Length == 0 ==>
        chartsBandwidth == old(chartsBandwidth) && (data != null ==> data[..] == old(data[..]))
      ensures protocolChart == old(protocolChart) && protocolTable == old(protocolTable)
      ensures refreshInterval == old(refreshInterval)
    {
      if chartsBandwidth.None? || data == null || data.Length == 0 {
        return;
      }
      var sorted := Sort(data[..], Chronological);
      forall i | 0 <= i < data.Length {
        data[i] := sorted[i];
      }
      assert data[..] == sorted;
      chartsBandwidth := Some(BandwidthLine(data[..], localTime));
    }

    /**
     * Sorts the reply in place by share, shows the first six plus an "Other" without
     * a packet count, and gives the table the whole sorted list.
     */
    method UpdateProtocolChart(protocolData: array?<ProtocolSlice>)
      modifies this, protocolData
      ensures bandwidthChart == old(bandwidthChart)
      ensures protocolData != null && old(protocolChart).Some? && protocolData.Length > 0 ==>
        protocolData[..] == Sort(old(protocolData[..]), ByPercentage) &&
        protocolChart == Some(ProtocolBars(ChartSlices(old(protocolData[..]), MAX_PROTOCOLS, false))) &&
        protocolTable == (if old(protocolTable).Some? then Some(protocolData[..]) else None)
      ensures protocolData == null || old(protocolChart).None? || protocolData.Length == 0 ==>
        protocolChart == old(protocolChart) && protocolTable == old(protocolTable) &&
        (protocolData != null ==> protocolData[..] == old(protocolData[..]))
      ensures chartsBandwidth == old(chartsBandwidth) && refreshInterval == old(refreshInterval)
    {
      if protocolChart.None? || protocolData == null || protocolData.Length == 0 {
        return;
      }
      var sorted := Sort(protocolData[..], ByPercentage);
      forall i | 0 <= i < protocolData.Length {
        protocolData[i] := sorted[i];
      }
      assert protocolData[..] == sorted;
      protocolChart := Some(ProtocolBars(TopWithOther(protocolData[..], MAX_PROTOCOLS, false)));
      if protocolTable.Some? {
        protocolTable := Some(protocolData[..]);
      }
    }

    /**
     * Clears the timer if one is set, then installs one of `seconds` * 1000 ms only
     * for a positive number of seconds; otherwise the cleared handle stays recorded
     * and no timer runs.
     */
    method UpdateRefreshInterval(timers: Scheduler, seconds: Option<int>)
      requires timers.Valid() && AtMostTimer(timers, refreshInterval)
      modifies this, timers
      ensures timers.Valid() && AtMostTimer(timers, refreshInterval)
      ensures seconds.Some? && seconds.value > 0 ==>
        refreshInterval.Some? && timers.active == map[refreshInterval.value := seconds.value * 1000]
      ensures !(seconds.Some? && seconds.value > 0) ==>
        refreshInterval == old(refreshInterval) && timers.active == map[]
      ensures bandwidthChart == old(bandwidthChart) && chartsBandwidth == old(chartsBandwidth)
      ensures protocolChart == old(protocolChart) && protocolTable == old(protocolTable)
    {
      if refreshInterval.Some? {
        timers.ClearInterval(refreshInterval.value);
      }
      assert timers.active.Keys == {};
      if seconds.Some? && seconds.value > 0 {
        var h := timers.SetInterval(seconds.value * 1000);
        refreshInterval := Some(h);
      }
    }
  }

  /** The as-written bandwidth update never changes the chart, even for a reply the corrected one draws. */
  method BandwidthChartNeverDrawn() returns (asWritten: Option<LineData>, corrected: Option<LineData>)
    ensures asWritten == Some(LineData([], [], []))
    ensures corrected.Some? && corrected.value.bytesIn == [7]
  {
    var p := BandwidthPoint(0, 7, 3);
    var page := new Dashboard(true, true, true);
    var data := new BandwidthPoint[1] [p];
    page.UpdateBandwidthChartAsWritten(data, Decimal);
    asWritten := page.chartsBandwidth;
    assert data[..] == [p];
    SortSingleton(p);
    page.UpdateBandwidthChart(data, Decimal);
    corrected := page.chartsBandwidth;
    OnePointLine(p);
  }

  lemma SortSingleton(p: BandwidthPoint)
    ensures Sort([p], Chronological) == [p]
  {
    assert [p][1..] == [];
  }

  lemma OnePointLine(p: BandwidthPoint)
    ensures BandwidthLine([p], Decimal).bytesIn == [p.bytesIn]
  {
    assert Latest([p]) == [p];
  }

  /** The protocol table gets every entry of the reply, not only the charted ones; the chart's "Other" has no packet count. */
  lemma ProtocolTableComplete(protocols: seq<ProtocolSlice>)
    ensures multiset(Sort(protocols, ByPercentage)) == multiset(protocols)
    ensures |protocols| > MAX_PROTOCOLS ==>
      var slices := ChartSlices(protocols, MAX_PROTOCOLS, false);
      |slices| == MAX_PROTOCOLS + 1 && slices[MAX_PROTOCOLS].packetCount.None?
  {
    TopWithOtherShape(Sort(protocols, ByPercentage), MAX_PROTOCOLS, false);
  }
}
