// The anomaly detection page: the severity badge of a row, the statistics
// charts and summary figures, the start form's validation, the detector's
// buttons and the pagination handlers.

module AnomalyPage {
  import opened Common
  import opened Grouping
  import opened PageCommon
  import AnomalyDetection
  import AnomalyRoutes

  // ---------------------------------------------------------------------
  // The severity badge of a table row

  datatype SeverityBadge = SeverityBadge(icon: string, text: string, cls: string)

  /** Exact comparisons with 2..5; any other severity, 1 included, shows as Info. */
  function BadgeOf(severity: int): SeverityBadge
  {
    if severity == 2 then SeverityBadge("exclamation-circle", "Low", "success")
    else if severity == 3 then SeverityBadge("exclamation-triangle", "Medium", "warning")
    else if severity == 4 then SeverityBadge("exclamation-triangle", "High", "orange")
    else if severity == 5 then SeverityBadge("radiation", "Critical", "danger")
    else SeverityBadge("info-circle", "Info", "info")
  }

  /**
   * The four bands 2..5 get four different labels and classes, everything else the
   * Info badge; every severity the detector's banding assigns gets a band of its own.
   */
  lemma BadgeBands(s: int, t: int, z: real)
    ensures 2 <= s <= 5 && 2 <= t <= 5 ==> (BadgeOf(s).text == BadgeOf(t).text <==> s == t)
    ensures 2 <= s <= 5 && 2 <= t <= 5 ==> (BadgeOf(s).cls == BadgeOf(t).cls <==> s == t)
    ensures BadgeOf(s).text == "Info" <==> !(2 <= s <= 5)
    ensures BadgeOf(AnomalyDetection.CalculateSeverity(z)).text != "Info"
  {
  }

  // ---------------------------------------------------------------------
  // The statistics charts

  /** The forEach that fills `[0, 0, 0, 0, 0]`: slot s - 1 takes the count of severity s; others are ignored. */
  method SeverityCounts(groups: seq<Group<int>>) returns (counts: array<int>)
    ensures fresh(counts) && counts.Length == 5
    ensures forall k :: 0 <= k < 5 ==> counts[k] == LastCount(groups, k + 1)
  {
    counts := new int[5] [0, 0, 0, 0, 0];
    var i := 0;
    while i < |groups|
      invariant 0 <= i <= |groups|
      invariant forall k :: 0 <= k < 5 ==> counts[k] == LastCount(groups[..i], k + 1)
    {
      var item := groups[i];
      assert groups[..i + 1][..i] == groups[..i];
      if 1 <= item.key <= 5 {
        counts[item.key - 1] := item.count;
      }
      i := i + 1;
    }
    assert groups[..i] == groups;
  }

  /** With the statistics route's groups, slot s - 1 is the number of events of severity s. */
  lemma SeveritySlotsCountEvents(events: seq<AnomalyDetection.AnomalyEvent>, s: int)
    ensures LastCount(GroupBy(events, AnomalyRoutes.EventSeverity), s) ==
            Grouping.SumWhere(events, AnomalyRoutes.EventSeverity, s, CountOne)
  {
    GroupCount(events, AnomalyRoutes.EventSeverity, s);
  }

  function GroupLabel(g: Group<string>): string { g.key }

  /** The event type chart: one bar per group, in the reply's order. */
  function EventTypeBars(groups: seq<Group<string>>): (b: BarData)
    ensures |b.labels| == |b.values| == |groups|
    ensures forall i :: 0 <= i < |groups| ==> b.labels[i] == groups[i].key && b.values[i] == groups[i].count
  {
    BarData(MapSeq(groups, GroupLabel), MapSeq(groups, GroupSize))
  }

  /** With the statistics route's groups, each event type has one bar and the bars add up to the number of events. */
  lemma EventTypeBarsCoverEvents(events: seq<AnomalyDetection.AnomalyEvent>)
    ensures var b := EventTypeBars(GroupBy(events, AnomalyRoutes.EventType));
      SumOf(b.values) == |events| &&
      (forall i, j :: 0 <= i < j < |b.labels| ==> b.labels[i] != b.labels[j]) &&
      (forall t :: t in b.labels <==> HasKey(events, AnomalyRoutes.EventType, t))
  {
    var groups := GroupBy(events, AnomalyRoutes.EventType);
    var ks := DistinctKeys(events, AnomalyRoutes.EventType);
    var b := EventTypeBars(groups);
    SumOfMapSeq(groups, GroupSize);
    GroupSizesTotal(events, AnomalyRoutes.EventType);
    assert b.labels == ks;
    forall t
      ensures t in b.labels <==> HasKey(events, AnomalyRoutes.EventType, t)
    {
      DistinctKeysMembers(events, AnomalyRoutes.EventType, t);
    }
  }

  /** `[resolved || 0, unresolved || 0]`. */
  function ResolutionChart(r: AnomalyRoutes.Resolution): (data: seq<int>)
    ensures |data| == 2 && data[0] == r.resolved && data[1] == r.unresolved
  {
    [r.resolved, r.unresolved]
  }

  /** With the statistics route's buckets, the two slices cover every event once. */
  lemma ResolutionChartCoversEvents(events: seq<AnomalyDetection.AnomalyEvent>)
    ensures var data := ResolutionChart(AnomalyRoutes.Resolution(AnomalyRoutes.CountResolved(events, true),
                                                                AnomalyRoutes.CountResolved(events, false)));
      data[0] + data[1] == |events| && data[0] >= 0 && data[1] >= 0
  {
    AnomalyRoutes.ResolutionCoversAll(events);
    SumWhereBounds(events, AnomalyRoutes.EventResolved, true, CountOne);
    SumWhereBounds(events, AnomalyRoutes.EventResolved, false, CountOne);
  }

  // ---------------------------------------------------------------------
  // The high-severity figure

  function HighCount(g: Group<int>): int
  {
    if g.key >= 4 then g.count else 0
  }

  /** `by_severity.filter(s => s.severity >= 4).reduce((sum, s) => sum + s.count, 0)`. */
  function HighSeverity(groups: seq<Group<int>>): int
  {
    SumBy(groups, HighCount)
  }

  function HighOne(e: AnomalyDetection.AnomalyEvent): int
  {
    if e.severity >= 4 then 1 else 0
  }

  lemma {:induction false} SumWhereHigh(events: seq<AnomalyDetection.AnomalyEvent>, k: int)
    ensures Grouping.SumWhere(events, AnomalyRoutes.EventSeverity, k, HighOne) ==
            if k >= 4 then Grouping.SumWhere(events, AnomalyRoutes.EventSeverity, k, CountOne) else 0
  {
    if events != [] {
      SumWhereHigh(events[..|events| - 1], k);
    }
  }

  /** With the statistics route's groups, the figure is the number of events of severity 4 or more. */
  lemma HighSeverityCountsEvents(events: seq<AnomalyDetection.AnomalyEvent>)
    ensures HighSeverity(GroupBy(events, AnomalyRoutes.EventSeverity)) == SumBy(events, HighOne)
  {
    var key := AnomalyRoutes.EventSeverity;
    var ks := DistinctKeys(events, key);
    SumByMap(ks, GroupMaker(events, key), HighCount);
    forall k
      ensures Composed(GroupMaker(events, key), HighCount)(k) == Summer(events, key, HighOne)(k)
    {
      SumWhereHigh(events, k);
    }
    SumByExtensional(ks, Composed(GroupMaker(events, key), HighCount), Summer(events, key, HighOne));
    GroupTotals(events, key, HighOne);
  }

  // ---------------------------------------------------------------------
  // The start form

  /** What the form yields: the method and sensitivity sent, or None when the alert is shown instead. */
  function StartForm(methodField: Option<string>, sensitivityField: Option<Option<real>>): (r: Option<(string, real)>)
    ensures r.Some? <==> sensitivityField.None? || (sensitivityField.value.Some? && sensitivityField.value.value > 0.0)
    ensures r.Some? ==> r.value.0 == methodField.GetOr("statistical")
    ensures r.Some? && sensitivityField.None? ==> r.value.1 == 3.0
    ensures r.Some? ==> r.value.1 > 0.0
  {
    var sensitivity := if sensitivityField.None? then Some(3.0) else sensitivityField.value;
    if sensitivity.None? || sensitivity.value <= 0.0 then None
    else Some((methodField.GetOr("statistical"), sensitivity.value))
  }

  /** The request the form sends reaches the detector with the form's values: the route's defaults never apply. */
  lemma StartFormReachesDetector(methodField: Option<string>, sensitivityField: Option<Option<real>>)
    requires StartForm(methodField, sensitivityField).Some?
    ensures var sent := StartForm(methodField, sensitivityField).value;
      var request := AnomalyRoutes.StartRequest(Some(sent.0), Some(sent.1));
      request.detectionMethod.GetOr(AnomalyRoutes.DEFAULT_METHOD) == sent.0 &&
      request.sensitivity.GetOr(AnomalyRoutes.DEFAULT_SENSITIVITY) == sent.1 && sent.1 > 0.0
  {
  }

  // ---------------------------------------------------------------------
  // The page's globals

  class Page {
    var paging: Paging
    /** `detectionActive` and the two buttons. */
    var controls: Controls
    var severityChart: Option<seq<int>>
    var eventTypeChart: Option<BarData>
    var resolutionChart: Option<seq<int>>

    predicate Valid()
      reads this
    {
      Consistent(controls)
    }

    /** The page after `initCharts` and the status check of the initial `detectionActive = false`;
        each chart exists exactly when its canvas is on the page. */
    constructor (severityCanvas: bool, eventTypeCanvas: bool, resolutionCanvas: bool)
      ensures Valid() && paging == FIRST_PAGING && !controls.active
      ensures severityChart == (if severityCanvas then Some([0, 0, 0, 0, 0]) else None)
      ensures eventTypeChart == (if eventTypeCanvas then Some(BarData([], [])) else None)
      ensures resolutionChart == (if resolutionCanvas then Some([0, 0]) else None)
    {
      paging := FIRST_PAGING;
      controls := UpdateStatus(Controls(false, false, false), false);
      severityChart := if severityCanvas then Some([0, 0, 0, 0, 0]) else None;
      eventTypeChart := if eventTypeCanvas then Some(BarData([], [])) else None;
      resolutionChart := if resolutionCanvas then Some([0, 0]) else None;
    }

    method UpdateDetectionStatus(isActive: bool)
      modifies this
      ensures Valid() && controls == UpdateStatus(old(controls), isActive)
      ensures paging == old(paging)
      ensures severityChart == old(severityChart) && eventTypeChart == old(eventTypeChart)
      ensures resolutionChart == old(resolutionChart)
    {
      controls := UpdateStatus(controls, isActive);
    }

    /**
     * Validates the form, then sends the request and settles the buttons from the
     * reply (with the restoring `finally`); an invalid sensitivity sends nothing.
     */
    method StartAnomalyDetection(methodField: Option<string>, sensitivityField: Option<Option<real>>, success: bool)
      returns (sent: Option<(string, real)>)
      requires Valid()
      modifies this
      ensures Valid() && sent == StartForm(methodField, sensitivityField)
      ensures sent.None? ==> controls == old(controls)
      ensures sent.Some? ==> controls == StartCorrected(old(controls), success)
      ensures paging == old(paging)
      ensures severityChart == old(severityChart) && eventTypeChart == old(eventTypeChart)
      ensures resolutionChart == old(resolutionChart)
    {
      sent := StartForm(methodField, sensitivityField);
      if sent.Some? {
        SettledCorrectedKeepsConsistency(controls, success);
        controls := StartCorrected(controls, success);
      }
    }

    /** Asks for confirmation, then sends the stop request and settles the buttons from the reply. */
    method StopAnomalyDetection(confirmed: bool, success: bool)
      requires Valid()
      modifies this
      ensures Valid()
      ensures controls == if confirmed then StopCorrected(old(controls), success) else old(controls)
      ensures paging == old(paging)
      ensures severityChart == old(severityChart) && eventTypeChart == old(eventTypeChart)
      ensures resolutionChart == old(resolutionChart)
    {
      if confirmed {
        SettledCorrectedKeepsConsistency(controls, success);
        controls := StopCorrected(controls, success);
      }
    }

    /** The three chart updates; a chart that is missing is skipped. */
    method UpdateAnomalyCharts(stats: AnomalyRoutes.Statistics)
      modifies this
      ensures severityChart.Some? <==> old(severityChart).Some?
      ensures severityChart.Some? ==> (|severityChart.value| == 5 &&
        forall k :: 0 <= k < 5 ==> severityChart.value[k] == LastCount(stats.bySeverity, k + 1))
      ensures eventTypeChart == if old(eventTypeChart).Some? then Some(EventTypeBars(stats.byEventType)) else None
      ensures resolutionChart == if old(resolutionChart).Some? then Some(ResolutionChart(stats.byResolution)) else None
      ensures paging == old(paging) && controls == old(controls)
    {
      if severityChart.Some? {
        var counts := SeverityCounts(stats.bySeverity);
        severityChart := Some(counts[..]);
      }
      if eventTypeChart.Some? {
        eventTypeChart := Some(EventTypeBars(stats.byEventType));
      }
      if resolutionChart.Some? {
        resolutionChart := Some(ResolutionChart(stats.byResolution));
      }
    }

    /** The prev button: the page to load, if any. */
    method PrevPage() returns (load: Option<int>)
      modifies this
      ensures (paging, load) == PrevStep(old(paging))
      ensures controls == old(controls)
      ensures severityChart == old(severityChart) && eventTypeChart == old(eventTypeChart)
      ensures resolutionChart == old(resolutionChart)
    {
      var step := PrevStep(paging);
      paging, load := step.0, step.1;
    }

    /** The next button: the page to load, if any. */
    method NextPage() returns (load: Option<int>)
      modifies this
      ensures (paging, load) == NextStep(old(paging))
      ensures controls == old(controls)
      ensures severityChart == old(severityChart) && eventTypeChart == old(eventTypeChart)
      ensures resolutionChart == old(resolutionChart)
    {
      var step := NextStep(paging);
      paging, load := step.0, step.1;
    }

    /** The filter form: back to page 1, which is loaded. */
    method FilterSubmit() returns (load: int)
      modifies this
      ensures load == 1 && paging == old(paging).(currentPage := 1)
      ensures controls == old(controls)
      ensures severityChart == old(severityChart) && eventTypeChart == old(eventTypeChart)
      ensures resolutionChart == old(resolutionChart)
    {
      paging := paging.(currentPage := 1);
      load := 1;
    }

    /** A loaded page: the reply's page and page count, and the buttons they call for. */
    method Loaded(page: int, pages: int) returns (buttons: PageButtons)
      modifies this
      ensures (paging, buttons) == LoadedStep(page, pages)
      ensures controls == old(controls)
      ensures severityChart == old(severityChart) && eventTypeChart == old(eventTypeChart)
      ensures resolutionChart == old(resolutionChart)
    {
      var step := LoadedStep(page, pages);
      paging, buttons := step.0, step.1;
    }
  }
}
