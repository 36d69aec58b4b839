// The anomaly detection API: starting and stopping the detector, listing the
// recorded events under the request's filters, resolving one event, and the
// statistics over the whole AnomalyEvent table.

module AnomalyRoutes {
  import opened Common
  import opened Sorting
  import opened Grouping
  import opened AnomalyDetection

  // ---------------------------------------------------------------------
  // start_detection and stop_detection

  /** The JSON answer `{'success': ...}` and its HTTP status. */
  datatype Response = Response(success: bool, status: int)

  /** What the route answers when the utility returns a flag or raises. */
  function Respond(outcome: Result<bool>): (r: Response)
    ensures r.status == 200 <==> outcome.Ok?
    ensures r.status == 500 <==> outcome.Raise?
    ensures r.success <==> outcome == Ok(true)
  {
    match outcome
    case Ok(flag) => Response(flag, 200)
    case Raise(_) => Response(false, 500)
  }

  /** The keys of the start request's JSON body; None where the key is missing. */
  datatype StartRequest = StartRequest(detectionMethod: Option<string>, sensitivity: Option<real>)

  const DEFAULT_METHOD: string := "statistical"
  const DEFAULT_SENSITIVITY: real := 3.0

  /**
   * start_detection: the body is read before the `try`, so a body that is not a
   * JSON object fails before the detector is touched.
   */
  method StartDetection(detector: Detector, body: Body<StartRequest>) returns (response: Response)
    modifies detector
    ensures !body.JsonObject? ==>
      response == Response(false, BodyErrorStatus(body)) &&
      detector.thread == old(detector.thread) && detector.detectionMethod == old(detector.detectionMethod) &&
      detector.sensitivity == old(detector.sensitivity) && detector.stopRequested == old(detector.stopRequested)
    ensures body.JsonObject? ==> response.status == 200 && (response.success <==> !old(IsAlive(detector.thread)))
    ensures body.JsonObject? && response.success ==>
      detector.thread == Alive && !detector.stopRequested &&
      detector.detectionMethod == body.fields.detectionMethod.GetOr(DEFAULT_METHOD) &&
      detector.sensitivity == body.fields.sensitivity.GetOr(DEFAULT_SENSITIVITY)
    ensures body.JsonObject? && !response.success ==>
      detector.thread == old(detector.thread) && detector.detectionMethod == old(detector.detectionMethod) &&
      detector.sensitivity == old(detector.sensitivity) && detector.stopRequested == old(detector.stopRequested)
    ensures detector.detached == old(detector.detached)
  {
    if !body.JsonObject? {
      return Response(false, BodyErrorStatus(body));
    }
    var request := body.fields;
    var started := detector.StartAnomalyDetection(request.detectionMethod.GetOr(DEFAULT_METHOD),
                                                  request.sensitivity.GetOr(DEFAULT_SENSITIVITY));
    response := Respond(Ok(started));
  }

  /** `joined` says whether the detector loop ended within the join. */
  method StopDetection(detector: Detector, joined: bool) returns (response: Response)
    modifies detector
    ensures response.status == 200
    ensures response.success <==> old(IsAlive(detector.thread))
    ensures response.success ==> detector.thread == NoThread && detector.stopRequested
    ensures !response.success ==>
      detector.thread == old(detector.thread) && detector.stopRequested == old(detector.stopRequested)
    ensures detector.detached == old(detector.detached) + if response.success && !joined then 1 else 0
    ensures detector.detectionMethod == old(detector.detectionMethod) &&
            detector.sensitivity == old(detector.sensitivity)
  {
    var stopped := detector.StopAnomalyDetection(joined);
    response := Respond(Ok(stopped));
  }

  // ---------------------------------------------------------------------
  // get_anomalies: the filters

  /**
   * The query arguments as the route reads them. `severity` is what `type=int`
   * delivers: None when the argument is missing or is not an integer.
   */
  datatype AnomalyArgs = AnomalyArgs(severity: Option<int>, resolved: Option<string>,
                                     startTime: Option<string>, endTime: Option<string>)

  /** The conditions the query ends up with; None means that column is not filtered. */
  datatype AnomalyFilter = AnomalyFilter(severity: Option<int>, resolved: Option<bool>,
                                         startTime: Option<Time>, endTime: Option<Time>)

  /** A severity filters only when it is truthy: severity 0 lists every severity. */
  function SeverityFilter(arg: Option<int>): (f: Option<int>)
    ensures f.Some? <==> arg.Some? && arg.value != 0
    ensures f.Some? ==> f.value == arg.value
  {
    if arg.Some? && arg.value != 0 then arg else None
  }

  /** Any text given for `resolved` filters; only a spelling of "true" selects resolved events. */
  function ResolvedFilter(arg: Option<string>): (f: Option<bool>)
    ensures f.None? <==> arg.None?
    ensures f == Some(true) <==> arg.Some? && Lower(arg.value) == "true"
  {
    if arg.None? then None else Some(Lower(arg.value) == "true")
  }

  /** The letter case of the `resolved` argument never matters. */
  lemma ResolvedFilterIgnoresCase(s: string)
    ensures ResolvedFilter(Some(Lower(s))) == ResolvedFilter(Some(s))
    ensures ResolvedFilter(Some("TRUE")) == Some(true)
    ensures ResolvedFilter(Some("yes")) == Some(false)
  {
    LowerIdempotent(s);
    assert Lower("TRUE") == "true";
    assert Lower("yes")[0] == 'y';
  }

  /**
   * A time bound filters when its text is non-empty; `fromIso` stands for
   * `datetime.fromisoformat`, None where that raises ValueError.
   */
  function TimeFilter(arg: Option<string>, fromIso: string -> Option<Time>): (r: Result<Option<Time>>)
    ensures r == Ok(None) <==> arg.None? || arg.value == ""
    ensures r.Raise? <==> arg.Some? && arg.value != "" && fromIso(arg.value).None?
    ensures r.Raise? ==> r.fault == ValueErrorFault
    ensures r.Ok? && r.value.Some? ==> fromIso(arg.value) == r.value
  {
    if arg.None? || arg.value == "" then Ok(None)
    else match fromIso(arg.value)
      case None => Raise(ValueErrorFault)
      case Some(t) => Ok(Some(t))
  }

  /** The start bound is parsed before the end bound, so its ValueError is the one raised. */
  function ParseFilter(args: AnomalyArgs, fromIso: string -> Option<Time>): (r: Result<AnomalyFilter>)
  {
    var start :- TimeFilter(args.startTime, fromIso);
    var end :- TimeFilter(args.endTime, fromIso);
    Ok(AnomalyFilter(SeverityFilter(args.severity), ResolvedFilter(args.resolved), start, end))
  }

  /** The request fails exactly when a non-empty time bound does not parse; otherwise every filter is as stated above. */
  lemma ParseFilterOutcome(args: AnomalyArgs, fromIso: string -> Option<Time>)
    ensures var r := ParseFilter(args, fromIso);
      var bad := (a: Option<string>) => TimeFilter(a, fromIso).Raise?;
      (r.Raise? <==> bad(args.startTime) || bad(args.endTime)) &&
      (r.Raise? ==> r.fault == ValueErrorFault) &&
      (r.Ok? ==> r.value == AnomalyFilter(SeverityFilter(args.severity), ResolvedFilter(args.resolved),
                                          TimeFilter(args.startTime, fromIso).value,
                                          TimeFilter(args.endTime, fromIso).value))
  {
  }

  predicate Matches(f: AnomalyFilter, e: AnomalyEvent)
  {
    (f.severity.Some? ==> e.severity == f.severity.value) &&
    (f.resolved.Some? ==> e.resolved == f.resolved.value) &&
    (f.startTime.Some? ==> e.timestamp >= f.startTime.value) &&
    (f.endTime.Some? ==> e.timestamp <= f.endTime.value)
  }

  /** The events a filtered query returns, in table order. */
  function Where(events: seq<AnomalyEvent>, f: AnomalyFilter): (r: seq<AnomalyEvent>)
    ensures forall e :: e in r <==> e in events && Matches(f, e)
    ensures |r| <= |events|
  {
    if events == [] then []
    else
      var last := events[|events| - 1];
      Where(events[..|events| - 1], f) + (if Matches(f, last) then [last] else [])
  }

  /** Every event passes the filter with no condition. */
  lemma {:induction false} NoFilterKeepsAll(events: seq<AnomalyEvent>)
    ensures Where(events, AnomalyFilter(None, None, None, None)) == events
  {
    if events != [] {
      NoFilterKeepsAll(events[..|events| - 1]);
      assert events == events[..|events| - 1] + [events[|events| - 1]];
    }
  }

  function EventTime(e: AnomalyEvent): real { e.timestamp as real }

  /** `order_by(timestamp.desc())` over the filtered query, before pagination. */
  function Anomalies(events: seq<AnomalyEvent>, args: AnomalyArgs, fromIso: string -> Option<Time>): Result<seq<AnomalyEvent>>
  {
    var f :- ParseFilter(args, fromIso);
    Ok(Sort(Where(events, f), DescendingBy(EventTime)))
  }

  /** The listing holds exactly the matching events, each as often as in the table, newest first. */
  lemma AnomaliesSelected(events: seq<AnomalyEvent>, args: AnomalyArgs, fromIso: string -> Option<Time>)
    ensures var r := Anomalies(events, args, fromIso);
      r.Ok? ==> var f := ParseFilter(args, fromIso).value;
        (forall e :: e in r.value <==> e in events && Matches(f, e)) &&
        multiset(r.value) == multiset(Where(events, f)) &&
        Sorted(r.value, DescendingBy(EventTime))
    ensures Anomalies(events, args, fromIso).Raise? <==> ParseFilter(args, fromIso).Raise?
  {
    var p := ParseFilter(args, fromIso);
    if p.Ok? {
      var w := Where(events, p.value);
      DescendingByIsPreorder(EventTime);
      SortCorrect(w, DescendingBy(EventTime));
      SortMembers(w, DescendingBy(EventTime));
    }
  }

  // ---------------------------------------------------------------------
  // resolve_anomaly

  /** The position of the event with key `id`, None when there is none (`get_or_404`). */
  function FindEvent(events: seq<AnomalyEvent>, id: int): (r: Option<nat>)
    ensures r.Some? ==> r.value < |events| && events[r.value].id == id &&
                        forall j :: 0 <= j < r.value ==> events[j].id != id
    ensures r.None? <==> forall j :: 0 <= j < |events| ==> events[j].id != id
  {
    if events == [] then None
    else if events[0].id == id then Some(0)
    else match FindEvent(events[1..], id)
      case None => None
      case Some(k) => Some(k + 1)
  }

  /** `notes` is the value stored in the nullable `resolution_notes` column. */
  function MarkResolved(e: AnomalyEvent, notes: Option<string>): AnomalyEvent
  {
    e.(resolved := true, resolutionNotes := notes)
  }

  /** The table after resolving event `id`, None for the 404 answer. */
  function Resolve(events: seq<AnomalyEvent>, id: int, notes: Option<string>): Option<seq<AnomalyEvent>>
  {
    match FindEvent(events, id)
    case None => None
    case Some(i) => Some(events[i := MarkResolved(events[i], notes)])
  }

  /**
   * Resolving answers 404 exactly when no event has the key; otherwise only that
   * event changes, and only its resolved flag and its notes.
   */
  lemma ResolveChangesOneEvent(events: seq<AnomalyEvent>, id: int, notes: Option<string>)
    ensures Resolve(events, id, notes).None? <==> forall j :: 0 <= j < |events| ==> events[j].id != id
    ensures Resolve(events, id, notes).Some? ==>
      var r := Resolve(events, id, notes).value;
      var i := FindEvent(events, id).value;
      |r| == |events| && r[i].id == id && r[i].resolved && r[i].resolutionNotes == notes &&
      r[i] == events[i].(resolved := true, resolutionNotes := notes) &&
      forall j :: 0 <= j < |events| && j != i ==> r[j] == events[j]
  {
  }

  /** Resolving twice with the same notes is resolving once. */
  lemma ResolveIdempotent(events: seq<AnomalyEvent>, id: int, notes: Option<string>)
    requires Resolve(events, id, notes).Some?
    ensures Resolve(Resolve(events, id, notes).value, id, notes) == Resolve(events, id, notes)
  {
    var r := Resolve(events, id, notes).value;
    var i := FindEvent(events, id).value;
    assert r[i].id == id;
    assert forall j :: 0 <= j < i ==> r[j].id != id;
    match FindEvent(r, id) {
      case Some(k) =>
        assert k == i;
    }
    assert r[i := MarkResolved(r[i], notes)] == r;
  }

  /** A resolved event no longer suppresses a new event of its type and description. */
  lemma ResolvedIsNoDuplicate(events: seq<AnomalyEvent>, id: int, notes: Option<string>, req: EventRequest, now: Time)
    requires Resolve(events, id, notes).Some?
    ensures !IsRecentDuplicate(Resolve(events, id, notes).value[FindEvent(events, id).value], req, now)
  {
  }

  /**
   * The notes `data.get('resolution_notes', '')` stores: "" when the key is
   * missing, None for a JSON null, the text otherwise.
   */
  function StoredNotes(notes: Option<JsonText>): (stored: Option<string>)
    ensures notes.None? ==> stored == Some("")
    ensures notes == Some(JsonNull) <==> stored.None?
    ensures notes.Some? && notes.value.JsonString? ==> stored == Some(notes.value.text)
  {
    match notes
    case None => Some("")
    case Some(JsonNull) => None
    case Some(JsonString(t)) => Some(t)
  }

  /**
   * resolve_anomaly: the body's `resolution_notes` (None when the key is missing).
   * The body is read before `get_or_404`, so a body that is not a JSON object fails
   * even for an unknown key; otherwise the answer is 404 or 200.
   */
  method ResolveAnomaly(store: AnomalyStore, anomalyId: int, body: Body<Option<JsonText>>) returns (status: int)
    modifies store
    ensures !body.JsonObject? ==> status == BodyErrorStatus(body) && store.events == old(store.events)
    ensures body.JsonObject? ==>
      var r := Resolve(old(store.events), anomalyId, StoredNotes(body.fields));
      (r.None? ==> status == 404 && store.events == old(store.events)) &&
      (r.Some? ==> status == 200 && store.events == r.value)
    ensures store.nextId == old(store.nextId)
  {
    if !body.JsonObject? {
      return BodyErrorStatus(body);
    }
    var notes := StoredNotes(body.fields);
    var i := 0;
    while i < |store.events| && store.events[i].id != anomalyId
      invariant 0 <= i <= |store.events|
      invariant forall j :: 0 <= j < i ==> store.events[j].id != anomalyId
    {
      i := i + 1;
    }
    if i == |store.events| {
      return 404;
    }
    assert FindEvent(store.events, anomalyId) == Some(i);
    store.events := store.events[i := MarkResolved(store.events[i], notes)];
    status := 200;
  }

  // ---------------------------------------------------------------------
  // anomaly_statistics

  function EventSeverity(e: AnomalyEvent): int { e.severity }
  function EventType(e: AnomalyEvent): string { e.eventType }
  function EventResolved(e: AnomalyEvent): bool { e.resolved }

  /** The number of events whose resolved flag is `b`. */
  function CountResolved(events: seq<AnomalyEvent>, b: bool): int
  {
    Grouping.SumWhere(events, EventResolved, b, CountOne)
  }

  datatype Resolution = Resolution(resolved: int, unresolved: int)

  datatype Statistics = Statistics(bySeverity: seq<Group<int>>, byEventType: seq<Group<string>>,
                                   byResolution: Resolution, total: int)

  /** The loop over the resolution groups: a truthy key fills `resolved`, any other `unresolved`. */
  method ResolutionData(groups: seq<Group<bool>>) returns (data: Resolution)
    ensures data == Resolution(LastCount(groups, true), LastCount(groups, false))
  {
    data := Resolution(0, 0);
    for k := 0 to |groups|
      invariant data == Resolution(LastCount(groups[..k], true), LastCount(groups[..k], false))
    {
      assert groups[..k + 1][..k] == groups[..k];
      if groups[k].key {
        data := data.(resolved := groups[k].count);
      } else {
        data := data.(unresolved := groups[k].count);
      }
    }
    assert groups[..|groups|] == groups;
  }

  method AnomalyStatistics(events: seq<AnomalyEvent>) returns (stats: Statistics)
    ensures stats.bySeverity == GroupBy(events, EventSeverity)
    ensures stats.byEventType == GroupBy(events, EventType)
    ensures stats.byResolution == Resolution(CountResolved(events, true), CountResolved(events, false))
    ensures stats.total == |events|
  {
    var severityCounts := GroupBy(events, EventSeverity);
    var eventTypeCounts := GroupBy(events, EventType);
    var resolutionCounts := GroupBy(events, EventResolved);
    var resolution := ResolutionData(resolutionCounts);
    GroupCount(events, EventResolved, true);
    GroupCount(events, EventResolved, false);
    GroupSizesTotal(events, EventSeverity);
    stats := Statistics(severityCounts, eventTypeCounts, resolution, SumBy(severityCounts, GroupSize));
  }

  /** Resolved and unresolved events together are the whole table. */
  lemma {:induction false} ResolutionCoversAll(events: seq<AnomalyEvent>)
    ensures CountResolved(events, true) + CountResolved(events, false) == |events|
    ensures CountResolved(events, true) == |Where(events, AnomalyFilter(None, Some(true), None, None))|
  {
    if events != [] {
      var init := events[..|events| - 1];
      ResolutionCoversAll(init);
      assert Where(events, AnomalyFilter(None, Some(true), None, None)) ==
             Where(init, AnomalyFilter(None, Some(true), None, None)) +
             (if events[|events| - 1].resolved then [events[|events| - 1]] else []);
    }
  }
}
