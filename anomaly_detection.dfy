// Anomaly rules (utils/anomaly_detection.py): severity banding, the
// bandwidth, protocol-share, TCP-flag and flow-count rules, duplicate
// suppression when events are recorded, and the detector's start/stop guard.
//
// Ratios and percentages are exact rationals (`real`); the statistics over
// floats (mean and standard deviation) are inputs, and `fmt2` stands for the
// `:.2f` rendering of a number.

module AnomalyDetection {
  import opened Common

  // ---------------------------------------------------------------------
  // calculate_severity: the second `def` (line 321) rebinds the name, so the
  // one-argument banding below is the only definition a call can reach.

  function CalculateSeverity(z: real): (s: int)
    ensures 2 <= s <= 5
    ensures s == 5 <==> z > 5.0
    ensures s >= 4 <==> z > 4.0
    ensures s >= 3 <==> z > 3.0
  {
    if z > 5.0 then 5 else if z > 4.0 then 4 else if z > 3.0 then 3 else 2
  }

  /** A larger z-score never gets a lower severity. */
  lemma SeverityMonotone(z1: real, z2: real)
    requires z1 <= z2
    ensures CalculateSeverity(z1) <= CalculateSeverity(z2)
  {
  }

  /** A call of `calculate_severity` with the given positional arguments. */
  function CallSeverity(args: seq<real>): (r: Result<int>)
    ensures r.Ok? <==> |args| == 1
    ensures r.Ok? ==> r.value == CalculateSeverity(args[0])
    ensures r.Raise? ==> r.fault == TypeErrorFault
  {
    if |args| == 1 then Ok(CalculateSeverity(args[0])) else Raise(TypeErrorFault)
  }

  // ---------------------------------------------------------------------
  // What a rule hands to create_anomaly_event, and how a rule ends.

  datatype EventRequest = EventRequest(eventType: string, description: string, severity: int, sourceIp: Option<string>)

  /**
   * The requests a rule issued, in order, and the exception that ended it
   * early (caught by the rule's own handler), if any. Every issued request
   * reached create_anomaly_event before the exception.
   */
  datatype Outcome = Outcome(issued: seq<EventRequest>, fault: Option<Fault>)

  const BANDWIDTH_ANOMALY: string := "Bandwidth Anomaly"
  const PROTOCOL_ANOMALY: string := "Protocol Anomaly"
  const TCP_FLAG_ANOMALY: string := "TCP Flag Anomaly"
  const FLOW_ANOMALY: string := "Flow Anomaly"

  /** The argument detect_* subtracts a timedelta from: a datetime, or the float detect_anomalies mistakenly passes. */
  datatype Moment = At(t: Time) | Number(x: real)

  /** `current_time - timedelta(hours=h)`: a float operand raises TypeError. */
  function HoursBefore(m: Moment, hours: nat): (r: Result<Time>)
    ensures r.Raise? <==> m.Number?
    ensures r.Raise? ==> r.fault == TypeErrorFault
    ensures r.Ok? ==> r.value == m.t - hours * SECONDS_PER_HOUR
  {
    match m
    case At(t) => Ok(t - hours * SECONDS_PER_HOUR)
    case Number(_) => Raise(TypeErrorFault)
  }

  /** `x / y > c`, for a positive divisor, is the cross-multiplied comparison. */
  lemma DivExceeds(x: real, y: real, c: real)
    requires y > 0.0
    ensures x / y > c <==> x > c * y
  {
    var q := x / y;
    assert q * y == x;
    if q > c {
      assert q * y > c * y;
    }
    if x > c * y {
      assert q * y > c * y;
    }
  }

  /** `(a / b) * 100 > p` over integers, for b > 0. */
  lemma PercentExceeds(a: int, b: int, p: int)
    requires b > 0
    ensures (a as real / b as real) * 100.0 > p as real <==> 100 * a > p * b
  {
    var q := a as real / b as real;
    assert q * 100.0 == (100 * a) as real / b as real by {
      assert q * (b as real) == a as real;
    }
    DivExceeds((100 * a) as real, b as real, p as real);
  }

  // ---------------------------------------------------------------------
  // detect_bandwidth_anomalies

  /**
   * One of the two checks made per interface: its latest value, mean and
   * standard deviation, and whether `stdev > 0 and |latest - mean| > sensitivity * stdev`
   * held (computed over floats, which this model does not carry).
   */
  datatype BandwidthCheck = BandwidthCheck(incoming: bool, iface: string, latest: int,
                                           mean: real, stdev: real, outlier: bool)

  function BandwidthRequest(c: BandwidthCheck, sensitivity: real, severity: int, fmt2: real -> string): EventRequest
  {
    var direction := if c.incoming then "incoming" else "outgoing";
    EventRequest(BANDWIDTH_ANOMALY,
      "Unusual " + direction + " traffic on interface " + c.iface + ": " + Decimal(c.latest) + " bytes " +
      "(mean: " + fmt2(c.mean) + ", threshold: " + fmt2(c.mean + sensitivity * c.stdev) + ")",
      severity, None)
  }

  /** The checks in order; an outlier calls calculate_severity with three arguments. */
  function BandwidthScan(checks: seq<BandwidthCheck>, sensitivity: real, fmt2: real -> string): Outcome
  {
    if checks == [] then Outcome([], None)
    else
      var c := checks[0];
      if !c.outlier then BandwidthScan(checks[1..], sensitivity, fmt2)
      else match CallSeverity([c.latest as real, c.mean, c.stdev])
        case Raise(f) => Outcome([], Some(f))
        case Ok(severity) =>
          var rest := BandwidthScan(checks[1..], sensitivity, fmt2);
          Outcome([BandwidthRequest(c, sensitivity, severity, fmt2)] + rest.issued, rest.fault)
  }

  /** `rowCount` rows of the last day; fewer than ten means no analysis. */
  function DetectBandwidthAnomalies(rowCount: nat, checks: seq<BandwidthCheck>, sensitivity: real,
                                    fmt2: real -> string): Outcome
  {
    if rowCount < 10 then Outcome([], None) else BandwidthScan(checks, sensitivity, fmt2)
  }

  /**
   * No bandwidth anomaly is ever recorded: the first outlier's severity call
   * raises TypeError before its event is created, and the handler swallows it.
   */
  lemma {:induction false} BandwidthNeverRecords(rowCount: nat, checks: seq<BandwidthCheck>, sensitivity: real,
                                                 fmt2: real -> string)
    ensures DetectBandwidthAnomalies(rowCount, checks, sensitivity, fmt2).issued == []
    ensures DetectBandwidthAnomalies(rowCount, checks, sensitivity, fmt2).fault.Some? <==>
      rowCount >= 10 && exists k :: 0 <= k < |checks| && checks[k].outlier
  {
    if rowCount >= 10 {
      BandwidthScanRaises(checks, sensitivity, fmt2);
    }
  }

  lemma {:induction false} BandwidthScanRaises(checks: seq<BandwidthCheck>, sensitivity: real, fmt2: real -> string)
    ensures BandwidthScan(checks, sensitivity, fmt2).issued == []
    ensures BandwidthScan(checks, sensitivity, fmt2).fault.Some? <==> exists k :: 0 <= k < |checks| && checks[k].outlier
  {
    if checks != [] {
      if !checks[0].outlier {
        BandwidthScanRaises(checks[1..], sensitivity, fmt2);
        assert forall k :: 0 < k < |checks| ==> checks[k] == checks[1..][k - 1];
        if exists k :: 0 <= k < |checks| && checks[k].outlier {
          var k :| 0 <= k < |checks| && checks[k].outlier;
          assert checks[1..][k - 1].outlier;
        }
      }
    }
  }

  // ---------------------------------------------------------------------
  // detect_protocol_anomalies

  /** A `(protocol, count)` group of the last day's packets. */
  datatype ProtocolCount = ProtocolCount(protocol: string, count: nat)

  function TotalPackets(counts: seq<ProtocolCount>): nat
  {
    if counts == [] then 0 else counts[0].count + TotalPackets(counts[1..])
  }

  function ProtocolRequest(c: ProtocolCount, total: nat, fmt2: real -> string): EventRequest
    requires total > 0
  {
    var percentage := (c.count as real / total as real) * 100.0;
    EventRequest(PROTOCOL_ANOMALY,
      "Unusual amount of " + c.protocol + " traffic: " + fmt2(percentage) + "% of total traffic",
      if percentage > 90.0 then 3 else 2, None)
  }

  /** One request per group whose share of the total exceeds 80 percent, in group order. */
  function ProtocolRequests(counts: seq<ProtocolCount>, total: nat, fmt2: real -> string): seq<EventRequest>
    requires total > 0
  {
    if counts == [] then []
    else
      var percentage := (counts[0].count as real / total as real) * 100.0;
      (if percentage > 80.0 then [ProtocolRequest(counts[0], total, fmt2)] else []) +
      ProtocolRequests(counts[1..], total, fmt2)
  }

  function DetectProtocolAnomalies(currentTime: Moment, counts: seq<ProtocolCount>, fmt2: real -> string): Outcome
  {
    match HoursBefore(currentTime, 24)
    case Raise(f) => Outcome([], Some(f))
    case Ok(_) =>
      if |counts| < 3 then Outcome([], None)
      else
        var total := TotalPackets(counts);
        if total == 0 then Outcome([], Some(ZeroDivision))
        else Outcome(ProtocolRequests(counts, total, fmt2), None)
  }

  /** Integer reference: the groups with 5 * count > 4 * total, that is, over 80 percent. */
  function FlaggedProtocols(counts: seq<ProtocolCount>, total: nat): seq<ProtocolCount>
  {
    if counts == [] then []
    else (if 5 * counts[0].count > 4 * total then [counts[0]] else []) + FlaggedProtocols(counts[1..], total)
  }

  /** The rule flags exactly the groups over 80 percent, request k describing flagged group k,
      at severity 3 exactly when over 90 percent. */
  lemma {:induction false} ProtocolRequestsFlagged(counts: seq<ProtocolCount>, total: nat, fmt2: real -> string)
    requires total > 0
    ensures var r := ProtocolRequests(counts, total, fmt2);
      var f := FlaggedProtocols(counts, total);
      |r| == |f| &&
      forall k :: 0 <= k < |r| ==>
        r[k] == ProtocolRequest(f[k], total, fmt2) &&
        r[k].eventType == PROTOCOL_ANOMALY && (r[k].severity == 3 <==> 10 * f[k].count > 9 * total) &&
        (r[k].severity == 2 <==> 10 * f[k].count <= 9 * total)
  {
    if counts != [] {
      var c := counts[0];
      PercentExceeds(c.count, total, 80);
      PercentExceeds(c.count, total, 90);
      ProtocolRequestsFlagged(counts[1..], total, fmt2);
    }
  }

  /** Shares add up to the whole, so at most one group can exceed 80 percent. */
  lemma AtMostOneProtocolFlagged(counts: seq<ProtocolCount>)
    requires TotalPackets(counts) > 0
    ensures |FlaggedProtocols(counts, TotalPackets(counts))| <= 1
  {
    FlaggedShare(counts, TotalPackets(counts));
  }

  /** One flagged group holds over four fifths of `total`, two hold over eight fifths. */
  lemma {:induction false} FlaggedShare(counts: seq<ProtocolCount>, total: nat)
    ensures |FlaggedProtocols(counts, total)| >= 1 ==> 5 * TotalPackets(counts) > 4 * total
    ensures |FlaggedProtocols(counts, total)| >= 2 ==> 5 * TotalPackets(counts) > 8 * total
  {
    if counts != [] {
      FlaggedShare(counts[1..], total);
    }
  }

  // ---------------------------------------------------------------------
  // detect_connection_anomalies

  /** A `(tcp_flags, count)` group of the last hour's TCP packets. */
  datatype FlagCount = FlagCount(flags: string, count: nat)

  /** Sum of the counts of the groups whose flag string satisfies `p`. */
  function SumWhere(groups: seq<FlagCount>, p: string -> bool): nat
  {
    if groups == [] then 0
    else (if p(groups[0].flags) then groups[0].count else 0) + SumWhere(groups[1..], p)
  }

  function SynCount(groups: seq<FlagCount>): nat { SumWhere(groups, f => f == "S") }
  function SynAckCount(groups: seq<FlagCount>): nat { SumWhere(groups, f => f == "SA") }
  function RstCount(groups: seq<FlagCount>): nat { SumWhere(groups, f => 'R' in f) }
  function FlagTotal(groups: seq<FlagCount>): nat { SumWhere(groups, f => true) }

  function SynFloodRequests(syn: nat, synack: nat, fmt2: real -> string): seq<EventRequest>
  {
    if syn > 0 && synack > 0 then
      var ratio := syn as real / synack as real;
      if ratio > 3.0 then
        [EventRequest(TCP_FLAG_ANOMALY,
          "Possible SYN flood attack detected: SYN to SYN-ACK ratio is " + fmt2(ratio),
          if ratio > 10.0 then 4 else 3, None)]
      else []
    else []
  }

  function RstRequests(rst: nat, total: nat, fmt2: real -> string): seq<EventRequest>
  {
    if total > 0 then
      var percentage := (rst as real / total as real) * 100.0;
      if percentage > 30.0 then
        [EventRequest(TCP_FLAG_ANOMALY,
          "High rate of RST flags (" + fmt2(percentage) + "% of TCP packets), " +
          "possible port scanning or connection issues",
          if percentage > 50.0 then 3 else 2, None)]
      else []
    else []
  }

  function DetectConnectionAnomalies(currentTime: Moment, groups: seq<FlagCount>, fmt2: real -> string): Outcome
  {
    match HoursBefore(currentTime, 1)
    case Raise(f) => Outcome([], Some(f))
    case Ok(_) =>
      if groups == [] then Outcome([], None)
      else Outcome(SynFloodRequests(SynCount(groups), SynAckCount(groups), fmt2) +
                   RstRequests(RstCount(groups), FlagTotal(groups), fmt2), None)
  }

  /** The SYN-flood rule fires exactly when syn > 3 * synack with both positive; severity 4 when syn > 10 * synack. */
  lemma SynFloodRule(syn: nat, synack: nat, fmt2: real -> string)
    ensures var r := SynFloodRequests(syn, synack, fmt2);
      |r| <= 1 &&
      (|r| == 1 <==> syn > 0 && synack > 0 && syn > 3 * synack) &&
      (|r| == 1 ==> r[0].eventType == TCP_FLAG_ANOMALY && (r[0].severity == 4 <==> syn > 10 * synack) &&
                    (r[0].severity == 3 <==> syn <= 10 * synack))
  {
    if syn > 0 && synack > 0 {
      DivExceeds(syn as real, synack as real, 3.0);
      DivExceeds(syn as real, synack as real, 10.0);
    }
  }

  /** The RST rule fires exactly when RST-carrying packets are over 30 percent; severity 3 when over 50 percent. */
  lemma RstRule(rst: nat, total: nat, fmt2: real -> string)
    ensures var r := RstRequests(rst, total, fmt2);
      |r| <= 1 &&
      (|r| == 1 <==> total > 0 && 10 * rst > 3 * total) &&
      (|r| == 1 ==> r[0].eventType == TCP_FLAG_ANOMALY && (r[0].severity == 3 <==> 2 * rst > total) &&
                    (r[0].severity == 2 <==> 2 * rst <= total))
  {
    if total > 0 {
      PercentExceeds(rst, total, 30);
      PercentExceeds(rst, total, 50);
    }
  }

  /** Only the exact strings 'S' and 'SA' count: a group with any other string changes neither sum. */
  lemma {:induction false} SynCountsExact(groups: seq<FlagCount>, g: FlagCount)
    requires g.flags != "S" && g.flags != "SA"
    ensures SynCount([g] + groups) == SynCount(groups) && SynAckCount([g] + groups) == SynAckCount(groups)
  {
    assert ([g] + groups)[1..] == groups;
  }

  /** A group whose string holds 'R' adds its whole count to the RST sum, whatever else it holds. */
  lemma RstCountsContaining(groups: seq<FlagCount>, g: FlagCount)
    requires 'R' in g.flags
    ensures RstCount([g] + groups) == g.count + RstCount(groups)
    ensures FlagTotal([g] + groups) == g.count + FlagTotal(groups)
  {
    assert ([g] + groups)[1..] == groups;
  }

  // ---------------------------------------------------------------------
  // detect_flow_anomalies

  /** A `(source_ip, flow_count)` row of the top ten sources. */
  datatype SourceCount = SourceCount(sourceIp: string, flowCount: nat)

  function FlowRequests(sources: seq<SourceCount>, average: real, fmt2: real -> string): (r: seq<EventRequest>)
    ensures |r| <= |sources|
    ensures forall k :: 0 <= k < |r| ==> r[k].eventType == FLOW_ANOMALY && 2 <= r[k].severity <= 3 && r[k].sourceIp.Some?
  {
    if sources == [] then []
    else
      var s := sources[0];
      (if s.flowCount as real > average * 5.0 then
        [EventRequest(FLOW_ANOMALY,
          "Host " + s.sourceIp + " has an unusually high number of flows: " + Decimal(s.flowCount) +
          " (average: " + fmt2(average) + ")",
          if s.flowCount as real > average * 10.0 then 3 else 2, Some(s.sourceIp))]
      else []) + FlowRequests(sources[1..], average, fmt2)
  }

  /**
   * `average` is the outcome of the nested `avg(count())` query, whose SQL
   * semantics are not modelled: a value, None (turned into 0 by `or 0`), or
   * the database error it raises.
   */
  function DetectFlowAnomalies(currentTime: Moment, sources: seq<SourceCount>, average: Result<Option<real>>,
                               fmt2: real -> string): Outcome
  {
    match HoursBefore(currentTime, 24)
    case Raise(f) => Outcome([], Some(f))
    case Ok(_) =>
      if sources == [] then Outcome([], None)
      else match average
        case Raise(f) => Outcome([], Some(f))
        case Ok(a) => Outcome(FlowRequests(sources, a.GetOr(0.0), fmt2), None)
  }

  /** A source is reported exactly when its flow count exceeds five times the average; severity 3 above ten times. */
  lemma {:induction false} FlowRequestsFlagged(sources: seq<SourceCount>, average: real, fmt2: real -> string)
    ensures var r := FlowRequests(sources, average, fmt2);
      |r| == |FlaggedSources(sources, average)| &&
      forall k :: 0 <= k < |r| ==>
        var s := FlaggedSources(sources, average)[k];
        r[k].sourceIp == Some(s.sourceIp) && (r[k].severity == 3 <==> s.flowCount as real > average * 10.0)
  {
    if sources != [] {
      FlowRequestsFlagged(sources[1..], average, fmt2);
    }
  }

  /** Reference: the sources above five times the average, in order. */
  function FlaggedSources(sources: seq<SourceCount>, average: real): (r: seq<SourceCount>)
    ensures forall k :: 0 <= k < |r| ==> r[k] in sources && r[k].flowCount as real > average * 5.0
  {
    if sources == [] then []
    else (if sources[0].flowCount as real > average * 5.0 then [sources[0]] else []) +
         FlaggedSources(sources[1..], average)
  }

  /** With no average (None, turned into 0), every source with at least one flow is reported at severity 3. */
  lemma {:induction false} FlowRuleWithoutAverage(sources: seq<SourceCount>, fmt2: real -> string)
    requires forall k :: 0 <= k < |sources| ==> sources[k].flowCount > 0
    ensures var r := FlowRequests(sources, 0.0, fmt2);
      |r| == |sources| && forall k :: 0 <= k < |r| ==> r[k].severity == 3
  {
    if sources != [] {
      assert forall k :: 0 <= k < |sources| - 1 ==> sources[1..][k] == sources[k + 1];
      FlowRuleWithoutAverage(sources[1..], fmt2);
    }
  }

  // ---------------------------------------------------------------------
  // create_anomaly_event and the event table

  /** A row of the AnomalyEvent table. */
  datatype AnomalyEvent = AnomalyEvent(
    id: int, timestamp: Time, eventType: string, severity: int, description: string,
    sourceIp: Option<string>, destinationIp: Option<string>, resolved: bool, resolutionNotes: Option<string>)

  /** An unresolved event of the same type and description from the last hour. */
  predicate IsRecentDuplicate(e: AnomalyEvent, req: EventRequest, now: Time)
  {
    e.eventType == req.eventType && e.description == req.description &&
    e.timestamp >= now - SECONDS_PER_HOUR && !e.resolved
  }

  predicate HasRecentDuplicate(events: seq<AnomalyEvent>, req: EventRequest, now: Time)
  {
    exists i :: 0 <= i < |events| && IsRecentDuplicate(events[i], req, now)
  }

  function NewEvent(req: EventRequest, now: Time, id: int): AnomalyEvent
  {
    AnomalyEvent(id, now, req.eventType, req.severity, req.description, req.sourceIp, None, false, None)
  }

  /** The table after create_anomaly_event; `id` is the key the database assigns. */
  function Created(events: seq<AnomalyEvent>, req: EventRequest, now: Time, id: int): (r: seq<AnomalyEvent>)
    ensures HasRecentDuplicate(events, req, now) ==> r == events
    ensures !HasRecentDuplicate(events, req, now) ==>
      |r| == |events| + 1 && r[..|events|] == events && !r[|events|].resolved &&
      r[|events|].eventType == req.eventType && r[|events|].description == req.description &&
      r[|events|].severity == req.severity && r[|events|].timestamp == now
  {
    if HasRecentDuplicate(events, req, now) then events else events + [NewEvent(req, now, id)]
  }

  /** Issuing the same request again at the same moment adds nothing. */
  lemma CreateIdempotent(events: seq<AnomalyEvent>, req: EventRequest, now: Time, id: int, id2: int)
    ensures Created(Created(events, req, now, id), req, now, id2) == Created(events, req, now, id)
  {
    var once := Created(events, req, now, id);
    if !HasRecentDuplicate(events, req, now) {
      assert IsRecentDuplicate(once[|events|], req, now);
    }
  }

  /** The table after issuing `reqs` in order, and the next free key. */
  function CreatedAll(events: seq<AnomalyEvent>, reqs: seq<EventRequest>, now: Time, nextId: int): (r: (seq<AnomalyEvent>, int))
    ensures |events| <= |r.0| <= |events| + |reqs| && r.0[..|events|] == events
    ensures r.1 - nextId == |r.0| - |events|
    decreases |reqs|
  {
    if reqs == [] then (events, nextId)
    else
      var once := Created(events, reqs[0], now, nextId);
      CreatedAll(once, reqs[1..], now, nextId + |once| - |events|)
  }

  /** Issuing a non-empty batch is issuing its first request, then the rest. */
  lemma CreatedAllStep(events: seq<AnomalyEvent>, reqs: seq<EventRequest>, now: Time, nextId: int)
    requires reqs != []
    ensures var once := Created(events, reqs[0], now, nextId);
      CreatedAll(events, reqs, now, nextId) == CreatedAll(once, reqs[1..], now, nextId + |once| - |events|)
  {
  }

  /** The event types a batch of requests asks for. */
  function EventTypes(reqs: seq<EventRequest>): set<string>
    decreases |reqs|
  {
    if reqs == [] then {} else {reqs[0].eventType} + EventTypes(reqs[1..])
  }

  /** A batch whose requests all have one type asks for that type alone. */
  lemma {:induction false} EventTypesOne(reqs: seq<EventRequest>, t: string)
    requires forall j :: 0 <= j < |reqs| ==> reqs[j].eventType == t
    ensures EventTypes(reqs) <= {t}
    decreases |reqs|
  {
    if reqs != [] {
      assert forall j :: 0 <= j < |reqs[1..]| ==> reqs[1..][j] == reqs[j + 1];
      EventTypesOne(reqs[1..], t);
    }
  }

  /** Every event added by a batch of requests carries the type of one of them. */
  lemma {:induction false} CreatedAllTypes(events: seq<AnomalyEvent>, reqs: seq<EventRequest>, now: Time, nextId: int)
    ensures var r := CreatedAll(events, reqs, now, nextId).0;
      forall k :: |events| <= k < |r| ==> r[k].eventType in EventTypes(reqs)
    decreases |reqs|
  {
    if reqs != [] {
      var once := Created(events, reqs[0], now, nextId);
      var next := nextId + |once| - |events|;
      CreatedAllStep(events, reqs, now, nextId);
      CreatedAllTypes(once, reqs[1..], now, next);
      var r := CreatedAll(once, reqs[1..], now, next).0;
      assert r[..|once|] == once;
      forall k | |events| <= k < |once|
        ensures r[k].eventType == reqs[0].eventType
      {
        assert r[k] == once[k] && |once| == |events| + 1;
      }
    }
  }

  /** The AnomalyEvent table and the key the next insert receives. */
  class AnomalyStore {
    var events: seq<AnomalyEvent>
    var nextId: int

    constructor ()
      ensures events == [] && nextId == 1
    {
      events := [];
      nextId := 1;
    }

    method CreateAnomalyEvent(req: EventRequest, now: Time)
      modifies this
      ensures events == Created(old(events), req, now, old(nextId))
      ensures nextId == old(nextId) + |events| - |old(events)|
    {
      var existing := HasRecentDuplicate(events, req, now);
      if existing {
        return;
      }
      events := events + [NewEvent(req, now, nextId)];
      nextId := nextId + 1;
    }

    /** Hands a rule's issued requests to create_anomaly_event one at a time. */
    method Record(reqs: seq<EventRequest>, now: Time)
      modifies this
      ensures (events, nextId) == CreatedAll(old(events), reqs, now, old(nextId))
    {
      for k := 0 to |reqs|
        invariant CreatedAll(old(events), reqs, now, old(nextId)) == CreatedAll(events, reqs[k..], now, nextId)
      {
        RecordStep(reqs, k, now);
      }
    }

    /** One iteration of Record: issue request k, the rest of the batch following. */
    method RecordStep(reqs: seq<EventRequest>, k: nat, now: Time)
      requires k < |reqs|
      modifies this
      ensures CreatedAll(old(events), reqs[k..], now, old(nextId)) == CreatedAll(events, reqs[k + 1..], now, nextId)
    {
      CreatedAllStep(events, reqs[k..], now, nextId);
      assert reqs[k..][0] == reqs[k];
      assert reqs[k..][1..] == reqs[k + 1..];
      CreateAnomalyEvent(reqs[k], now);
    }

    /**
     * detect_anomalies: the four rules in order. The protocol rule receives the
     * global sensitivity where it expects the current time.
     */
    method DetectAnomalies(now: Time, sensitivity: real, bandwidthRows: nat, bandwidth: seq<BandwidthCheck>,
                           protocols: seq<ProtocolCount>, flagGroups: seq<FlagCount>,
                           sources: seq<SourceCount>, average: Result<Option<real>>, fmt2: real -> string)
      modifies this
      ensures var afterConnection := CreatedAll(old(events), DetectConnectionAnomalies(At(now), flagGroups, fmt2).issued,
                                                now, old(nextId));
        (events, nextId) == CreatedAll(afterConnection.0, DetectFlowAnomalies(At(now), sources, average, fmt2).issued,
                                       now, afterConnection.1)
    {
      Record(DetectBandwidthAnomalies(bandwidthRows, bandwidth, sensitivity, fmt2).issued, now);
      BandwidthNeverRecords(bandwidthRows, bandwidth, sensitivity, fmt2);
      Record(DetectProtocolAnomalies(Number(sensitivity), protocols, fmt2).issued, now);
      Record(DetectConnectionAnomalies(At(now), flagGroups, fmt2).issued, now);
      Record(DetectFlowAnomalies(At(now), sources, average, fmt2).issued, now);
    }
  }

  /** The protocol rule, as detect_anomalies calls it, always stops at the TypeError. */
  lemma ProtocolRuleNeverRuns(sensitivity: real, counts: seq<ProtocolCount>, fmt2: real -> string)
    ensures DetectProtocolAnomalies(Number(sensitivity), counts, fmt2) == Outcome([], Some(TypeErrorFault))
  {
  }

  /** Two batches of requests of one type each add events of those two types only. */
  lemma TwoBatchesTypes(events: seq<AnomalyEvent>, c: seq<EventRequest>, f: seq<EventRequest>, now: Time, nextId: int,
                        first: string, second: string)
    requires forall j :: 0 <= j < |c| ==> c[j].eventType == first
    requires forall j :: 0 <= j < |f| ==> f[j].eventType == second
    ensures var a := CreatedAll(events, c, now, nextId);
      var b := CreatedAll(a.0, f, now, a.1).0;
      forall k :: |events| <= k < |b| ==> b[k].eventType == first || b[k].eventType == second
  {
    var a := CreatedAll(events, c, now, nextId);
    var b := CreatedAll(a.0, f, now, a.1).0;
    CreatedAllTypes(events, c, now, nextId);
    CreatedAllTypes(a.0, f, now, a.1);
    assert forall k :: |events| <= k < |a.0| ==> a.0[k].eventType in EventTypes(c) by {
      assert a.0 == CreatedAll(events, c, now, nextId).0;
    }
    assert forall k :: |a.0| <= k < |b| ==> b[k].eventType in EventTypes(f) by {
      assert b == CreatedAll(a.0, f, now, a.1).0;
    }
    EventTypesOne(c, first);
    EventTypesOne(f, second);
    forall k | |events| <= k < |b|
      ensures b[k].eventType == first || b[k].eventType == second
    {
      if k < |a.0| {
        assert b[..|a.0|] == a.0;
        assert b[k] == a.0[k];
        assert a.0[k].eventType in EventTypes(c);
      } else {
        assert b[k].eventType in EventTypes(f);
      }
    }
  }

  /** Every request of the connection rule is a TCP flag anomaly. */
  lemma ConnectionTypes(currentTime: Moment, groups: seq<FlagCount>, fmt2: real -> string)
    ensures var c := DetectConnectionAnomalies(currentTime, groups, fmt2).issued;
      forall j :: 0 <= j < |c| ==> c[j].eventType == TCP_FLAG_ANOMALY
  {
    if HoursBefore(currentTime, 1).Ok? && groups != [] {
      SynFloodRule(SynCount(groups), SynAckCount(groups), fmt2);
      RstRule(RstCount(groups), FlagTotal(groups), fmt2);
    }
  }

  /** So a detection pass only ever records TCP flag and flow anomalies. */
  lemma DetectionPassTypes(events: seq<AnomalyEvent>, now: Time, nextId: int, flagGroups: seq<FlagCount>,
                           sources: seq<SourceCount>, average: Result<Option<real>>, fmt2: real -> string)
    ensures var a := CreatedAll(events, DetectConnectionAnomalies(At(now), flagGroups, fmt2).issued, now, nextId);
      var b := CreatedAll(a.0, DetectFlowAnomalies(At(now), sources, average, fmt2).issued, now, a.1).0;
      forall k :: |events| <= k < |b| ==> b[k].eventType == TCP_FLAG_ANOMALY || b[k].eventType == FLOW_ANOMALY
  {
    var c := DetectConnectionAnomalies(At(now), flagGroups, fmt2).issued;
    var f := DetectFlowAnomalies(At(now), sources, average, fmt2).issued;
    ConnectionTypes(At(now), flagGroups, fmt2);
    assert forall j :: 0 <= j < |f| ==> f[j].eventType == FLOW_ANOMALY;
    TwoBatchesTypes(events, c, f, now, nextId, TCP_FLAG_ANOMALY, FLOW_ANOMALY);
  }

  // ---------------------------------------------------------------------
  // start_anomaly_detection and stop_anomaly_detection

  class Detector {
    /** `detector_thread`. */
    var thread: ThreadState
    /** `stop_detector`, polled by the loop. */
    var stopRequested: bool
    var detectionMethod: string
    var sensitivity: real
    /**
     * Loops of threads that stop forgot while they were still running: the
     * join gave up after 5 s, yet each loop goes on polling `stop_detector`.
     */
    var detached: nat

    /** The detector loops still running: the current thread's and the detached ones. */
    function RunningLoops(): nat
      reads this
    {
      detached + if thread == Alive then 1 else 0
    }

    constructor ()
      ensures thread == NoThread && !stopRequested && detectionMethod == "statistical" && sensitivity == 3.0
      ensures detached == 0
    {
      thread := NoThread;
      detached := 0;
      stopRequested := false;
      detectionMethod := "statistical";
      sensitivity := 3.0;
    }

    /** Refuses while the detector thread is alive; otherwise stores the settings and starts one. */
    method StartAnomalyDetection(detection: string, sens: real) returns (started: bool)
      modifies this
      ensures started <==> !old(IsAlive(thread))
      ensures started ==> thread == Alive && !stopRequested && detectionMethod == detection && sensitivity == sens
      ensures !started ==> (thread == old(thread) && stopRequested == old(stopRequested) &&
                            detectionMethod == old(detectionMethod) && sensitivity == old(sensitivity))
      ensures detached == old(detached)
    {
      if IsAlive(thread) {
        return false;
      }
      stopRequested := false;
      detectionMethod := detection;
      sensitivity := sens;
      thread := Alive;
      return true;
    }

    /**
     * A running loop ends: it catches every exception and sleeps again, so it
     * leaves only once it sees the stop flag. `current` says whether it is the
     * loop of the thread the global still holds or a detached one.
     */
    method LoopExits(current: bool)
      requires stopRequested
      modifies this
      ensures thread == (if current && old(thread) == Alive then Stopped else old(thread))
      ensures detached == (if !current && old(detached) > 0 then old(detached) - 1 else old(detached))
      ensures stopRequested == old(stopRequested) && detectionMethod == old(detectionMethod) &&
              sensitivity == old(sensitivity)
    {
      if current && thread == Alive {
        thread := Stopped;
      } else if !current && detached > 0 {
        detached := detached - 1;
      }
    }

    /**
     * Refuses unless the thread is alive; otherwise raises the stop flag and
     * forgets the thread. `joined` says whether the loop saw the flag within
     * the 5 s join; when it did not (it sleeps up to 300 s between passes) it
     * goes on running, detached.
     */
    method StopAnomalyDetection(joined: bool) returns (stopped: bool)
      modifies this
      ensures stopped <==> old(IsAlive(thread))
      ensures stopped ==> thread == NoThread && stopRequested
      ensures !stopped ==> thread == old(thread) && stopRequested == old(stopRequested)
      ensures detached == old(detached) + if stopped && !joined then 1 else 0
      ensures detectionMethod == old(detectionMethod) && sensitivity == old(sensitivity)
    {
      if !IsAlive(thread) {
        return false;
      }
      stopRequested := true;
      if !joined {
        detached := detached + 1;
      }
      thread := NoThread;
      return true;
    }
  }

  /**
   * A stop whose join times out, followed by a start before the old loop wakes:
   * the start clears the flag the old loop was to see, so two loops run side by
   * side and neither is asked to stop.
   */
  method RestartBeforeLoopWakes() returns (d: Detector)
    ensures d.thread == Alive && !d.stopRequested && d.detached == 1 && d.RunningLoops() == 2
  {
    d := new Detector();
    var started := d.StartAnomalyDetection("statistical", 3.0);
    var stopped := d.StopAnomalyDetection(false);
    started := d.StartAnomalyDetection("statistical", 3.0);
  }
}
