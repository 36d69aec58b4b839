// The flow analysis page: the collector form's port check, the protocol
// column of the flow table, row numbering, pagination and the collector
// buttons.

module FlowPage {
  import opened Common
  import opened PageCommon

  // ---------------------------------------------------------------------
  // The start form

  const DEFAULT_FLOW_TYPE: string := "netflow"
  const DEFAULT_PORT: int := 9995
  const PORT_MESSAGE: string := "Please enter a valid port number (1-65535)"

  /**
   * The form's elements as the page finds them: None for a missing element. The port
   * field holds what `parseInt` made of its text, None standing for NaN.
   */
  datatype CollectorForm = CollectorForm(flowTypeField: Option<string>, portField: Option<Option<int>>)

  /** The request body, or the alert shown instead of a request. */
  datatype StartOutcome = Rejected(message: string) | Send(flowType: string, port: int)

  /** A port is accepted when it is a number in 1..65535; a missing element means 9995. */
  function StartCollector(form: CollectorForm): (r: StartOutcome)
    ensures r.Rejected? ==> r.message == PORT_MESSAGE
    ensures r.Send? ==> 1 <= r.port <= 65535 && r.flowType == form.flowTypeField.GetOr(DEFAULT_FLOW_TYPE)
  {
    var port := if form.portField.Some? then form.portField.value else Some(DEFAULT_PORT);
    if port.None? || port.value < 1 || port.value > 65535 then Rejected(PORT_MESSAGE)
    else Send(form.flowTypeField.GetOr(DEFAULT_FLOW_TYPE), port.value)
  }

  /**
   * The request carries the typed port exactly when it is a number in range, and the
   * default port when the element is missing; a NaN never gets through.
   */
  lemma StartCollectorAccepts(flowType: Option<string>, port: Option<int>)
    ensures StartCollector(CollectorForm(flowType, Some(port))).Send? <==> port.Some? && 1 <= port.value <= 65535
    ensures port.Some? && 1 <= port.value <= 65535 ==>
      StartCollector(CollectorForm(flowType, Some(port))).port == port.value
    ensures StartCollector(CollectorForm(flowType, None)) == Send(flowType.GetOr(DEFAULT_FLOW_TYPE), DEFAULT_PORT)
    ensures StartCollector(CollectorForm(None, None)) == Send("netflow", 9995)
  {
  }

  // ---------------------------------------------------------------------
  // The flow table

  /** 6, 17 and 1 are named; any other protocol number is shown as it is. */
  function ProtocolName(protocol: int): string
  {
    if protocol == 6 then "TCP"
    else if protocol == 17 then "UDP"
    else if protocol == 1 then "ICMP"
    else Decimal(protocol)
  }

  /**
   * The column tells protocol numbers apart: the three names are given exactly to
   * 6, 17 and 1, and any other number reads back from its column.
   */
  lemma ProtocolNameReadsBack(p: int, q: int)
    ensures ProtocolName(p) == "TCP" <==> p == 6
    ensures ProtocolName(p) == "UDP" <==> p == 17
    ensures ProtocolName(p) == "ICMP" <==> p == 1
    ensures p != 6 && p != 17 && p != 1 ==> ParseDecimal(ProtocolName(p)) == p
    ensures ProtocolName(p) == ProtocolName(q) <==> p == q
  {
    NotAName(p);
    NotAName(q);
    if p != 6 && p != 17 && p != 1 {
      DecimalRoundTrip(p);
    }
    if q != 6 && q != 17 && q != 1 {
      DecimalRoundTrip(q);
    }
  }

  /** A number's text ends in a digit, so it is none of the names. */
  lemma NotAName(n: int)
    ensures Decimal(n) != "TCP" && Decimal(n) != "UDP" && Decimal(n) != "ICMP"
  {
    var d := Decimal(n);
    var m: nat := if n < 0 then -n else n;
    assert d[|d| - 1] == Digits(m)[|Digits(m)| - 1];
    assert IsDigit(d[|d| - 1]);
  }

  /** A flow of the reply, reduced to the columns the page derives. */
  datatype FlowSummary = FlowSummary(flowType: string, sourceIp: string, sourcePort: Option<int>,
                                     destinationIp: string, destinationPort: Option<int>, protocol: int)

  datatype FlowRow = FlowRow(number: int, flowType: string, source: string, destination: string, protocol: string)

  function RowOf(f: FlowSummary, number: int): FlowRow
  {
    FlowRow(number, f.flowType, Endpoint(f.sourceIp, f.sourcePort), Endpoint(f.destinationIp, f.destinationPort),
            ProtocolName(f.protocol))
  }

  /** The table body after a reply. */
  datatype FlowTable = Rows(rows: seq<FlowRow>) | NoFlowsFound

  /** The forEach over the reply's flows. */
  method FlowRows(flows: seq<FlowSummary>, currentPage: int) returns (rows: seq<FlowRow>)
    ensures |rows| == |flows|
    ensures forall i :: 0 <= i < |flows| ==> rows[i] == RowOf(flows[i], RowNumber(i, currentPage))
  {
    rows := [];
    var i := 0;
    while i < |flows|
      invariant 0 <= i <= |flows|
      invariant |rows| == i
      invariant forall k :: 0 <= k < i ==> rows[k] == RowOf(flows[k], RowNumber(k, currentPage))
    {
      var f := flows[i];
      var protocolName := Decimal(f.protocol);
      if f.protocol == 6 {
        protocolName := "TCP";
      } else if f.protocol == 17 {
        protocolName := "UDP";
      } else if f.protocol == 1 {
        protocolName := "ICMP";
      }
      rows := rows + [FlowRow(i + 1 + (currentPage - 1) * 50, f.flowType,
                              Endpoint(f.sourceIp, f.sourcePort), Endpoint(f.destinationIp, f.destinationPort),
                              protocolName)];
      i := i + 1;
    }
  }

  // ---------------------------------------------------------------------
  // The page's globals

  class Page {
    var paging: Paging
    var controls: Controls

    predicate Valid()
      reads this
    {
      Consistent(controls)
    }

    /** The globals as the script declares them, then `checkCollectorStatus` on the inactive state. */
    constructor ()
      ensures Valid() && paging == FIRST_PAGING && !controls.active
    {
      paging := FIRST_PAGING;
      controls := UpdateStatus(Controls(false, false, false), false);
    }

    /** `updateCollectorStatus`: records the state and enables exactly the button that changes it. */
    method UpdateCollectorStatus(isActive: bool)
      modifies this
      ensures Valid() && controls == UpdateStatus(old(controls), isActive)
      ensures paging == old(paging)
    {
      controls := UpdateStatus(controls, isActive);
    }

    /**
     * The start form: nothing happens on a rejected port; a sent request settles with
     * the restoring `finally`, so the buttons stay consistent with the state.
     */
    method StartFlowCollector(form: CollectorForm, success: bool) returns (sent: StartOutcome)
      requires Valid()
      modifies this
      ensures Valid() && sent == StartCollector(form)
      ensures sent.Rejected? ==> controls == old(controls)
      ensures sent.Send? ==> controls == StartCorrected(old(controls), success)
      ensures paging == old(paging)
    {
      sent := StartCollector(form);
      if sent.Send? {
        SettledCorrectedKeepsConsistency(controls, success);
        controls := StartCorrected(controls, success);
      }
    }

    /** The stop button, after the confirmation dialog. */
    method StopFlowCollector(confirmed: bool, success: bool)
      requires Valid()
      modifies this
      ensures Valid()
      ensures controls == if confirmed then StopCorrected(old(controls), success) else old(controls)
      ensures paging == old(paging)
    {
      if confirmed {
        SettledCorrectedKeepsConsistency(controls, success);
        controls := StopCorrected(controls, success);
      }
    }

    /** The prev button: the page to load, if any. */
    method PrevPage() returns (load: Option<int>)
      modifies this
      ensures (paging, load) == PrevStep(old(paging))
      ensures controls == old(controls)
    {
      var step := PrevStep(paging);
      paging, load := step.0, step.1;
    }

    /** The next button: the page to load, if any. */
    method NextPage() returns (load: Option<int>)
      modifies this
      ensures (paging, load) == NextStep(old(paging))
      ensures controls == old(controls)
    {
      var step := NextStep(paging);
      paging, load := step.0, step.1;
    }

    /** The filter form starts again from page 1. */
    method FilterSubmit() returns (load: int)
      modifies this
      ensures paging == old(paging).(currentPage := 1) && load == 1
      ensures controls == old(controls)
    {
      paging := paging.(currentPage := 1);
      load := 1;
    }

    /**
     * A loaded page of flows: the reply's page and page count, the buttons, and the rows
     * numbered from that page, or the "No flow records found" row for a missing or empty list.
     */
    method Loaded(page: int, pages: int, flows: Option<seq<FlowSummary>>) returns (buttons: PageButtons, body: FlowTable)
      modifies this
      ensures (paging, buttons) == LoadedStep(page, pages)
      ensures body.NoFlowsFound? <==> flows.None? || flows.value == []
      ensures body.Rows? ==> (|body.rows| == |flows.value| &&
        forall i :: 0 <= i < |flows.value| ==> body.rows[i] == RowOf(flows.value[i], RowNumber(i, page)))
      ensures controls == old(controls)
    {
      var step := LoadedStep(page, pages);
      paging, buttons := step.0, step.1;
      if flows.Some? && |flows.value| > 0 {
        var rows := FlowRows(flows.value, paging.currentPage);
        body := Rows(rows);
      } else {
        body := NoFlowsFound;
      }
    }
  }
}
