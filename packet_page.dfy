// The packet analysis page: the interface picker, the start form's checks,
// the packet table's rows, the flag formatting of the detail view, and the
// globals behind pagination and the viewed capture's refresh timer.

module PacketPage {
  import opened Common
  import opened Grouping
  import opened PageCommon
  import PacketCapture

  // ---------------------------------------------------------------------
  // The interface picker

  /** An `<option>` of the capture interface select. */
  datatype SelectOption = SelectOption(value: string, text: string, disabled: bool)

  /** `name`, then ` (description)` when the description is non-empty, then ` [DOWN]` for an interface that is down. */
  function InterfaceOption(iface: PacketCapture.InterfaceRow): SelectOption
  {
    var text := iface.name + (if iface.description != "" then " (" + iface.description + ")" else "");
    SelectOption(iface.name, if !iface.isUp then text + " [DOWN]" else text, !iface.isUp)
  }

  const NO_INTERFACES: SelectOption := SelectOption("", "No interfaces available", true)

  /** The options after a reply: one per interface in order, or the single disabled placeholder. */
  function InterfaceOptions(ifaces: seq<PacketCapture.InterfaceRow>): seq<SelectOption>
  {
    if ifaces == [] then [NO_INTERFACES] else MapSeq(ifaces, InterfaceOption)
  }

  /**
   * Every interface is offered under its own name and its label starts with that
   * name; it is unselectable exactly when the interface is down, and then its label
   * ends in " [DOWN]"; an interface that is up is labelled by its name alone, or
   * by its name and its description in parentheses. An empty list leaves only an
   * unselectable placeholder whose value is empty.
   */
  lemma InterfaceOptionsCorrect(ifaces: seq<PacketCapture.InterfaceRow>)
    ensures var opts := InterfaceOptions(ifaces);
      (ifaces == [] ==> opts == [NO_INTERFACES] && opts[0].disabled && opts[0].value == "") &&
      (ifaces != [] ==> |opts| == |ifaces| && forall i :: 0 <= i < |ifaces| ==>
        opts[i].value == ifaces[i].name &&
        opts[i].text[..|ifaces[i].name|] == ifaces[i].name &&
        (opts[i].disabled <==> !ifaces[i].isUp) &&
        (!ifaces[i].isUp ==> opts[i].text[|opts[i].text| - 7..] == " [DOWN]") &&
        (ifaces[i].isUp && ifaces[i].description == "" ==> opts[i].text == ifaces[i].name) &&
        (ifaces[i].isUp && ifaces[i].description != "" ==>
          opts[i].text == ifaces[i].name + " (" + ifaces[i].description + ")"))
  {
    if ifaces != [] {
      var opts := InterfaceOptions(ifaces);
      forall i | 0 <= i < |ifaces|
        ensures opts[i].text[..|ifaces[i].name|] == ifaces[i].name
      {
        var iface := ifaces[i];
        var text := iface.name + (if iface.description != "" then " (" + iface.description + ")" else "");
        assert text[..|iface.name|] == iface.name;
        if !iface.isUp {
          assert (text + " [DOWN]")[..|iface.name|] == text[..|iface.name|];
        }
      }
    }
  }

  // ---------------------------------------------------------------------
  // The start form

  /** The form's fields; the timeout is what `parseInt` made of its field. */
  datatype CaptureForm = CaptureForm(iface: string, name: string, filter: string, timeout: Option<int>)

  /** The request body, or the alert shown instead of a request. */
  datatype StartOutcome = Rejected(message: string) | Send(iface: string, name: string, filterExpression: string, timeout: Option<int>)

  const NO_INTERFACE_MESSAGE: string := "Please select a capture interface"
  const NO_NAME_MESSAGE: string := "Please enter a name for the capture"

  /** An empty interface is reported first, then an empty name; otherwise the fields are sent as they are. */
  function StartCapture(form: CaptureForm): (r: StartOutcome)
    ensures r.Rejected? <==> form.iface == "" || form.name == ""
    ensures r.Rejected? ==> (r.message == NO_INTERFACE_MESSAGE <==> form.iface == "")
    ensures r.Send? ==> r == Send(form.iface, form.name, form.filter, form.timeout)
  {
    if form.iface == "" then Rejected(NO_INTERFACE_MESSAGE)
    else if form.name == "" then Rejected(NO_NAME_MESSAGE)
    else Send(form.iface, form.name, form.filter, form.timeout)
  }

  // ---------------------------------------------------------------------
  // The packet table

  /** A packet of the reply; an absent field is None. */
  datatype PacketSummary = PacketSummary(protocol: Option<string>, sourceIp: Option<string>, sourcePort: Option<int>,
                                         destinationIp: Option<string>, destinationPort: Option<int>,
                                         length: Option<int>, tcpFlags: Option<string>, info: Option<string>)

  datatype PacketRow = PacketRow(number: int, protocolClass: string, protocol: string, source: string,
                                 destination: string, length: int, flags: string, info: string)

  /** A string field is shown when truthy, that is present and non-empty. */
  function Truthy(s: Option<string>): bool
  {
    s.Some? && s.value != ""
  }

  /** The flags column: the wrapped spans when the packet has a non-empty flag string, else nothing. */
  function FlagsCell(flags: Option<string>): string
  {
    if Truthy(flags) then TcpFlagsCell(flags.value) else ""
  }

  function RowOf(p: PacketSummary, number: int): PacketRow
  {
    PacketRow(number,
              if Truthy(p.protocol) then "protocol-" + Lower(p.protocol.value) else "",
              if Truthy(p.protocol) then p.protocol.value else "Unknown",
              Endpoint(p.sourceIp.GetOr(""), p.sourcePort),
              Endpoint(p.destinationIp.GetOr(""), p.destinationPort),
              p.length.GetOr(0),
              FlagsCell(p.tcpFlags),
              p.info.GetOr(""))
  }

  /** The table body after a reply. */
  datatype PacketTable = Rows(rows: seq<PacketRow>) | NoPacketsFound

  /** The body of the forEach for one packet; the flags cell is built by the per-character loop. */
  method PacketRowOf(p: PacketSummary, number: int) returns (row: PacketRow)
    ensures row == RowOf(p, number)
  {
    var flagsHtml := "";
    if Truthy(p.tcpFlags) {
      var spans := FormatFlagSpans(p.tcpFlags.value);
      flagsHtml := "<span class=\"tcp-flags\">" + spans + "</span>";
    }
    var protocolClass := if Truthy(p.protocol) then "protocol-" + Lower(p.protocol.value) else "";
    row := PacketRow(number, protocolClass,
                     if Truthy(p.protocol) then p.protocol.value else "Unknown",
                     Endpoint(p.sourceIp.GetOr(""), p.sourcePort),
                     Endpoint(p.destinationIp.GetOr(""), p.destinationPort),
                     p.length.GetOr(0), flagsHtml, p.info.GetOr(""));
  }

  /** The forEach over the reply's packets, numbering rows on from the previous pages. */
  method PacketRows(packets: seq<PacketSummary>, currentPage: int) returns (rows: seq<PacketRow>)
    ensures |rows| == |packets|
    ensures forall i :: 0 <= i < |packets| ==> rows[i] == RowOf(packets[i], RowNumber(i, currentPage))
  {
    rows := [];
    var i := 0;
    while i < |packets|
      invariant 0 <= i <= |packets|
      invariant |rows| == i
      invariant forall k :: 0 <= k < i ==> rows[k] == RowOf(packets[k], RowNumber(k, currentPage))
    {
      var row := PacketRowOf(packets[i], i + 1 + (currentPage - 1) * 50);
      assert i + 1 + (currentPage - 1) * 50 == RowNumber(i, currentPage);
      rows := rows + [row];
      i := i + 1;
    }
  }

  /**
   * A page's rows are numbered on from the previous page, and the flags cell of a
   * row reads back the packet's flag string, or is empty when it has none.
   */
  lemma PacketRowsCorrect(p: PacketSummary, q: PacketSummary, i: int, page: int)
    requires 0 <= i < ROWS_PER_PAGE - 1 && page >= 1
    ensures RowOf(q, RowNumber(i + 1, page)).number == RowOf(p, RowNumber(i, page)).number + 1
    ensures RowOf(q, RowNumber(0, page + 1)).number == RowOf(p, RowNumber(ROWS_PER_PAGE - 1, page)).number + 1
    ensures RowOf(p, 1).flags == "" <==> !Truthy(p.tcpFlags)
    ensures Truthy(p.tcpFlags) && Truthy(q.tcpFlags) ==>
      (RowOf(p, 1).flags == RowOf(q, 1).flags <==> p.tcpFlags == q.tcpFlags)
  {
    if Truthy(p.tcpFlags) && Truthy(q.tcpFlags) {
      var a, b := p.tcpFlags.value, q.tcpFlags.value;
      if TcpFlagsCell(a) == TcpFlagsCell(b) {
        var n := |TcpFlagsCell(a)|;
        assert FlagSpans(a) == TcpFlagsCell(a)[24..n - 7];
        assert FlagSpans(b) == TcpFlagsCell(b)[24..n - 7];
      }
      FlagSpansInjective(a, b);
    }
  }

  // ---------------------------------------------------------------------
  // formatTcpFlags

  /** The detail view's flags value: a string, or any other JavaScript value. */
  datatype FlagsValue = Text(s: string) | NonString(id: nat)

  /** A string becomes one span per character; anything else is returned unchanged. */
  method FormatTcpFlags(flags: FlagsValue) returns (r: FlagsValue)
    ensures flags.Text? ==> r == Text(FlagSpans(flags.s))
    ensures flags.NonString? ==> r == flags
  {
    if flags.Text? {
      var html := FormatFlagSpans(flags.s);
      return Text(html);
    }
    return flags;
  }

  // ---------------------------------------------------------------------
  // The page's globals

  class Page {
    var currentCaptureId: Option<string>
    var paging: Paging
    var captureIntervalId: Option<int>

    constructor ()
      ensures currentCaptureId.None? && paging == FIRST_PAGING && captureIntervalId.None?
    {
      currentCaptureId := None;
      paging := FIRST_PAGING;
      captureIntervalId := None;
    }

    /**
     * Shows a capture from page 1; an active capture gets the one 5000 ms refresh
     * timer of the page, an inactive one leaves the page with none.
     */
    method ViewCapture(timers: Scheduler, captureId: string, isActive: bool) returns (load: (string, int))
      requires timers.Valid() && AtMostTimer(timers, captureIntervalId)
      modifies this, timers
      ensures timers.Valid() && AtMostTimer(timers, captureIntervalId)
      ensures currentCaptureId == Some(captureId) && paging == old(paging).(currentPage := 1)
      ensures load == (captureId, 1)
      ensures isActive ==> captureIntervalId.Some? && timers.active == map[captureIntervalId.value := 5000]
      ensures !isActive ==> captureIntervalId.None? && timers.active == map[]
    {
      currentCaptureId := Some(captureId);
      paging := paging.(currentPage := 1);
      load := (captureId, 1);
      if isActive {
        if captureIntervalId.Some? {
          timers.ClearInterval(captureIntervalId.value);
        }
        assert timers.active.Keys == {};
        var h := timers.SetInterval(5000);
        captureIntervalId := Some(h);
      } else {
        if captureIntervalId.Some? {
          timers.ClearInterval(captureIntervalId.value);
          captureIntervalId := None;
        }
        assert timers.active.Keys == {};
      }
    }

    /** The prev button: the capture and page to load, if any. */
    method PrevPage() returns (load: Option<(Option<string>, int)>)
      modifies this
      ensures paging == PrevStep(old(paging)).0
      ensures load.Some? <==> PrevStep(old(paging)).1.Some?
      ensures load.Some? ==> load.value == (currentCaptureId, paging.currentPage)
      ensures currentCaptureId == old(currentCaptureId) && captureIntervalId == old(captureIntervalId)
    {
      var step := PrevStep(paging);
      paging := step.0;
      load := if step.1.Some? then Some((currentCaptureId, step.1.value)) else None;
    }

    /** The next button: the capture and page to load, if any. */
    method NextPage() returns (load: Option<(Option<string>, int)>)
      modifies this
      ensures paging == NextStep(old(paging)).0
      ensures load.Some? <==> NextStep(old(paging)).1.Some?
      ensures load.Some? ==> load.value == (currentCaptureId, paging.currentPage)
      ensures currentCaptureId == old(currentCaptureId) && captureIntervalId == old(captureIntervalId)
    {
      var step := NextStep(paging);
      paging := step.0;
      load := if step.1.Some? then Some((currentCaptureId, step.1.value)) else None;
    }

    /**
     * A loaded page of packets: the reply's page and page count, the buttons, and the rows
     * numbered from that page, or the "No packets found" row for a missing or empty list.
     */
    method Loaded(page: int, pages: int, packets: Option<seq<PacketSummary>>) returns (buttons: PageButtons, body: PacketTable)
      modifies this
      ensures (paging, buttons) == LoadedStep(page, pages)
      ensures body.NoPacketsFound? <==> packets.None? || packets.value == []
      ensures body.Rows? ==> (|body.rows| == |packets.value| &&
        forall i :: 0 <= i < |packets.value| ==> body.rows[i] == RowOf(packets.value[i], RowNumber(i, page)))
      ensures currentCaptureId == old(currentCaptureId) && captureIntervalId == old(captureIntervalId)
    {
      var step := LoadedStep(page, pages);
      paging, buttons := step.0, step.1;
      if packets.Some? && |packets.value| > 0 {
        var rows := PacketRows(packets.value, paging.currentPage);
        body := Rows(rows);
      } else {
        body := NoPacketsFound;
      }
    }
  }
}
