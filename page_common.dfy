// What the browser controllers share: the page's browser timers, the
// pagination globals and their buttons, row numbering, the host:port column,
// the coloured TCP flag spans, the start/stop button state of a background
// service, and the "top N plus Other" shaping of a protocol list.

module PageCommon {
  import opened Common
  import opened Sorting
  import opened Grouping

  // ---------------------------------------------------------------------
  // setInterval / clearInterval

  /** The intervals a page has installed, by handle, with their period in milliseconds. */
  class Scheduler {
    var active: map<int, int>
    var nextHandle: int

    ghost predicate Valid()
      reads this
    {
      nextHandle >= 1 && forall h :: h in active ==> 1 <= h < nextHandle
    }

    constructor ()
      ensures Valid() && active == map[]
    {
      active := map[];
      nextHandle := 1;
    }

    /** Installs an interval; its handle is positive, so truthy, and not in use. */
    method SetInterval(ms: int) returns (h: int)
      requires Valid()
      modifies this
      ensures Valid()
      ensures h >= 1 && h !in old(active) && active == old(active)[h := ms]
    {
      h := nextHandle;
      active := active[h := ms];
      nextHandle := nextHandle + 1;
    }

    /** Removes an interval; an unknown handle is ignored. */
    method ClearInterval(h: int)
      requires Valid()
      modifies this
      ensures Valid()
      ensures active == old(active) - {h}
    {
      active := active - {h};
    }
  }

  /** The page runs no interval but the one its global names. */
  ghost predicate AtMostTimer(s: Scheduler, handle: Option<int>)
    reads s
  {
    s.active.Keys <= if handle.Some? then {handle.value} else {}
  }

  // ---------------------------------------------------------------------
  // currentPage / totalPages

  datatype Paging = Paging(currentPage: int, totalPages: int)

  /** The page that loads first (the globals' initial values). */
  const FIRST_PAGING: Paging := Paging(1, 1)

  /** The prev handler: step back only from a page after the first, and load it. */
  function PrevStep(p: Paging): (r: (Paging, Option<int>))
    ensures p.currentPage > 1 <==> r.1.Some?
    ensures r.1.Some? ==> r.1.value == r.0.currentPage == p.currentPage - 1
    ensures r.1.None? ==> r.0 == p
    ensures r.0.totalPages == p.totalPages
    ensures p.currentPage >= 1 ==> r.0.currentPage >= 1
  {
    if p.currentPage > 1 then (p.(currentPage := p.currentPage - 1), Some(p.currentPage - 1)) else (p, None)
  }

  /** The next handler: step forward only from a page before the last, and load it. */
  function NextStep(p: Paging): (r: (Paging, Option<int>))
    ensures p.currentPage < p.totalPages <==> r.1.Some?
    ensures r.1.Some? ==> r.1.value == r.0.currentPage == p.currentPage + 1
    ensures r.1.None? ==> r.0 == p
    ensures r.0.totalPages == p.totalPages
    ensures r.0.currentPage <= p.currentPage || r.0.currentPage <= p.totalPages
  {
    if p.currentPage < p.totalPages then (p.(currentPage := p.currentPage + 1), Some(p.currentPage + 1)) else (p, None)
  }

  /** `prev.disabled` and `next.disabled` after a load. */
  datatype PageButtons = PageButtons(prevDisabled: bool, nextDisabled: bool)

  /** A load stores the server's page and page count and sets the buttons from them. */
  function LoadedStep(page: int, pages: int): (r: (Paging, PageButtons))
    ensures r.0 == Paging(page, pages)
    ensures r.1.prevDisabled <==> page == 1
    ensures r.1.nextDisabled <==> page == pages
  {
    (Paging(page, pages), PageButtons(page == 1, page == pages))
  }

  /**
   * Starting from a page in 1..totalPages, no click sequence leaves that range;
   * the buttons are disabled exactly where the handlers would not move, except
   * that with no result at all (totalPages 0) next stays enabled and does nothing.
   */
  lemma PagingBounds(p: Paging)
    requires 1 <= p.currentPage <= p.totalPages
    ensures 1 <= PrevStep(p).0.currentPage <= p.totalPages
    ensures 1 <= NextStep(p).0.currentPage <= p.totalPages
    ensures LoadedStep(p.currentPage, p.totalPages).1.prevDisabled <==> PrevStep(p).1.None?
    ensures LoadedStep(p.currentPage, p.totalPages).1.nextDisabled <==> NextStep(p).1.None?
    ensures !LoadedStep(1, 0).1.nextDisabled && NextStep(Paging(1, 0)).1.None?
  {
  }

  /** Rows shown per page of packets and of flows. */
  const ROWS_PER_PAGE: int := 50

  /** The number column: `index + 1 + (currentPage - 1) * 50`. */
  function RowNumber(index: int, page: int): int
  {
    index + 1 + (page - 1) * ROWS_PER_PAGE
  }

  /** Page p numbers its rows (p-1)*50+1 .. p*50, so consecutive pages continue one another and no number repeats. */
  lemma RowNumbering(i: int, p: int, j: int, q: int)
    requires 0 <= i < ROWS_PER_PAGE && 0 <= j < ROWS_PER_PAGE && p >= 1 && q >= 1
    ensures (p - 1) * ROWS_PER_PAGE < RowNumber(i, p) <= p * ROWS_PER_PAGE
    ensures RowNumber(i, p) == RowNumber(j, q) <==> i == j && p == q
    ensures RowNumber(ROWS_PER_PAGE - 1, p) + 1 == RowNumber(0, p + 1)
  {
    if p < q {
      assert p * ROWS_PER_PAGE <= (q - 1) * ROWS_PER_PAGE;
    } else if q < p {
      assert q * ROWS_PER_PAGE <= (p - 1) * ROWS_PER_PAGE;
    }
  }

  // ---------------------------------------------------------------------
  // `${ip}${port ? ':' + port : ''}`

  /** A port is shown only when truthy: present and not 0. */
  function Endpoint(ip: string, port: Option<int>): string
  {
    if port.Some? && port.value != 0 then ip + ":" + Decimal(port.value) else ip
  }

  /** The column is the address alone exactly when the port is missing or 0; otherwise the port reads back after the colon. */
  lemma EndpointReadsBack(ip: string, port: Option<int>)
    ensures Endpoint(ip, port) == ip <==> port.None? || port.value == 0
    ensures port.Some? && port.value != 0 ==>
      var e := Endpoint(ip, port);
      |e| > |ip| && e[..|ip|] == ip && e[|ip|] == ':' && ParseDecimal(e[|ip| + 1..]) == port.value
    ensures Endpoint("10.0.0.1", Some(0)) == "10.0.0.1"
  {
    if port.Some? && port.value != 0 {
      var e := Endpoint(ip, port);
      assert e[|ip| + 1..] == Decimal(port.value);
      DecimalRoundTrip(port.value);
    }
  }

  // ---------------------------------------------------------------------
  // `<span class="flag-${f}">${f}</span>` per flag letter

  /** One flag letter, coloured by its own class: 29 characters, the letter at 18 and 21. */
  function FlagSpan(c: char): (html: string)
    ensures |html| == 29 && html[18] == c && html[21] == c
  {
    "<span class=\"flag-" + [c] + "\">" + [c] + "</span>"
  }

  /** The spans of every letter of a flags string, in order. */
  function FlagSpans(flags: string): string
  {
    if flags == [] then "" else FlagSpans(flags[..|flags| - 1]) + FlagSpan(flags[|flags| - 1])
  }

  /** The loop that appends one span per character. */
  method FormatFlagSpans(flags: string) returns (html: string)
    ensures html == FlagSpans(flags)
  {
    html := "";
    var i := 0;
    while i < |flags|
      invariant 0 <= i <= |flags|
      invariant html == FlagSpans(flags[..i])
    {
      assert flags[..i + 1][..i] == flags[..i];
      html := html + FlagSpan(flags[i]);
      i := i + 1;
    }
    assert flags[..i] == flags;
  }

  /** Span k of the output is the span of letter k, and nothing else is written. */
  lemma {:induction false} FlagSpansLayout(flags: string)
    ensures |FlagSpans(flags)| == 29 * |flags|
    ensures forall k :: 0 <= k < |flags| ==> FlagSpans(flags)[29 * k..29 * k + 29] == FlagSpan(flags[k])
  {
    if flags != [] {
      var init := flags[..|flags| - 1];
      FlagSpansLayout(init);
      var h := FlagSpans(flags);
      assert h == FlagSpans(init) + FlagSpan(flags[|flags| - 1]);
      forall k | 0 <= k < |flags|
        ensures h[29 * k..29 * k + 29] == FlagSpan(flags[k])
      {
        if k < |init| {
          assert flags[k] == init[k];
          SliceOfLeft(FlagSpans(init), FlagSpan(flags[|flags| - 1]), 29 * k, 29 * k + 29);
        } else {
          SliceOfRight(FlagSpans(init), FlagSpan(flags[|flags| - 1]));
        }
      }
    }
  }

  /** Character 18 of span k is letter k. */
  lemma FlagLetterAt(flags: string, k: int)
    requires 0 <= k < |flags|
    ensures 29 * k + 18 < |FlagSpans(flags)| && FlagSpans(flags)[29 * k + 18] == flags[k]
  {
    FlagSpansLayout(flags);
    var block := FlagSpans(flags)[29 * k..29 * k + 29];
    assert block == FlagSpan(flags[k]);
    assert block[18] == FlagSpans(flags)[29 * k + 18];
  }

  /** The letters read back from the spans: different flag strings never render alike. */
  lemma FlagSpansInjective(a: string, b: string)
    ensures FlagSpans(a) == FlagSpans(b) <==> a == b
  {
    if FlagSpans(a) == FlagSpans(b) {
      FlagSpansLayout(a);
      FlagSpansLayout(b);
      assert |a| == |b|;
      forall k | 0 <= k < |a|
        ensures a[k] == b[k]
      {
        FlagLetterAt(a, k);
        FlagLetterAt(b, k);
      }
    }
  }

  /** The spans wrapped in the outer `tcp-flags` span. */
  function TcpFlagsCell(flags: string): (html: string)
    ensures html == "<span class=\"tcp-flags\">" + FlagSpans(flags) + "</span>"
    ensures |html| == 24 + 29 * |flags| + 7
  {
    FlagSpansLayout(flags);
    "<span class=\"tcp-flags\">" + FlagSpans(flags) + "</span>"
  }

  // ---------------------------------------------------------------------
  // Start/stop buttons of a background service (flow collector, anomaly detector)

  /** The page's `*Active` global and the two buttons' `disabled` properties. */
  datatype Controls = Controls(active: bool, startDisabled: bool, stopDisabled: bool)

  /** The status update: record the state, disable the button that would repeat it. */
  function UpdateStatus(c: Controls, isActive: bool): (r: Controls)
    ensures r.active == isActive && r.startDisabled == isActive && r.stopDisabled == !isActive
  {
    Controls(isActive, isActive, !isActive)
  }

  /** Exactly the button that changes the state is enabled. */
  predicate Consistent(c: Controls)
  {
    c.startDisabled == c.active && c.stopDisabled == !c.active
  }

  /**
   * A start as the pages write it: the button is disabled while the request runs,
   * a successful reply updates the status, and `finally` enables the button again
   * whatever the reply was.
   */
  function StartAsWritten(c: Controls, success: bool): Controls
  {
    var pressed := c.(startDisabled := true);
    var replied := if success then UpdateStatus(pressed, true) else pressed;
    replied.(startDisabled := false)
  }

  /** A stop as the pages write it, with the same `finally`. */
  function StopAsWritten(c: Controls, success: bool): Controls
  {
    var pressed := c.(stopDisabled := true);
    var replied := if success then UpdateStatus(pressed, false) else pressed;
    replied.(stopDisabled := false)
  }

  /** The successful start leaves start enabled on a running service, and the successful stop the same for stop. */
  lemma SettledAsWrittenBreaksConsistency(c: Controls)
    requires Consistent(c)
    ensures !c.active ==> StartAsWritten(c, true).active && !Consistent(StartAsWritten(c, true))
    ensures c.active ==> !StopAsWritten(c, true).active && !Consistent(StopAsWritten(c, true))
    ensures Consistent(StartAsWritten(c, false)) <==> !c.active
    ensures Consistent(StopAsWritten(c, false)) <==> c.active
  {
  }

  /** A start whose `finally` restores the button from the recorded state. */
  function StartCorrected(c: Controls, success: bool): (r: Controls)
    ensures r.active == (success || c.active)
  {
    var pressed := c.(startDisabled := true);
    var replied := if success then UpdateStatus(pressed, true) else pressed;
    replied.(startDisabled := replied.active)
  }

  /** A stop whose `finally` restores the button from the recorded state. */
  function StopCorrected(c: Controls, success: bool): (r: Controls)
    ensures r.active == (!success && c.active)
  {
    var pressed := c.(stopDisabled := true);
    var replied := if success then UpdateStatus(pressed, false) else pressed;
    replied.(stopDisabled := !replied.active)
  }

  /** With the restoring `finally`, every reply leaves the buttons consistent with the state. */
  lemma SettledCorrectedKeepsConsistency(c: Controls, success: bool)
    requires Consistent(c)
    ensures Consistent(StartCorrected(c, success)) && Consistent(StopCorrected(c, success))
    ensures Consistent(UpdateStatus(c, success))
    ensures !success ==> StartCorrected(c, success) == c && StopCorrected(c, success) == c
  {
  }

  // ---------------------------------------------------------------------
  // Protocol charts: sort by percentage, show the top N and fold the rest into "Other"

  /** An entry of the distribution endpoint's list; the dashboard's "Other" carries no packet count. */
  datatype ProtocolSlice = ProtocolSlice(protocol: string, byteCount: int, packetCount: Option<int>, percentage: real)

  function SliceBytes(s: ProtocolSlice): int { s.byteCount }

  function SlicePackets(s: ProtocolSlice): int { s.packetCount.GetOr(0) }

  /** `(a, b) => b.percentage - a.percentage`. */
  predicate ByPercentage(a: ProtocolSlice, b: ProtocolSlice)
  {
    a.percentage >= b.percentage
  }

  function PercentSum(slices: seq<ProtocolSlice>): real
  {
    if slices == [] then 0.0 else PercentSum(slices[..|slices| - 1]) + slices[|slices| - 1].percentage
  }

  lemma {:induction false} PercentSumAppend(a: seq<ProtocolSlice>, b: seq<ProtocolSlice>)
    ensures PercentSum(a + b) == PercentSum(a) + PercentSum(b)
  {
    if b == [] {
      assert a + b == a;
    } else {
      assert (a + b)[..|a + b| - 1] == a + b[..|b| - 1];
      PercentSumAppend(a, b[..|b| - 1]);
    }
  }

  /** The folded entry: byte, (optionally) packet and percentage sums of the rest. */
  function OtherSlice(rest: seq<ProtocolSlice>, withPackets: bool): (o: ProtocolSlice)
    ensures o.protocol == "Other" && o.byteCount == SumBy(rest, SliceBytes) && o.percentage == PercentSum(rest)
    ensures o.packetCount.Some? <==> withPackets
  {
    ProtocolSlice("Other", SumBy(rest, SliceBytes), if withPackets then Some(SumBy(rest, SlicePackets)) else None, PercentSum(rest))
  }

  /** `slice(0, limit)`, plus "Other" when the list was longer. */
  function TopWithOther(sorted: seq<ProtocolSlice>, limit: nat, withPackets: bool): seq<ProtocolSlice>
  {
    if |sorted| > limit then sorted[..limit] + [OtherSlice(sorted[limit..], withPackets)] else sorted
  }

  /** The shown list: the first `limit` entries unchanged, then at most one "Other". */
  lemma TopWithOtherShape(sorted: seq<ProtocolSlice>, limit: nat, withPackets: bool)
    ensures var r := TopWithOther(sorted, limit, withPackets);
      |r| <= limit + 1 && |r| <= |sorted| + 1 &&
      (|sorted| <= limit ==> r == sorted) &&
      (|sorted| > limit ==> |r| == limit + 1 && r[..limit] == sorted[..limit] && r[limit] == OtherSlice(sorted[limit..], withPackets))
  {
  }

  /** Folding keeps the byte, packet and percentage totals of the list. */
  lemma TopWithOtherTotals(sorted: seq<ProtocolSlice>, limit: nat, withPackets: bool)
    ensures SumBy(TopWithOther(sorted, limit, withPackets), SliceBytes) == SumBy(sorted, SliceBytes)
    ensures PercentSum(TopWithOther(sorted, limit, withPackets)) == PercentSum(sorted)
    ensures withPackets ==> SumBy(TopWithOther(sorted, limit, withPackets), SlicePackets) == SumBy(sorted, SlicePackets)
  {
    if |sorted| > limit {
      var top, rest := sorted[..limit], sorted[limit..];
      var o := OtherSlice(rest, withPackets);
      assert sorted == top + rest;
      SumByAppend(top, rest, SliceBytes);
      SumByAppend(top, [o], SliceBytes);
      SumByAppend(top, rest, SlicePackets);
      SumByAppend(top, [o], SlicePackets);
      PercentSumAppend(top, rest);
      PercentSumAppend(top, [o]);
      assert [o][..0] == [];
    }
  }

  /** The chart series: the sorted list, folded. */
  function ChartSlices(protocols: seq<ProtocolSlice>, limit: nat, withPackets: bool): seq<ProtocolSlice>
  {
    TopWithOther(Sort(protocols, ByPercentage), limit, withPackets)
  }

  /** The chart shows every byte (and packet) of the reply in no more than `limit` protocols plus "Other". */
  lemma ChartSlicesTotals(protocols: seq<ProtocolSlice>, limit: nat, withPackets: bool)
    ensures var r := ChartSlices(protocols, limit, withPackets);
      |r| <= limit + 1 && SumBy(r, SliceBytes) == SumBy(protocols, SliceBytes) &&
      (withPackets ==> SumBy(r, SlicePackets) == SumBy(protocols, SlicePackets))
  {
    var sorted := Sort(protocols, ByPercentage);
    TopWithOtherShape(sorted, limit, withPackets);
    TopWithOtherTotals(sorted, limit, withPackets);
    SumByPermutation(sorted, protocols, SliceBytes);
    SumByPermutation(sorted, protocols, SlicePackets);
  }

  /** The shown protocols come from the reply, and no hidden protocol has a larger share than a shown one. */
  lemma ChartSlicesTop(protocols: seq<ProtocolSlice>, limit: nat, withPackets: bool)
    ensures var sorted := Sort(protocols, ByPercentage);
      forall i, j :: 0 <= i < limit <= j < |sorted| ==> sorted[i].percentage >= sorted[j].percentage
    ensures forall k :: 0 <= k < limit && k < |protocols| ==>
      ChartSlices(protocols, limit, withPackets)[k] in protocols
  {
    var sorted := Sort(protocols, ByPercentage);
    assert TotalPreorder(ByPercentage);
    SortCorrect(protocols, ByPercentage);
    SortMembers(protocols, ByPercentage);
    forall k | 0 <= k < limit && k < |protocols|
      ensures ChartSlices(protocols, limit, withPackets)[k] in protocols
    {
      TopWithOtherShape(sorted, limit, withPackets);
      assert ChartSlices(protocols, limit, withPackets)[k] == sorted[k];
    }
  }

  // ---------------------------------------------------------------------
  // `chart.data.labels` / `chart.data.datasets[0].data` of a bar or pie chart

  datatype BarData = BarData(labels: seq<string>, values: seq<int>)

  function SliceProtocol(s: ProtocolSlice): string { s.protocol }

  /** `labels = slices.map(p => p.protocol)`, `values = slices.map(p => p.byte_count)`. */
  function ProtocolBars(slices: seq<ProtocolSlice>): (b: BarData)
    ensures |b.labels| == |b.values| == |slices|
    ensures forall i :: 0 <= i < |slices| ==> b.labels[i] == slices[i].protocol && b.values[i] == slices[i].byteCount
  {
    BarData(MapSeq(slices, SliceProtocol), MapSeq(slices, SliceBytes))
  }

  /** Summing the mapped values is summing the function over the items. */
  lemma {:induction false} SumOfMapSeq<T>(s: seq<T>, f: T -> int)
    ensures SumOf(MapSeq(s, f)) == SumBy(s, f)
  {
    if s != [] {
      var init := s[..|s| - 1];
      SumOfMapSeq(init, f);
      assert MapSeq(s, f)[..|s| - 1] == MapSeq(init, f);
    }
  }

  /**
   * A protocol chart of the first `limit` protocols by share: at most `limit` + 1
   * labels, each aligned with its byte count, "Other" last exactly when the reply
   * was longer, and the values adding up to the reply's bytes.
   */
  lemma ProtocolChartCorrect(protocols: seq<ProtocolSlice>, limit: nat, withPackets: bool)
    ensures var b := ProtocolBars(ChartSlices(protocols, limit, withPackets));
      |b.labels| == |b.values| <= limit + 1 &&
      SumOf(b.values) == SumBy(protocols, SliceBytes) &&
      (|protocols| <= limit ==> |b.labels| == |protocols|) &&
      (|protocols| > limit ==> |b.labels| == limit + 1 && b.labels[limit] == "Other")
  {
    var sorted := Sort(protocols, ByPercentage);
    var slices := ChartSlices(protocols, limit, withPackets);
    TopWithOtherShape(sorted, limit, withPackets);
    ChartSlicesTotals(protocols, limit, withPackets);
    SumOfMapSeq(slices, SliceBytes);
  }
}
