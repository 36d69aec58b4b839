// Flow-export decoding (utils/flow_analysis.py): the dispatch on the NetFlow
// version word, the Cisco NetFlow v5 header and 48-byte records, the NetFlow
// v9 header (RFC 3954 section 5.1), the IPFIX message header (RFC 7011
// section 3.1), the sFlow version word, the FlowRecord rows a v5 packet
// commits, and the start/stop guards of the collector thread.

module FlowAnalysis {
  import opened Common
  import opened Wire

  // ---------------------------------------------------------------------
  // struct formats and their sizes.

  const V5_HEADER_FORMAT: string := "!HHIIIIBBH"
  const V9_HEADER_FORMAT: string := "!HHIIII"
  const IPFIX_FORMAT_AS_WRITTEN: string := "!HHHIIQ"
  const IPFIX_HEADER_FORMAT: string := "!HHIII"
  const SFLOW_VERSION_FORMAT: string := "!i"
  const SFLOW_HEADER_FORMAT: string := "!iiiii"

  /** The header occupies bytes 0..23; record i starts at 24 + 48 * i. */
  const V5_HEADER_SIZE: nat := 24
  const V5_RECORD_SIZE: nat := 48

  lemma V5HeaderFormat()
    ensures IsNetworkFormat(V5_HEADER_FORMAT) && CalcSize(V5_HEADER_FORMAT) == 24
    ensures FieldStart(V5_HEADER_FORMAT, 3) == 4 && FieldStart(V5_HEADER_FORMAT, 4) == 8
    ensures FieldStart(V5_HEADER_FORMAT, 5) == 12 && FieldStart(V5_HEADER_FORMAT, 6) == 16
    ensures FieldStart(V5_HEADER_FORMAT, 7) == 20 && FieldStart(V5_HEADER_FORMAT, 8) == 21
    ensures FieldStart(V5_HEADER_FORMAT, 9) == 22
  {
    var f := V5_HEADER_FORMAT;
    assert FieldStart(f, 1) == 0;
    assert FieldStart(f, 2) == 2;
    assert FieldStart(f, 3) == 4;
    assert FieldStart(f, 4) == 8;
    assert FieldStart(f, 5) == 12;
    assert FieldStart(f, 6) == 16;
    assert FieldStart(f, 7) == 20;
    assert FieldStart(f, 8) == 21;
    assert FieldStart(f, 9) == 22;
  }

  lemma V9HeaderFormat()
    ensures IsNetworkFormat(V9_HEADER_FORMAT) && CalcSize(V9_HEADER_FORMAT) == 20
  {
    var f := V9_HEADER_FORMAT;
    assert FieldStart(f, 1) == 0;
    assert FieldStart(f, 2) == 2;
    assert FieldStart(f, 3) == 4;
    assert FieldStart(f, 4) == 8;
    assert FieldStart(f, 5) == 12;
    assert FieldStart(f, 6) == 16;
  }

  lemma IpfixFormats()
    ensures IsNetworkFormat(IPFIX_FORMAT_AS_WRITTEN) && CalcSize(IPFIX_FORMAT_AS_WRITTEN) == 22
    ensures IsNetworkFormat(IPFIX_HEADER_FORMAT) && CalcSize(IPFIX_HEADER_FORMAT) == 16
  {
    var f := IPFIX_FORMAT_AS_WRITTEN;
    assert FieldStart(f, 1) == 0;
    assert FieldStart(f, 2) == 2;
    assert FieldStart(f, 3) == 4;
    assert FieldStart(f, 4) == 6;
    assert FieldStart(f, 5) == 10;
    assert FieldStart(f, 6) == 14;
    f := IPFIX_HEADER_FORMAT;
    assert FieldStart(f, 1) == 0;
    assert FieldStart(f, 2) == 2;
    assert FieldStart(f, 3) == 4;
    assert FieldStart(f, 4) == 8;
    assert FieldStart(f, 5) == 12;
  }

  lemma SflowFormats()
    ensures IsNetworkFormat(SFLOW_VERSION_FORMAT) && CalcSize(SFLOW_VERSION_FORMAT) == 4
    ensures IsNetworkFormat(SFLOW_HEADER_FORMAT) && CalcSize(SFLOW_HEADER_FORMAT) == 20
  {
    var f := SFLOW_VERSION_FORMAT;
    assert FieldStart(f, 1) == 0;
    f := SFLOW_HEADER_FORMAT;
    assert FieldStart(f, 1) == 0;
    assert FieldStart(f, 2) == 4;
    assert FieldStart(f, 3) == 8;
    assert FieldStart(f, 4) == 12;
    assert FieldStart(f, 5) == 16;
  }

  // ---------------------------------------------------------------------
  // process_netflow: the version word chooses the decoder.

  datatype NetflowRoute =
    | V5Route               // process_netflow_v5
    | V9Route               // process_netflow_v9
    | Unsupported(v: int)   // "Unsupported NetFlow version" is logged
    | Unreadable            // the version unpack raised; the error is logged

  function NetflowRouteOf(data: seq<byte>): (r: NetflowRoute)
    ensures r == Unreadable <==> |data| < 2
    ensures r == V5Route <==> |data| >= 2 && Word(data[0], data[1]) == 5
    ensures r == V9Route <==> |data| >= 2 && Word(data[0], data[1]) == 9
    ensures r.Unsupported? ==> r.v == Word(data[0], data[1]) && r.v != 5 && r.v != 9
  {
    match Word16(data, 0)
    case Raise(_) => Unreadable
    case Ok(v) => if v == 5 then V5Route else if v == 9 then V9Route else Unsupported(v)
  }

  // ---------------------------------------------------------------------
  // NetFlow v5 header.

  datatype V5Header = V5Header(
    version: int, count: int, sysUptime: int, unixSecs: int, unixNsecs: int,
    flowSequence: int, engineType: int, engineId: int, samplingInterval: int)

  function DecodeV5Header(data: seq<byte>): (r: Result<V5Header>)
    ensures r.Ok? <==> |data| >= V5_HEADER_SIZE
    ensures r.Raise? ==> r.fault == StructError
    ensures r.Ok? ==> 0 <= r.value.count < 0x1_0000
  {
    V5HeaderFormat();
    Pow256Values();
    var h :- Unpack(V5_HEADER_FORMAT, Slice(data, 0, 24));
    UnpackedField(V5_HEADER_FORMAT, Slice(data, 0, 24), 2, 2);
    Ok(V5Header(h[0], h[1], h[2], h[3], h[4], h[5], h[6], h[7], h[8]))
  }

  /**
   * Version and count are the first two words; uptime, seconds, nanoseconds
   * and flow sequence the four 32-bit words at 4, 8, 12 and 16; the engine
   * bytes and sampling interval the last four bytes.
   */
  lemma V5HeaderFields(data: seq<byte>)
    requires |data| >= V5_HEADER_SIZE
    ensures var h := DecodeV5Header(data).value;
      h.version == Word(data[0], data[1]) && h.count == Word(data[2], data[3]) &&
      h.sysUptime == DoubleWord(data[4], data[5], data[6], data[7]) &&
      h.unixSecs == DoubleWord(data[8], data[9], data[10], data[11]) &&
      h.unixNsecs == DoubleWord(data[12], data[13], data[14], data[15]) &&
      h.flowSequence == DoubleWord(data[16], data[17], data[18], data[19]) &&
      h.engineType == data[20] && h.engineId == data[21] &&
      h.samplingInterval == Word(data[22], data[23])
  {
    V5HeaderFormat();
    var fmt := V5_HEADER_FORMAT;
    var buf := Slice(data, 0, 24);
    UnpackedWord(fmt, buf, 1, 0);
    UnpackedWord(fmt, buf, 2, 2);
    UnpackedHalves(fmt, buf, 3, 4);
    UnpackedHalves(fmt, buf, 4, 8);
    UnpackedHalves(fmt, buf, 5, 12);
    UnpackedHalves(fmt, buf, 6, 16);
    UnpackedByte(fmt, buf, 7, 20);
    UnpackedByte(fmt, buf, 8, 21);
    UnpackedWord(fmt, buf, 9, 22);
    var u := Unpack(fmt, buf).value;
    assert DecodeV5Header(data) == Ok(V5Header(u[0], u[1], u[2], u[3], u[4], u[5], u[6], u[7], u[8]));
    assert buf[..24] == data[..24];
  }

  // ---------------------------------------------------------------------
  // NetFlow v5 records.

  /**
   * The record formats process_netflow_v5 reads with. As written the first
   * format needs 20 bytes of a 16-byte slice and the second 24 bytes of a
   * 20-byte slice; the corrected layout reads source, destination and next hop
   * addresses with the two interface words from the first 16 bytes, then the
   * packet and octet counts, first and last times, the port pair word and the
   * pad, TCP flags, protocol and ToS bytes from the next 24.
   */
  datatype RecordLayout = AsWritten | Corrected

  function FirstFormat(layout: RecordLayout): string
  {
    if layout == AsWritten then "!IIIIHH" else "!IIIHH"
  }

  function SecondFormat(layout: RecordLayout): string
  {
    if layout == AsWritten then "!IIIIIHBB" else "!IIIIIBBBB"
  }

  /** Where the second slice ends, relative to the record start. */
  function SecondEnd(layout: RecordLayout): nat
  {
    if layout == AsWritten then 36 else 40
  }

  function RecordOffset(i: nat): nat
  {
    V5_HEADER_SIZE + V5_RECORD_SIZE * i
  }

  /** One FlowRecord row. Times are seconds since the epoch; `timestamp` is the arrival time of the packet. */
  datatype FlowRecord = FlowRecord(
    timestamp: Time, flowType: string, sourceIp: string, destinationIp: string,
    sourcePort: int, destinationPort: int, protocol: int, bytes: int, packets: int,
    startTimeMs: int, endTimeMs: int, tcpFlags: int, inputInterface: int, outputInterface: int)

  const NETFLOW_V5_TYPE: string := "NetFlow-v5"

  /**
   * `unix_secs - (sys_uptime - t) / 1000`: a router uptime stamp moved onto the
   * epoch clock, kept exactly as milliseconds since the epoch.
   */
  function FlowTimeMs(unixSecs: int, sysUptime: int, t: int): int
  {
    unixSecs * 1000 - (sysUptime - t)
  }

  lemma RecordFormats(layout: RecordLayout)
    ensures IsNetworkFormat(FirstFormat(layout)) && IsNetworkFormat(SecondFormat(layout))
    ensures |FirstFormat(layout)| >= 6 && |SecondFormat(layout)| >= 9
    ensures CalcSize(FirstFormat(layout)) == if layout == AsWritten then 20 else 16
    ensures CalcSize(SecondFormat(layout)) == 24
    ensures layout == Corrected ==>
      FieldStart(FirstFormat(layout), 4) == 12 && FieldStart(FirstFormat(layout), 5) == 14 &&
      FieldStart(SecondFormat(layout), 1) == 0 && FieldStart(SecondFormat(layout), 2) == 4 &&
      FieldStart(SecondFormat(layout), 3) == 8 && FieldStart(SecondFormat(layout), 4) == 12 &&
      FieldStart(SecondFormat(layout), 5) == 16 && FieldStart(SecondFormat(layout), 7) == 21 &&
      FieldStart(SecondFormat(layout), 8) == 22
  {
    if layout == AsWritten {
      var f := FirstFormat(AsWritten);
      assert FieldStart(f, 1) == 0;
      assert FieldStart(f, 2) == 4;
      assert FieldStart(f, 3) == 8;
      assert FieldStart(f, 4) == 12;
      assert FieldStart(f, 5) == 16;
      assert FieldStart(f, 6) == 18;
      f := SecondFormat(AsWritten);
      assert FieldStart(f, 1) == 0;
      assert FieldStart(f, 2) == 4;
      assert FieldStart(f, 3) == 8;
      assert FieldStart(f, 4) == 12;
      assert FieldStart(f, 5) == 16;
      assert FieldStart(f, 6) == 20;
      assert FieldStart(f, 7) == 22;
      assert FieldStart(f, 8) == 23;
    } else {
      var f := FirstFormat(Corrected);
      assert FieldStart(f, 1) == 0;
      assert FieldStart(f, 2) == 4;
      assert FieldStart(f, 3) == 8;
      assert FieldStart(f, 4) == 12;
      assert FieldStart(f, 5) == 14;
      f := SecondFormat(Corrected);
      assert FieldStart(f, 1) == 0;
      assert FieldStart(f, 2) == 4;
      assert FieldStart(f, 3) == 8;
      assert FieldStart(f, 4) == 12;
      assert FieldStart(f, 5) == 16;
      assert FieldStart(f, 6) == 20;
      assert FieldStart(f, 7) == 21;
      assert FieldStart(f, 8) == 22;
      assert FieldStart(f, 9) == 23;
    }
  }

  /** The loop body of process_netflow_v5 for record i, with the exception that ends the loop. */
  function V5Record(layout: RecordLayout, data: seq<byte>, h: V5Header, i: nat, now: Time): (r: Result<FlowRecord>)
    ensures r.Raise? ==> r.fault == StructError
    ensures r.Ok? ==> r.value.timestamp == now && r.value.flowType == NETFLOW_V5_TYPE
  {
    var off := RecordOffset(i);
    V5RecordOf(layout, Slice(data, off, off + 16), Slice(data, off + 16, off + SecondEnd(layout)), h, now)
  }

  /**
   * One record from its two slices. The addresses are `inet_ntoa` of bytes
   * 0..3, 4..7 and 8..11 of the first slice, the same bytes the loop cuts from
   * the packet.
   */
  function V5RecordOf(layout: RecordLayout, first: seq<byte>, second: seq<byte>, h: V5Header, now: Time): (r: Result<FlowRecord>)
    ensures r.Raise? ==> r.fault == StructError
    ensures r.Ok? ==> r.value.timestamp == now && r.value.flowType == NETFLOW_V5_TYPE
  {
    RecordFormats(layout);
    var record :- Unpack(FirstFormat(layout), first);
    // the three addresses lie inside the 16 bytes just unpacked, so inet_ntoa cannot raise
    var srcAddr := DottedQuad(first[0], first[1], first[2], first[3]);
    var dstAddr := DottedQuad(first[4], first[5], first[6], first[7]);
    var nextHop := DottedQuad(first[8], first[9], first[10], first[11]);
    var record2 :- Unpack(SecondFormat(layout), second);
    Ok(V5Row(h, now, srcAddr, dstAddr, record, record2))
  }

  /** The FlowRecord built from the two unpacked parts: the ports are the halves of the port pair word. */
  function V5Row(h: V5Header, now: Time, srcAddr: string, dstAddr: string, record: seq<int>, record2: seq<int>): FlowRecord
    requires |record| >= 5 && |record2| >= 8
  {
    var portPair := record2[4];
    FlowRecord(now, NETFLOW_V5_TYPE, srcAddr, dstAddr,
               portPair / 0x1_0000, portPair % 0x1_0000, record2[7], record2[1], record2[0],
               FlowTimeMs(h.unixSecs, h.sysUptime, record2[2]), FlowTimeMs(h.unixSecs, h.sysUptime, record2[3]),
               record2[6], record[3], record[4])
  }

  /** As written, every record raises struct.error before any field is kept. */
  lemma V5RecordAsWrittenRaises(data: seq<byte>, h: V5Header, i: nat, now: Time)
    ensures V5Record(AsWritten, data, h, i, now) == Raise(StructError)
  {
    RecordFormats(AsWritten);
    var off := RecordOffset(i);
    assert |Slice(data, off, off + 16)| <= 16;
  }

  /** With the corrected layout a record decodes exactly when its 40 bytes are present. */
  lemma V5RecordCorrectedOk(data: seq<byte>, h: V5Header, i: nat, now: Time)
    ensures V5Record(Corrected, data, h, i, now).Ok? <==> RecordOffset(i) + 40 <= |data|
  {
    RecordFormats(Corrected);
  }

  /** Where the fields of a decoded record come from in the two slices of a corrected record. */
  predicate V5RecordOfFields(first: seq<byte>, second: seq<byte>, h: V5Header, r: Result<FlowRecord>, now: Time)
    requires |first| == 16 && |second| == 24
  {
    r.Ok? &&
    r.value.packets == DoubleWord(second[0], second[1], second[2], second[3]) &&
    r.value.bytes == DoubleWord(second[4], second[5], second[6], second[7]) &&
    r.value.startTimeMs == FlowTimeMs(h.unixSecs, h.sysUptime, DoubleWord(second[8], second[9], second[10], second[11])) &&
    r.value.endTimeMs == FlowTimeMs(h.unixSecs, h.sysUptime, DoubleWord(second[12], second[13], second[14], second[15])) &&
    r.value.timestamp == now && r.value.flowType == NETFLOW_V5_TYPE &&
    r.value.sourceIp == InetNtoa(first[..4]).value &&
    r.value.destinationIp == InetNtoa(first[4..8]).value &&
    r.value.inputInterface == Word(first[12], first[13]) &&
    r.value.outputInterface == Word(first[14], first[15]) &&
    r.value.sourcePort == Word(second[16], second[17]) &&
    r.value.destinationPort == Word(second[18], second[19]) &&
    r.value.tcpFlags == second[21] && r.value.protocol == second[22]
  }

  /** Record i is decoded from the 16 bytes at its start and the bytes up to the end of its second slice. */
  lemma V5RecordSlices(layout: RecordLayout, data: seq<byte>, h: V5Header, i: nat, now: Time)
    ensures var off := RecordOffset(i);
      V5Record(layout, data, h, i, now) == V5RecordOf(layout, Slice(data, off, off + 16), Slice(data, off + 16, off + SecondEnd(layout)), h, now)
  {
  }

  /**
   * The corrected record takes its fields from the v5 record positions: with
   * `first` the 16 bytes at the record start and `second` the 24 after them
   * (the slices V5RecordSlices names), a record whose slices are full decodes,
   * its addresses come from bytes 0..7 of `first`, its interfaces from 12..15,
   * its packet and octet counts from the 32-bit words at bytes 0 and 4 of
   * `second`, its start and end times from the uptime stamps at 8 and 12 moved
   * onto the header's epoch clock, its ports from bytes 16..19 (source in the
   * high half of the word), its TCP flags from byte 21 and its protocol from
   * byte 22.
   */
  lemma V5RecordOfCorrected(first: seq<byte>, second: seq<byte>, h: V5Header, now: Time)
    requires |first| == 16 && |second| == 24
    ensures V5RecordOfFields(first, second, h, V5RecordOf(Corrected, first, second, h, now), now)
  {
    RecordFormats(Corrected);
    V5FirstPart(first);
    V5SecondPart(second);
    InetNtoaQuad(first[..4]);
    InetNtoaQuad(first[4..8]);
  }

  /** The interface words of a corrected record are the 16-bit words at bytes 12 and 14 of its first part. */
  lemma V5FirstPart(buf: seq<byte>)
    requires |buf| == 16
    ensures var r := Unpack(FirstFormat(Corrected), buf);
      r.Ok? && r.value[3] == Word(buf[12], buf[13]) && r.value[4] == Word(buf[14], buf[15])
  {
    RecordFormats(Corrected);
    var fmt := FirstFormat(Corrected);
    UnpackedWord(fmt, buf, 4, 12);
    UnpackedWord(fmt, buf, 5, 14);
  }

  /**
   * The packet and octet counts and the two times of a corrected record are
   * the 32-bit words at bytes 0, 4, 8 and 12 of its second part; the port
   * word, the TCP flags and the protocol are bytes 16..19, 21 and 22.
   */
  lemma V5SecondPart(buf: seq<byte>)
    requires |buf| == 24
    ensures var r := Unpack(SecondFormat(Corrected), buf);
      r.Ok? &&
      r.value[0] == DoubleWord(buf[0], buf[1], buf[2], buf[3]) &&
      r.value[1] == DoubleWord(buf[4], buf[5], buf[6], buf[7]) &&
      r.value[2] == DoubleWord(buf[8], buf[9], buf[10], buf[11]) &&
      r.value[3] == DoubleWord(buf[12], buf[13], buf[14], buf[15]) &&
      r.value[4] / 0x1_0000 == Word(buf[16], buf[17]) &&
      r.value[4] % 0x1_0000 == Word(buf[18], buf[19]) &&
      r.value[6] == buf[21] && r.value[7] == buf[22]
  {
    RecordFormats(Corrected);
    var fmt := SecondFormat(Corrected);
    UnpackedHalves(fmt, buf, 1, 0);
    UnpackedHalves(fmt, buf, 2, 4);
    UnpackedHalves(fmt, buf, 3, 8);
    UnpackedHalves(fmt, buf, 4, 12);
    UnpackedHalves(fmt, buf, 5, 16);
    UnpackedByte(fmt, buf, 7, 21);
    UnpackedByte(fmt, buf, 8, 22);
    PortPair(buf[16], buf[17], buf[18], buf[19]);
  }

  /** `word >> 16` and `word & 0xFFFF` give back the two 16-bit halves of the port word. */
  lemma PortPair(a: byte, b: byte, c: byte, d: byte)
    ensures var w := DoubleWord(a, b, c, d);
      w / 0x1_0000 == Word(a, b) && w % 0x1_0000 == Word(c, d)
  {
    var hi, lo := Word(a, b), Word(c, d);
    assert 0 <= lo < 0x1_0000;
  }

  // ---------------------------------------------------------------------
  // The records of one v5 packet: the loop stops at the first exception.

  /**
   * The rows the first n iterations of a decoding loop add to the session, or
   * the exception the first failing iteration raises; `rec(k)` is iteration k.
   */
  function RowsUpTo(rec: nat -> Result<FlowRecord>, n: nat): (r: Result<seq<FlowRecord>>)
    ensures r.Ok? ==> |r.value| == n
  {
    if n == 0 then Ok([])
    else
      var init :- RowsUpTo(rec, n - 1);
      var row :- rec(n - 1);
      Ok(init + [row])
  }

  /** The first n iterations succeed exactly when each of them does, and row k is what iteration k decoded. */
  lemma {:induction false} RowsUpToSpec(rec: nat -> Result<FlowRecord>, n: nat)
    ensures RowsUpTo(rec, n).Ok? <==> forall k :: 0 <= k < n ==> rec(k).Ok?
    ensures RowsUpTo(rec, n).Ok? ==> forall k :: 0 <= k < n ==> RowsUpTo(rec, n).value[k] == rec(k).value
  {
    if n > 0 {
      RowsUpToSpec(rec, n - 1);
    }
  }

  /** Iteration k of process_netflow_v5 decodes record k. */
  function V5Rows(layout: RecordLayout, data: seq<byte>, h: V5Header, now: Time): nat -> Result<FlowRecord>
  {
    (k: nat) => V5Record(layout, data, h, k, now)
  }

  /** What process_netflow_v5 commits: all rows of the packet, or none when anything raised. */
  function V5Flows(layout: RecordLayout, data: seq<byte>, now: Time): Result<seq<FlowRecord>>
  {
    var h :- DecodeV5Header(data);
    RowsUpTo(V5Rows(layout, data, h, now), h.count)
  }

  function V5Committed(layout: RecordLayout, data: seq<byte>, now: Time): seq<FlowRecord>
  {
    match V5Flows(layout, data, now)
    case Ok(rows) => rows
    case Raise(_) => []
  }

  /** As written, a v5 packet commits no FlowRecord: a record raises, and a packet with count 0 has none. */
  lemma V5AsWrittenCommitsNothing(data: seq<byte>, now: Time)
    ensures V5Committed(AsWritten, data, now) == []
  {
    var hr := DecodeV5Header(data);
    if hr.Ok? && hr.value.count > 0 {
      var rows := V5Rows(AsWritten, data, hr.value, now);
      V5RecordAsWrittenRaises(data, hr.value, 0, now);
      assert rows(0).Raise?;
      RowsUpToSpec(rows, hr.value.count);
      assert V5Flows(AsWritten, data, now) == RowsUpTo(rows, hr.value.count);
    }
  }

  /**
   * With the corrected layout a v5 packet decodes when the header and every
   * record it counts are present: the last record, at 24 + 48 * (count - 1),
   * needs its 40 decoded bytes.
   */
  lemma V5CorrectedFlowsOk(data: seq<byte>, now: Time)
    ensures V5Flows(Corrected, data, now).Ok? <==>
      |data| >= V5_HEADER_SIZE &&
      (Word(data[2], data[3]) == 0 || RecordOffset(Word(data[2], data[3]) - 1) + 40 <= |data|)
  {
    var hr := DecodeV5Header(data);
    if hr.Ok? {
      var h := hr.value;
      V5HeaderFields(data);
      var rows := V5Rows(Corrected, data, h, now);
      RowsUpToSpec(rows, h.count);
      forall k | 0 <= k < h.count
        ensures rows(k).Ok? <==> RecordOffset(k) + 40 <= |data|
      {
        V5RecordCorrectedOk(data, h, k, now);
      }
      if h.count > 0 {
        V5RecordCorrectedOk(data, h, h.count - 1, now);
      }
    }
  }

  /** A v5 packet that decodes commits `count` rows, row k decoded from record k. */
  lemma V5FlowsRows(layout: RecordLayout, data: seq<byte>, now: Time)
    requires V5Flows(layout, data, now).Ok?
    ensures |data| >= V5_HEADER_SIZE
    ensures var rows := V5Committed(layout, data, now);
      |rows| == Word(data[2], data[3]) &&
      forall k :: 0 <= k < |rows| ==> V5Record(layout, data, DecodeV5Header(data).value, k, now) == Ok(rows[k])
  {
    var h := DecodeV5Header(data).value;
    V5HeaderFields(data);
    RowsUpToSpec(V5Rows(layout, data, h, now), h.count);
  }

  /** Rows process_netflow commits: only a version-5 packet stores anything. */
  function NetflowCommitted(layout: RecordLayout, data: seq<byte>, now: Time): seq<FlowRecord>
  {
    if NetflowRouteOf(data) == V5Route then V5Committed(layout, data, now) else []
  }

  // ---------------------------------------------------------------------
  // NetFlow v9, IPFIX and sFlow headers: decoded, logged, never stored.

  datatype V9Header = V9Header(version: int, count: int, sysUptime: int, unixSecs: int, packageSequence: int, sourceId: int)

  function DecodeV9Header(data: seq<byte>): (r: Result<V9Header>)
    ensures r.Ok? <==> |data| >= 20
    ensures r.Raise? ==> r.fault == StructError
  {
    V9HeaderFormat();
    var h :- Unpack(V9_HEADER_FORMAT, Slice(data, 0, 20));
    Ok(V9Header(h[0], h[1], h[2], h[3], h[4], h[5]))
  }

  /** The logged FlowSet count is the second header word. */
  lemma V9HeaderFields(data: seq<byte>)
    requires |data| >= 20
    ensures var h := DecodeV9Header(data).value;
      h.version == Word(data[0], data[1]) && h.count == Word(data[2], data[3])
  {
    V9HeaderFormat();
    var fmt := V9_HEADER_FORMAT;
    var buf := Slice(data, 0, 20);
    assert buf == data[..20];
    UnpackedWord(fmt, buf, 1, 0);
    UnpackedWord(fmt, buf, 2, 2);
  }

  datatype IpfixHeader = IpfixHeader(version: int, length: int, exportTime: int, sequenceNumber: int, observationDomainId: int)

  /** process_ipfix as written: `'!HHHIIQ'` over the 16-byte slice data[0:16]. */
  function IpfixHeaderAsWritten(data: seq<byte>): (r: Result<IpfixHeader>)
    ensures r.Raise? ==> r.fault == StructError
  {
    IpfixFormats();
    var h :- Unpack(IPFIX_FORMAT_AS_WRITTEN, Slice(data, 0, 16));
    Ok(IpfixHeader(h[0], h[1], h[2], h[3], h[4]))
  }

  /** The format needs 22 bytes, the slice holds at most 16: every IPFIX message raises. */
  lemma IpfixAsWrittenAlwaysRaises(data: seq<byte>)
    ensures IpfixHeaderAsWritten(data) == Raise(StructError)
  {
    IpfixFormats();
    assert |Slice(data, 0, 16)| <= 16;
  }

  /** The 16-byte IPFIX message header: version, length, export time, sequence number, observation domain. */
  function IpfixHeaderCorrected(data: seq<byte>): (r: Result<IpfixHeader>)
    ensures r.Ok? <==> |data| >= 16
    ensures r.Raise? ==> r.fault == StructError
  {
    IpfixFormats();
    var h :- Unpack(IPFIX_HEADER_FORMAT, Slice(data, 0, 16));
    Ok(IpfixHeader(h[0], h[1], h[2], h[3], h[4]))
  }

  /** The corrected header reads the version and the message length from the first two words. */
  lemma IpfixCorrectedFields(data: seq<byte>)
    requires |data| >= 16
    ensures var h := IpfixHeaderCorrected(data).value;
      h.version == Word(data[0], data[1]) && h.length == Word(data[2], data[3])
  {
    IpfixFormats();
    var fmt := IPFIX_HEADER_FORMAT;
    var buf := Slice(data, 0, 16);
    assert buf == data[..16];
    UnpackedWord(fmt, buf, 1, 0);
    UnpackedWord(fmt, buf, 2, 2);
  }

  datatype SflowHeader = SflowHeader(version: int, ipVersion: int, agentIp: int, subAgentId: int, sequenceNumber: int)

  /** The signed 32-bit version word of an sFlow datagram. */
  function SflowVersion(data: seq<byte>): int
    requires |data| >= 4
  {
    FieldValue('i', data[..4])
  }

  /** process_sflow: None when the version is not 5 ("Unsupported sFlow version"). */
  function DecodeSflow(data: seq<byte>): (r: Result<Option<SflowHeader>>)
    ensures r.Raise? ==> r.fault == StructError
  {
    SflowFormats();
    var v :- Unpack(SFLOW_VERSION_FORMAT, Slice(data, 0, 4));
    if v[0] == 5 then
      var h :- Unpack(SFLOW_HEADER_FORMAT, Slice(data, 0, 20));
      Ok(Some(SflowHeader(h[0], h[1], h[2], h[3], h[4])))
    else Ok(None)
  }

  /** Only version 5 reads the 20-byte header; any other version needs just the version word. */
  lemma DecodeSflowCases(data: seq<byte>)
    ensures DecodeSflow(data).Ok? <==> |data| >= 4 && (SflowVersion(data) != 5 || |data| >= 20)
    ensures DecodeSflow(data).Ok? ==> (DecodeSflow(data).value.Some? <==> SflowVersion(data) == 5)
    ensures DecodeSflow(data).Ok? && DecodeSflow(data).value.Some? ==> DecodeSflow(data).value.value.version == 5
  {
    SflowFormats();
    if |data| >= 4 {
      var fmt := SFLOW_VERSION_FORMAT;
      var buf := Slice(data, 0, 4);
      assert buf == data[..4];
      UnpackedField(fmt, buf, 1, 0);
      assert buf[0..4] == buf;
      if SflowVersion(data) == 5 && |data| >= 20 {
        var hb := Slice(data, 0, 20);
        UnpackedField(SFLOW_HEADER_FORMAT, hb, 1, 0);
        assert hb[0..4] == data[..4];
      }
    }
  }

  // ---------------------------------------------------------------------
  // The flow type the collector was started with.

  datatype FlowKind = NetflowKind | IpfixKind | SflowKind | UnknownKind

  /** collector_loop compares `flow_type.lower()` with the three names. */
  function FlowKindOf(flowType: string): FlowKind
  {
    var t := Lower(flowType);
    if t == "netflow" then NetflowKind
    else if t == "ipfix" then IpfixKind
    else if t == "sflow" then SflowKind
    else UnknownKind
  }

  /** The comparison ignores ASCII case. */
  lemma FlowKindIgnoresCase(flowType: string)
    ensures FlowKindOf(Lower(flowType)) == FlowKindOf(flowType)
  {
    LowerIdempotent(flowType);
  }

  // ---------------------------------------------------------------------
  // The FlowRecord table.

  class FlowStore {
    /** Committed FlowRecord rows, oldest first. */
    var records: seq<FlowRecord>

    constructor()
      ensures records == []
    {
      records := [];
    }

    /**
     * The loop of process_netflow_v5: iteration k decodes record k and adds the
     * row to the session; the first exception rolls the session back, otherwise
     * all rows are committed together.
     */
    method AddRows(rec: nat -> Result<FlowRecord>, count: nat)
      modifies this
      ensures records == old(records) + match RowsUpTo(rec, count) case Ok(rows) => rows case Raise(_) => []
    {
      var session: seq<FlowRecord> := [];
      var i := 0;
      while i < count
        invariant 0 <= i <= count
        invariant RowsUpTo(rec, i) == Ok(session)
      {
        var row := rec(i);
        if row.Raise? {
          // the exception handler rolls the session back
          RowsUpToSpec(rec, count);
          return;
        }
        session := session + [row.value];
        i := i + 1;
      }
      records := records + session;
    }

    /** process_netflow_v5: a header that does not unpack is logged and nothing is stored. */
    method ProcessNetflowV5(layout: RecordLayout, data: seq<byte>, now: Time)
      modifies this
      ensures records == old(records) + V5Committed(layout, data, now)
    {
      var header := DecodeV5Header(data);
      if header.Raise? {
        return;
      }
      var h := header.value;
      AddRows(V5Rows(layout, data, h, now), h.count);
    }

    /** process_netflow: v5 packets are stored, v9 headers decoded and dropped, anything else logged. */
    method ProcessNetflow(layout: RecordLayout, data: seq<byte>, now: Time)
      modifies this
      ensures records == old(records) + NetflowCommitted(layout, data, now)
    {
      var route := NetflowRouteOf(data);
      if route == V5Route {
        ProcessNetflowV5(layout, data, now);
      } else if route == V9Route {
        var _ := DecodeV9Header(data);
      }
    }

    /** One datagram of the collector loop, dispatched on the flow type; only NetFlow stores rows. */
    method ProcessDatagram(kind: FlowKind, data: seq<byte>, now: Time)
      modifies this
      ensures records == old(records) + (if kind == NetflowKind then NetflowCommitted(Corrected, data, now) else [])
    {
      match kind
      case NetflowKind => ProcessNetflow(Corrected, data, now);
      case IpfixKind => var _ := IpfixHeaderCorrected(data);
      case SflowKind => var _ := DecodeSflow(data);
      case UnknownKind =>
    }
  }

  /** Only a packet whose version word is 5 adds rows; every row is a NetFlow-v5 row of the arrival time. */
  lemma NetflowStoresOnlyV5(layout: RecordLayout, data: seq<byte>, now: Time)
    ensures NetflowCommitted(layout, data, now) != [] ==> |data| >= 2 && Word(data[0], data[1]) == 5
    ensures forall k :: 0 <= k < |NetflowCommitted(layout, data, now)| ==>
      NetflowCommitted(layout, data, now)[k].flowType == NETFLOW_V5_TYPE &&
      NetflowCommitted(layout, data, now)[k].timestamp == now
  {
    if NetflowRouteOf(data) == V5Route && V5Flows(layout, data, now).Ok? {
      V5FlowsRows(layout, data, now);
    }
  }

  // ---------------------------------------------------------------------
  // start_flow_collector / stop_flow_collector.

  class FlowCollector {
    /** `collector_thread`. */
    var thread: ThreadState
    /** `stop_collector`, polled by the loop. */
    var stopRequested: bool
    /** The flow type and port the running loop was started with. */
    var kind: FlowKind
    var port: int

    constructor()
      ensures thread == NoThread && !stopRequested
    {
      thread := NoThread;
      stopRequested := false;
      kind := UnknownKind;
      port := 0;
    }

    /** Refuses while a collector thread is alive; otherwise clears the stop flag and starts one. */
    method StartFlowCollector(flowType: string, listenPort: int) returns (started: bool)
      modifies this
      ensures started <==> !old(IsAlive(thread))
      ensures started ==> thread == Alive && !stopRequested && kind == FlowKindOf(flowType) && port == listenPort
      ensures !started ==> (thread == old(thread) && stopRequested == old(stopRequested) &&
                            kind == old(kind) && port == old(port))
    {
      if IsAlive(thread) {
        return false;
      }
      stopRequested := false;
      kind := FlowKindOf(flowType);
      port := listenPort;
      thread := Alive;
      return true;
    }

    /** The loop ends by itself: it saw the stop flag, or binding the socket failed. */
    method LoopExits()
      modifies this
      ensures thread == (if old(thread) == Alive then Stopped else old(thread))
      ensures stopRequested == old(stopRequested) && kind == old(kind) && port == old(port)
    {
      if thread == Alive {
        thread := Stopped;
      }
    }

    /**
     * Refuses unless a collector thread is alive; otherwise raises the stop flag
     * and forgets the thread, whether or not it finished within the join timeout.
     * Unlike the anomaly detector's loop, no detached loop needs counting: the socket's
     * 1 s timeout makes the loop test the stop flag at least once a second, so it ends
     * within the 5 s join (absent a datagram that takes longer to process).
     */
    method StopFlowCollector() returns (stopped: bool)
      modifies this
      ensures stopped <==> old(IsAlive(thread))
      ensures stopped ==> thread == NoThread && stopRequested
      ensures !stopped ==> thread == old(thread) && stopRequested == old(stopRequested)
      ensures kind == old(kind) && port == old(port)
    {
      if !IsAlive(thread) {
        return false;
      }
      stopRequested := true;
      thread := NoThread;
      return true;
    }
  }
}
