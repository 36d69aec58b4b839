// Live packet capture (utils/packet_capture.py): the interface list, the two
// packet parsers (PyShark and Scapy views of a packet), the per-capture
// buffer that packet_callback fills and save_packets_to_db flushes, stopping
// a capture, and the detail view of a stored packet.

module PacketCapture {
  import opened Common
  import opened ProtocolDissection

  // ---------------------------------------------------------------------
  // get_available_interfaces and refresh_interfaces

  /** One entry of the interface list; `isLoopback` is absent except on the fallback entry. */
  datatype Interface = Interface(name: string, description: string, isUp: bool, isLoopback: Option<bool>)

  /** A directory entry of /sys/class/net and whether it has a `carrier` file. */
  datatype SystemInterface = SystemInterface(name: string, hasCarrier: bool)

  const SCAPY_PREFIX: string := "Scapy interface: "
  const SYSTEM_PREFIX: string := "System interface: "
  const LOOPBACK: Interface := Interface("lo", "Loopback interface", true, Some(true))

  function ScapyInterface(name: string): Interface
  {
    Interface(name, SCAPY_PREFIX + name, true, None)
  }

  function SystemEntry(s: SystemInterface): Interface
  {
    Interface(s.name, SYSTEM_PREFIX + s.name, s.hasCarrier, None)
  }

  /** The entry describes one of the /sys/class/net interfaces. */
  predicate FromSystem(entry: Interface, system: seq<SystemInterface>)
  {
    exists k :: 0 <= k < |system| && entry == SystemEntry(system[k])
  }

  predicate Listed(interfaces: seq<Interface>, name: string)
  {
    exists i :: 0 <= i < |interfaces| && interfaces[i].name == name
  }

  /**
   * What get_available_interfaces may return for these inputs: the loopback
   * fallback when both sources are empty; otherwise every Scapy name first, in
   * order, then each system name not yet listed, once. Only the fallback entry
   * carries `is_loopback`.
   */
  predicate AvailableFrom(scapyNames: Option<seq<string>>, systemNames: Option<seq<SystemInterface>>,
                          interfaces: seq<Interface>)
  {
    var scapy := scapyNames.GetOr([]);
    var system := systemNames.GetOr([]);
    |interfaces| > 0 &&
    (if scapy == [] && system == [] then interfaces == [LOOPBACK]
     else
       |scapy| <= |interfaces| &&
       (forall k :: 0 <= k < |scapy| ==> interfaces[k] == ScapyInterface(scapy[k])) &&
       (forall j :: |scapy| <= j < |interfaces| ==> FromSystem(interfaces[j], system)) &&
       (forall i, j :: 0 <= i < j < |interfaces| && |scapy| <= j ==> interfaces[i].name != interfaces[j].name) &&
       (forall k :: 0 <= k < |system| ==> Listed(interfaces, system[k].name))) &&
    (forall k :: 0 <= k < |interfaces| && interfaces[k].isLoopback.Some? ==> interfaces == [LOOPBACK])
  }

  /**
   * `scapyNames` is what get_if_list returned (None when Scapy is missing or
   * the call raised); `systemNames` is the listing of /sys/class/net (None when
   * PyShark is missing, the directory does not exist or listing it raised).
   */
  method GetAvailableInterfaces(scapyNames: Option<seq<string>>, systemNames: Option<seq<SystemInterface>>)
    returns (interfaces: seq<Interface>)
    ensures AvailableFrom(scapyNames, systemNames, interfaces)
  {
    var scapy := scapyNames.GetOr([]);
    var system := systemNames.GetOr([]);
    interfaces := [];
    for k := 0 to |scapy|
      invariant interfaces == seq(k, i requires 0 <= i < k => ScapyInterface(scapy[i]))
    {
      interfaces := interfaces + [ScapyInterface(scapy[k])];
    }
    for k := 0 to |system|
      invariant |scapy| <= |interfaces|
      invariant forall i :: 0 <= i < |scapy| ==> interfaces[i] == ScapyInterface(scapy[i])
      invariant forall j :: |scapy| <= j < |interfaces| ==>
        exists m :: 0 <= m < k && interfaces[j] == SystemEntry(system[m])
      invariant forall i, j :: 0 <= i < j < |interfaces| && |scapy| <= j ==> interfaces[i].name != interfaces[j].name
      invariant forall m :: 0 <= m < k ==> Listed(interfaces, system[m].name)
      invariant k > 0 ==> |interfaces| > 0
      invariant k == 0 ==> |interfaces| == |scapy|
      invariant forall j :: 0 <= j < |interfaces| ==> interfaces[j].isLoopback.None?
    {
      var entry := system[k];
      if !Listed(interfaces, entry.name) {
        var before := interfaces;
        interfaces := interfaces + [SystemEntry(entry)];
        assert interfaces[|before|].name == entry.name;
        forall m | 0 <= m < k ensures Listed(interfaces, system[m].name) {
          var i :| 0 <= i < |before| && before[i].name == system[m].name;
          assert interfaces[i] == before[i];
        }
      }
    }
    if interfaces == [] {
      assert scapy == [] && system == [];
      interfaces := [LOOPBACK];
    } else {
      assert !(scapy == [] && system == []);
      forall j | |scapy| <= j < |interfaces| ensures FromSystem(interfaces[j], system) {
        var m :| 0 <= m < |system| && interfaces[j] == SystemEntry(system[m]);
      }
    }
  }

  /** A row of the CaptureInterface table as refresh_interfaces writes it. */
  datatype InterfaceRow = InterfaceRow(name: string, description: string, ipAddress: string,
                                       macAddress: string, isUp: bool, isLoopback: bool)

  function RowOfInterface(i: Interface): InterfaceRow
  {
    InterfaceRow(i.name, i.description, "", "", i.isUp, i.isLoopback.GetOr(false))
  }

  /** The CaptureInterface table. */
  class InterfaceTable {
    var rows: seq<InterfaceRow>

    constructor ()
      ensures rows == []
    {
      rows := [];
    }

    /**
     * refresh_interfaces: drop every row, then add one per listed interface
     * (absent keys taking their `get` defaults) and return how many;
     * `interfaces` is the list get_available_interfaces gave.
     */
    method RefreshInterfaces(scapyNames: Option<seq<string>>, systemNames: Option<seq<SystemInterface>>)
      returns (count: int, interfaces: seq<Interface>)
      modifies this
      ensures AvailableFrom(scapyNames, systemNames, interfaces)
      ensures rows == seq(|interfaces|, k requires 0 <= k < |interfaces| => RowOfInterface(interfaces[k]))
      ensures count == |rows| && count > 0
      ensures forall k :: 0 <= k < |rows| ==> rows[k].ipAddress == "" && rows[k].macAddress == ""
      ensures forall k :: 0 <= k < |rows| && rows[k].isLoopback ==> rows == [RowOfInterface(LOOPBACK)]
    {
      interfaces := GetAvailableInterfaces(scapyNames, systemNames);
      var added: seq<InterfaceRow> := [];
      for k := 0 to |interfaces|
        invariant added == seq(k, i requires 0 <= i < k => RowOfInterface(interfaces[i]))
      {
        added := added + [RowOfInterface(interfaces[k])];
      }
      rows := added;
      count := |added|;
      assert forall k :: 0 <= k < |rows| && rows[k].isLoopback ==> interfaces[k].isLoopback.Some?;
    }
  }

  // ---------------------------------------------------------------------
  // Parsed packets

  /** The dict parse_packet returns; a None field is a key that is absent or holds None. */
  datatype PacketInfo = PacketInfo(
    timestamp: Time, length: int, info: Option<string>, protocol: Option<string>,
    sourceIp: Option<string>, destinationIp: Option<string>,
    sourcePort: Option<int>, destinationPort: Option<int>, tcpFlags: Option<string>)

  datatype IpLayer = IpLayer(src: string, dst: string)

  /** A Scapy packet: which layers it has, and what `flags` of its TCP layer holds. */
  datatype ScapyTcp = ScapyTcp(sport: int, dport: int, flags: nat)
  datatype ScapyUdp = ScapyUdp(sport: int, dport: int)
  datatype ScapyPacket = ScapyPacket(
    length: nat, summary: string, name: string, ip: Option<IpLayer>,
    tcp: Option<ScapyTcp>, udp: Option<ScapyUdp>, hasIcmp: bool)

  /** SYN 0x02, ACK 0x10, FIN 0x01, RST 0x04, PSH 0x08, URG 0x20: the first six entries of the dissector's table. */
  const SCAPY_FLAG_BITS: seq<FlagBit> := TCP_FLAG_BITS[..6]

  function ScapyFlags(flags: nat): string
  {
    FlagLetters(flags, SCAPY_FLAG_BITS)
  }

  /** The protocol name by layer precedence: TCP, then UDP, then ICMP, then IP, then the packet's own name. */
  function ScapyProtocol(p: ScapyPacket): (r: string)
    ensures p.tcp.Some? ==> r == "TCP"
    ensures p.tcp.None? && p.udp.Some? ==> r == "UDP"
    ensures p.tcp.None? && p.udp.None? && p.hasIcmp ==> r == "ICMP"
    ensures p.tcp.None? && p.udp.None? && !p.hasIcmp && p.ip.Some? ==> r == "IP"
    ensures p.tcp.None? && p.udp.None? && !p.hasIcmp && p.ip.None? ==> r == p.name
  {
    if p.tcp.Some? then "TCP"
    else if p.udp.Some? then "UDP"
    else if p.hasIcmp then "ICMP"
    else if p.ip.Some? then "IP"
    else p.name
  }

  /** parse_scapy_packet; `now` is the utcnow() that stands in for a capture time. */
  function ParseScapyPacket(p: ScapyPacket, now: Time): (r: PacketInfo)
    ensures r.timestamp == now && r.length == p.length && r.info == Some(p.summary)
    ensures r.protocol == Some(ScapyProtocol(p))
    ensures (r.sourceIp.Some? <==> p.ip.Some?) && (r.destinationIp.Some? <==> p.ip.Some?)
    ensures p.ip.Some? ==> r.sourceIp == Some(p.ip.value.src) && r.destinationIp == Some(p.ip.value.dst)
    ensures (r.sourcePort.Some? <==> p.tcp.Some? || p.udp.Some?) && (r.destinationPort.Some? <==> r.sourcePort.Some?)
    ensures p.tcp.Some? ==> r.sourcePort == Some(p.tcp.value.sport) && r.destinationPort == Some(p.tcp.value.dport)
    ensures p.tcp.None? && p.udp.Some? ==> r.sourcePort == Some(p.udp.value.sport) && r.destinationPort == Some(p.udp.value.dport)
    ensures r.tcpFlags.Some? <==> p.tcp.Some?
    ensures p.tcp.Some? ==> r.tcpFlags == Some(ScapyFlags(p.tcp.value.flags))
  {
    var base := PacketInfo(now, p.length, Some(p.summary), Some(ScapyProtocol(p)),
      if p.ip.Some? then Some(p.ip.value.src) else None,
      if p.ip.Some? then Some(p.ip.value.dst) else None,
      None, None, None);
    if p.tcp.Some? then
      base.(sourcePort := Some(p.tcp.value.sport), destinationPort := Some(p.tcp.value.dport),
            tcpFlags := Some(ScapyFlags(p.tcp.value.flags)))
    else if p.udp.Some? then
      base.(sourcePort := Some(p.udp.value.sport), destinationPort := Some(p.udp.value.dport))
    else base
  }

  /** The six letters are distinct and read SAFRPU. */
  lemma ScapyFlagTable()
    ensures |SCAPY_FLAG_BITS| == 6
    ensures DistinctLetters(SCAPY_FLAG_BITS)
    ensures TableLetters(SCAPY_FLAG_BITS) == "SAFRPU"
  {
    TcpFlagTable();
    TableLettersPrefix(TCP_FLAG_BITS, 6);
    assert "SAFRPUEC"[..6] == "SAFRPU";
  }

  /** tcp_flags holds each letter exactly when its mask bit is set, in the order SAFRPU. */
  lemma ScapyFlagsLetters(flags: nat)
    ensures var s := ScapyFlags(flags);
      ('S' in s <==> TestBit(flags, 1)) && ('A' in s <==> TestBit(flags, 4)) &&
      ('F' in s <==> TestBit(flags, 0)) && ('R' in s <==> TestBit(flags, 2)) &&
      ('P' in s <==> TestBit(flags, 3)) && ('U' in s <==> TestBit(flags, 5)) &&
      Subsequence(s, "SAFRPU")
  {
    var t := SCAPY_FLAG_BITS;
    ScapyFlagTable();
    FlagLettersSpec(flags, t);
    var s := ScapyFlags(flags);
    assert forall j :: 0 <= j < 6 ==> (t[j].letter in s <==> TestBit(flags, t[j].bit));
    assert t[0] == FlagBit('S', 1) && t[1] == FlagBit('A', 4) && t[2] == FlagBit('F', 0);
    assert t[3] == FlagBit('R', 2) && t[4] == FlagBit('P', 3) && t[5] == FlagBit('U', 5);
  }

  /** ECE, CWR and every higher bit of the flags field are ignored: only `flags & 0x3F` matters. */
  lemma ScapyFlagsLowBits(flags: nat)
    ensures ScapyFlags(flags) == ScapyFlags(flags % 64)
  {
    assert Pow2(6) == 64;
    ScapyFlagTable();
    assert forall j :: 0 <= j < 6 ==> SCAPY_FLAG_BITS[j] == TCP_FLAG_BITS[j];
    FlagLettersLowBits(flags, SCAPY_FLAG_BITS, 6);
  }

  /** The capture parser's letters are the dissector's flag string of the low six bits. */
  lemma ScapyFlagsAreDissectorFlags(flags: nat)
    ensures ScapyFlags(flags) == TcpFlagString(flags % 64)
  {
    var low := flags % 64;
    var t := TCP_FLAG_BITS;
    assert t == t[..6] + t[6..];
    FlagLettersAppend(low, t[..6], t[6..]);
    assert t[6..] == [FlagBit('E', 6), FlagBit('C', 7)];
    assert Pow2(6) == 64 && Pow2(7) == 128;
    TestBitAbove(low, 6);
    TestBitAbove(low, 7);
    assert FlagLetters(low, t[6..][1..][1..]) == "";
    assert FlagLetters(low, t[6..]) == "";
    ScapyFlagsLowBits(flags);
  }

  // ---------------------------------------------------------------------
  // parse_pyshark_packet: PyShark hands every field over as text, so each
  // number is an Option<int>, None where int() or float() would raise.

  datatype PysharkTcp = PysharkTcp(
    srcport: Option<int>, dstport: Option<int>,
    syn: Option<int>, ack: Option<int>, fin: Option<int>, reset: Option<int>, push: Option<int>, urg: Option<int>)
  datatype PysharkUdp = PysharkUdp(srcport: Option<int>, dstport: Option<int>)
  datatype PysharkPacket = PysharkPacket(
    sniffTime: Option<Time>, length: Option<int>, info: Option<string>, highestLayer: Option<string>,
    ip: Option<IpLayer>, tcp: Option<PysharkTcp>, udp: Option<PysharkUdp>)

  function ToInt(text: Option<int>): (r: Result<int>)
    ensures r.Ok? <==> text.Some?
    ensures r.Raise? ==> r.fault == ValueErrorFault
  {
    if text.Some? then Ok(text.value) else Raise(ValueErrorFault)
  }

  /** A letter and the integer value of the flags_* field that selects it (== 1). */
  datatype FlagField = FlagField(letter: char, value: int)

  function FieldLetters(fields: seq<FlagField>): string
  {
    if fields == [] then ""
    else (if fields[0].value == 1 then [fields[0].letter] else "") + FieldLetters(fields[1..])
  }

  /** The letters PyShark's six flag fields select, checked in the order syn ack fin reset push urg. */
  function PysharkFlags(syn: int, ack: int, fin: int, reset: int, push: int, urg: int): string
  {
    FieldLetters([FlagField('S', syn), FlagField('A', ack), FlagField('F', fin),
                  FlagField('R', reset), FlagField('P', push), FlagField('U', urg)])
  }

  predicate PysharkNumbersParse(p: PysharkPacket)
  {
    p.sniffTime.Some? && p.length.Some? &&
    (p.tcp.Some? ==>
      var t := p.tcp.value;
      t.srcport.Some? && t.dstport.Some? && t.syn.Some? && t.ack.Some? &&
      t.fin.Some? && t.reset.Some? && t.push.Some? && t.urg.Some?) &&
    (p.tcp.None? && p.udp.Some? ==> p.udp.value.srcport.Some? && p.udp.value.dstport.Some?)
  }

  function ParsePysharkPacket(p: PysharkPacket): (r: Result<PacketInfo>)
    ensures r.Ok? <==> PysharkNumbersParse(p)
    ensures r.Raise? ==> r.fault == ValueErrorFault
    ensures r.Ok? ==> r.value.timestamp == p.sniffTime.value && r.value.length == p.length.value
    ensures r.Ok? ==> r.value.protocol == p.highestLayer && r.value.info == p.info
    ensures r.Ok? ==> (r.value.sourceIp.Some? <==> p.ip.Some?) && (r.value.destinationIp.Some? <==> p.ip.Some?)
    ensures r.Ok? && p.ip.Some? ==> r.value.sourceIp == Some(p.ip.value.src) && r.value.destinationIp == Some(p.ip.value.dst)
    ensures r.Ok? ==> (r.value.sourcePort.Some? <==> p.tcp.Some? || p.udp.Some?)
    ensures r.Ok? ==> (r.value.destinationPort.Some? <==> p.tcp.Some? || p.udp.Some?)
    ensures r.Ok? && p.tcp.Some? ==>
      r.value.sourcePort == p.tcp.value.srcport && r.value.destinationPort == p.tcp.value.dstport
    ensures r.Ok? && p.tcp.None? && p.udp.Some? ==>
      r.value.sourcePort == p.udp.value.srcport && r.value.destinationPort == p.udp.value.dstport
    ensures r.Ok? ==> (r.value.tcpFlags.Some? <==> p.tcp.Some?)
    ensures r.Ok? && p.tcp.Some? ==> var t := p.tcp.value;
      r.value.tcpFlags == Some(PysharkFlags(t.syn.value, t.ack.value, t.fin.value, t.reset.value, t.push.value, t.urg.value))
  {
    var timestamp :- ToInt(p.sniffTime);
    var length :- ToInt(p.length);
    var base := PacketInfo(timestamp, length, p.info, p.highestLayer,
      if p.ip.Some? then Some(p.ip.value.src) else None,
      if p.ip.Some? then Some(p.ip.value.dst) else None,
      None, None, None);
    if p.tcp.Some? then
      var t := p.tcp.value;
      var sport :- ToInt(t.srcport);
      var dport :- ToInt(t.dstport);
      var syn :- ToInt(t.syn);
      var ack :- ToInt(t.ack);
      var fin :- ToInt(t.fin);
      var reset :- ToInt(t.reset);
      var push :- ToInt(t.push);
      var urg :- ToInt(t.urg);
      Ok(base.(sourcePort := Some(sport), destinationPort := Some(dport),
               tcpFlags := Some(PysharkFlags(syn, ack, fin, reset, push, urg))))
    else if p.udp.Some? then
      var sport :- ToInt(p.udp.value.srcport);
      var dport :- ToInt(p.udp.value.dstport);
      Ok(base.(sourcePort := Some(sport), destinationPort := Some(dport)))
    else Ok(base)
  }

  lemma {:induction false} FieldLettersHas(fields: seq<FlagField>, c: char)
    ensures c in FieldLetters(fields) <==> exists j :: 0 <= j < |fields| && fields[j].letter == c && fields[j].value == 1
  {
    if fields != [] {
      FieldLettersHas(fields[1..], c);
      assert forall j :: 0 < j < |fields| ==> fields[j] == fields[1..][j - 1];
    }
  }

  /** Each letter appears exactly when its field is 1. */
  lemma PysharkFlagsLetters(syn: int, ack: int, fin: int, reset: int, push: int, urg: int)
    ensures var s := PysharkFlags(syn, ack, fin, reset, push, urg);
      ('S' in s <==> syn == 1) && ('A' in s <==> ack == 1) && ('F' in s <==> fin == 1) &&
      ('R' in s <==> reset == 1) && ('P' in s <==> push == 1) && ('U' in s <==> urg == 1)
  {
    var f := [FlagField('S', syn), FlagField('A', ack), FlagField('F', fin),
              FlagField('R', reset), FlagField('P', push), FlagField('U', urg)];
    forall j | 0 <= j < |f|
      ensures f[j].letter == 'S' ==> j == 0
      ensures f[j].letter == 'A' ==> j == 1
      ensures f[j].letter == 'F' ==> j == 2
      ensures f[j].letter == 'R' ==> j == 3
      ensures f[j].letter == 'P' ==> j == 4
      ensures f[j].letter == 'U' ==> j == 5
    {
      if j == 0 {} else if j == 1 {} else if j == 2 {} else if j == 3 {} else if j == 4 {} else {}
    }
    FieldLettersHas(f, 'S');
    FieldLettersHas(f, 'A');
    FieldLettersHas(f, 'F');
    FieldLettersHas(f, 'R');
    FieldLettersHas(f, 'P');
    FieldLettersHas(f, 'U');
  }

  lemma {:induction false} FieldLettersAgree(fields: seq<FlagField>, flags: nat, table: seq<FlagBit>)
    requires |fields| == |table|
    requires forall j :: 0 <= j < |table| ==>
      fields[j].letter == table[j].letter && (fields[j].value == 1 <==> TestBit(flags, table[j].bit))
    ensures FieldLetters(fields) == FlagLetters(flags, table)
  {
    if fields != [] {
      assert forall j :: 0 <= j < |table| - 1 ==> fields[1..][j] == fields[j + 1] && table[1..][j] == table[j + 1];
      FieldLettersAgree(fields[1..], flags, table[1..]);
    }
  }

  /** Both back ends build the same flag string for the same TCP header. */
  lemma ParsersAgreeOnFlags(flags: nat, syn: int, ack: int, fin: int, reset: int, push: int, urg: int)
    requires (syn == 1 <==> TestBit(flags, 1)) && (ack == 1 <==> TestBit(flags, 4))
    requires (fin == 1 <==> TestBit(flags, 0)) && (reset == 1 <==> TestBit(flags, 2))
    requires (push == 1 <==> TestBit(flags, 3)) && (urg == 1 <==> TestBit(flags, 5))
    ensures PysharkFlags(syn, ack, fin, reset, push, urg) == ScapyFlags(flags)
  {
    var t := SCAPY_FLAG_BITS;
    ScapyFlagTable();
    assert t[0] == FlagBit('S', 1) && t[1] == FlagBit('A', 4) && t[2] == FlagBit('F', 0);
    assert t[3] == FlagBit('R', 2) && t[4] == FlagBit('P', 3) && t[5] == FlagBit('U', 5);
    var f := [FlagField('S', syn), FlagField('A', ack), FlagField('F', fin),
              FlagField('R', reset), FlagField('P', push), FlagField('U', urg)];
    FieldLettersAgree(f, flags, t);
  }

  // ---------------------------------------------------------------------
  // parse_packet

  /** Which capture libraries imported. */
  datatype Libraries = Libraries(pyshark: bool, scapy: bool)

  /** A packet as the capture loop hands it to the callback, by the library that produced it. */
  datatype CapturedPacket = FromPyshark(pyshark: PysharkPacket) | FromScapy(scapy: ScapyPacket) | Unrecognised

  /**
   * parse_packet: the parser for the packet's kind, None for an unknown kind or
   * a parser that raised. The PyShark test comes first and asks only for a
   * `layers` attribute, which a Scapy packet also has (its `layers()` method);
   * so with PyShark loaded a Scapy packet goes to the PyShark parser, whose
   * first read (`sniff_timestamp`) raises, and the result is None.
   */
  function ParsePacket(libs: Libraries, packet: CapturedPacket, now: Time): (r: Option<PacketInfo>)
    ensures packet.Unrecognised? ==> r.None?
    ensures packet.FromPyshark? ==>
      (r.Some? <==> libs.pyshark && PysharkNumbersParse(packet.pyshark))
    ensures packet.FromPyshark? && r.Some? ==> Ok(r.value) == ParsePysharkPacket(packet.pyshark)
    ensures packet.FromScapy? ==> (r.Some? <==> !libs.pyshark && libs.scapy)
    ensures packet.FromScapy? && r.Some? ==> r.value == ParseScapyPacket(packet.scapy, now)
  {
    match packet
    case FromPyshark(p) =>
      if libs.pyshark then
        (match ParsePysharkPacket(p) case Ok(info) => Some(info) case Raise(_) => None)
      else None
    case FromScapy(p) =>
      if libs.pyshark then None
      else if libs.scapy then Some(ParseScapyPacket(p, now))
      else None
    case Unrecognised => None
  }

  // ---------------------------------------------------------------------
  // The Packet and PacketCapture tables and the capture buffers.

  /** A row of the Packet table. */
  datatype PacketRow = PacketRow(
    captureId: int, timestamp: Time, protocol: Option<string>,
    sourceIp: Option<string>, destinationIp: Option<string>,
    sourcePort: Option<int>, destinationPort: Option<int>,
    length: int, info: Option<string>, tcpFlags: Option<string>)

  /** The columns of a PacketCapture row that capture bookkeeping updates. */
  datatype CaptureRow = CaptureRow(packetCount: int, endTime: Option<Time>, description: string)

  /** The buffer is flushed to the database once it holds this many packets. */
  const FLUSH_THRESHOLD: nat := 1000
  /** The packet count of the capture is refreshed whenever the buffer length is a multiple of this. */
  const COUNT_INTERVAL: nat := 100

  function RowOf(captureId: int, p: PacketInfo): PacketRow
  {
    PacketRow(captureId, p.timestamp, p.protocol, p.sourceIp, p.destinationIp,
              p.sourcePort, p.destinationPort, p.length, p.info, p.tcpFlags)
  }

  function RowsOf(captureId: int, buffer: seq<PacketInfo>): (rows: seq<PacketRow>)
    ensures |rows| == |buffer|
    ensures forall k :: 0 <= k < |buffer| ==> rows[k] == RowOf(captureId, buffer[k])
  {
    seq(|buffer|, k requires 0 <= k < |buffer| => RowOf(captureId, buffer[k]))
  }

  /** `Packet.query.filter_by(capture_id=id).count()` */
  function CountRows(rows: seq<PacketRow>, captureId: int): nat
  {
    if rows == [] then 0
    else CountRows(rows[..|rows| - 1], captureId) + (if rows[|rows| - 1].captureId == captureId then 1 else 0)
  }

  lemma {:induction false} CountRowsAppend(a: seq<PacketRow>, b: seq<PacketRow>, captureId: int)
    ensures CountRows(a + b, captureId) == CountRows(a, captureId) + CountRows(b, captureId)
  {
    if b == [] {
      assert a + b == a;
    } else {
      assert (a + b)[..|a + b| - 1] == a + b[..|b| - 1];
      CountRowsAppend(a, b[..|b| - 1], captureId);
    }
  }

  lemma {:induction false} CountRowsOf(captureId: int, other: int, buffer: seq<PacketInfo>)
    ensures CountRows(RowsOf(captureId, buffer), other) == if other == captureId then |buffer| else 0
  {
    if buffer != [] {
      assert RowsOf(captureId, buffer)[..|buffer| - 1] == RowsOf(captureId, buffer[..|buffer| - 1]);
      CountRowsOf(captureId, other, buffer[..|buffer| - 1]);
    }
  }

  /** A flush adds exactly the buffered packets to the capture's count and none to any other capture's. */
  lemma FlushCounts(rows: seq<PacketRow>, captureId: int, other: int, buffer: seq<PacketInfo>)
    ensures CountRows(rows + RowsOf(captureId, buffer), other) ==
      CountRows(rows, other) + (if other == captureId then |buffer| else 0)
  {
    CountRowsAppend(rows, RowsOf(captureId, buffer), other);
    CountRowsOf(captureId, other, buffer);
  }

  /** update_packet_count: a capture that does not exist is left alone. */
  function WithCount(captures: map<int, CaptureRow>, captureId: int, count: int): (r: map<int, CaptureRow>)
    ensures r.Keys == captures.Keys
    ensures forall id :: id in captures && id != captureId ==> r[id] == captures[id]
    ensures captureId in captures ==> r[captureId] == captures[captureId].(packetCount := count)
  {
    if captureId in captures then captures[captureId := captures[captureId].(packetCount := count)] else captures
  }

  /** update_capture_status with end=True: the end time, and an error note appended when there is one. */
  function WithEnd(captures: map<int, CaptureRow>, captureId: int, now: Time, error: string): (r: map<int, CaptureRow>)
    ensures r.Keys == captures.Keys
    ensures forall id :: id in captures && id != captureId ==> r[id] == captures[id]
    ensures captureId in captures ==> (r[captureId].endTime == Some(now) &&
      r[captureId].packetCount == captures[captureId].packetCount &&
      (error == [] ==> r[captureId].description == captures[captureId].description) &&
      (error != [] ==> r[captureId].description == captures[captureId].description + " (Error: " + error + ")"))
  {
    if captureId in captures then
      var c := captures[captureId];
      var description := if error != [] then c.description + " (Error: " + error + ")" else c.description;
      captures[captureId := CaptureRow(c.packetCount, Some(now), description)]
    else captures
  }

  /**
   * The module globals active_captures (its key set) and capture_data, and the
   * Packet and PacketCapture tables they are flushed to.
   */
  class CaptureRegistry {
    var active: set<int>
    var buffers: map<int, seq<PacketInfo>>
    var packets: seq<PacketRow>
    var captures: map<int, CaptureRow>
    var nextId: int

    /** Every active capture has a buffer, no buffer reaches the flush threshold, ids are fresh. */
    predicate Valid()
      reads this
    {
      active <= buffers.Keys &&
      (forall id :: id in buffers ==> |buffers[id]| < FLUSH_THRESHOLD) &&
      (forall id :: id in captures ==> id < nextId)
    }

    constructor ()
      ensures Valid()
      ensures active == {} && buffers == map[] && packets == [] && captures == map[]
    {
      active := {};
      buffers := map[];
      packets := [];
      captures := map[];
      nextId := 1;
    }

    /**
     * start_packet_capture with the first step of its capture thread: a new
     * PacketCapture row, an empty buffer, and the capture registered as active.
     */
    method StartPacketCapture(iface: string) returns (captureId: int)
      requires Valid()
      modifies this
      ensures Valid()
      ensures captureId !in old(captures)
      ensures captures == old(captures)[captureId := CaptureRow(0, None, "Capture on " + iface)]
      ensures buffers == old(buffers)[captureId := []] && active == old(active) + {captureId}
      ensures packets == old(packets)
    {
      captureId := nextId;
      nextId := nextId + 1;
      captures := captures[captureId := CaptureRow(0, None, "Capture on " + iface)];
      buffers := buffers[captureId := []];
      active := active + {captureId};
    }

    method UpdatePacketCount(captureId: int, count: int)
      modifies this
      ensures captures == WithCount(old(captures), captureId, count)
      ensures active == old(active) && buffers == old(buffers) && packets == old(packets) && nextId == old(nextId)
    {
      captures := WithCount(captures, captureId, count);
    }

    /**
     * save_packets_to_db: nothing happens for a missing or empty buffer;
     * otherwise the buffer is emptied, one row per buffered packet is added in
     * buffer order, and the capture's count becomes the number of its rows.
     */
    method SavePacketsToDb(captureId: int)
      modifies this
      ensures active == old(active) && nextId == old(nextId)
      ensures captureId !in old(buffers) || old(buffers[captureId]) == [] ==>
        buffers == old(buffers) && packets == old(packets) && captures == old(captures)
      ensures captureId in old(buffers) && old(buffers[captureId]) != [] ==>
        buffers == old(buffers)[captureId := []] &&
        packets == old(packets) + RowsOf(captureId, old(buffers[captureId])) &&
        captures == WithCount(old(captures), captureId, CountRows(packets, captureId))
    {
      if captureId !in buffers || buffers[captureId] == [] {
        return;
      }
      var toSave := buffers[captureId];
      buffers := buffers[captureId := []];
      var objects: seq<PacketRow> := [];
      for k := 0 to |toSave|
        invariant objects == RowsOf(captureId, toSave[..k])
      {
        objects := objects + [RowOf(captureId, toSave[k])];
      }
      assert toSave[..|toSave|] == toSave;
      packets := packets + objects;
      var count := CountRows(packets, captureId);
      UpdatePacketCount(captureId, count);
    }

    /**
     * packet_callback for one captured packet: ignored unless the capture is
     * active and the packet parses; otherwise buffered, the count refreshed on
     * every hundredth packet, and the buffer flushed when it reaches 1000.
     */
    method PacketCallback(captureId: int, libs: Libraries, packet: CapturedPacket, now: Time)
      requires Valid()
      modifies this
      ensures Valid()
      ensures active == old(active) && nextId == old(nextId)
      ensures var parsed := ParsePacket(libs, packet, now);
        if captureId !in old(active) || parsed.None? then
          buffers == old(buffers) && packets == old(packets) && captures == old(captures)
        else
          var buffer := old(buffers[captureId]) + [parsed.value];
          var counted := if |buffer| % COUNT_INTERVAL == 0 then WithCount(old(captures), captureId, |buffer|)
                         else old(captures);
          if |buffer| < FLUSH_THRESHOLD then
            buffers == old(buffers)[captureId := buffer] && packets == old(packets) && captures == counted
          else
            buffers == old(buffers)[captureId := []] &&
            packets == old(packets) + RowsOf(captureId, buffer) &&
            captures == WithCount(counted, captureId, CountRows(packets, captureId))
    {
      if captureId !in active {
        return;
      }
      var parsed := ParsePacket(libs, packet, now);
      if parsed.None? {
        return;
      }
      var buffer := buffers[captureId] + [parsed.value];
      buffers := buffers[captureId := buffer];
      if |buffer| % COUNT_INTERVAL == 0 {
        UpdatePacketCount(captureId, |buffer|);
      }
      if |buffer| >= FLUSH_THRESHOLD {
        SavePacketsToDb(captureId);
      }
    }

    /**
     * The end of the capture thread and stop_packet_capture: flush the buffer,
     * stamp the end time, forget the capture.
     */
    method EndCapture(captureId: int, now: Time)
      requires Valid() && captureId in active
      modifies this
      ensures Valid()
      ensures active == old(active) - {captureId} && buffers == old(buffers) - {captureId}
      ensures packets == old(packets) + RowsOf(captureId, old(buffers[captureId]))
      ensures captures.Keys == old(captures).Keys && nextId == old(nextId)
      ensures captureId in captures ==>
        captures[captureId].endTime == Some(now) &&
        captures[captureId].description == old(captures[captureId].description) &&
        (old(buffers[captureId]) != [] ==> captures[captureId].packetCount == CountRows(packets, captureId))
      ensures forall id :: id in old(captures) && id != captureId ==> captures[id] == old(captures[id])
    {
      SavePacketsToDb(captureId);
      captures := WithEnd(captures, captureId, now, "");
      active := active - {captureId};
      buffers := buffers - {captureId};
    }

    /** stop_packet_capture: False for a capture that is not active, which changes nothing. */
    method StopPacketCapture(captureId: int, now: Time) returns (stopped: bool)
      requires Valid()
      modifies this
      ensures Valid()
      ensures stopped <==> captureId in old(active)
      ensures !stopped ==> (active == old(active) && buffers == old(buffers) &&
        packets == old(packets) && captures == old(captures))
      ensures stopped ==> (active == old(active) - {captureId} && buffers == old(buffers) - {captureId} &&
        packets == old(packets) + RowsOf(captureId, old(buffers[captureId])) &&
        (captureId in captures ==> captures[captureId].endTime == Some(now)))
    ensures stopped ==> captures.Keys == old(captures).Keys && nextId == old(nextId)
    ensures stopped && captureId in captures ==>
      captures[captureId].description == old(captures[captureId].description) &&
      (old(buffers[captureId]) != [] ==> captures[captureId].packetCount == CountRows(packets, captureId))
    ensures stopped ==> forall id :: id in old(captures) && id != captureId ==> captures[id] == old(captures[id])
    {
      if captureId !in active {
        return false;
      }
      EndCapture(captureId, now);
      return true;
    }
  }

  // ---------------------------------------------------------------------
  // get_packet_details

  datatype GeneralDetails = GeneralDetails(timestamp: Time, length: int, captureId: int)
  /** IPv4 header fields: the stored protocol and addresses, the length, and fixed placeholders. */
  datatype IpDetails = IpDetails(
    version: int, headerLength: int, dscp: int, ecn: int, totalLength: int, identification: int,
    flags: int, fragmentOffset: int, ttl: int, protocol: Option<string>, checksum: string,
    source: Option<string>, destination: Option<string>)
  /** The TCP section; sequence and acknowledgment numbers, data offset, window, checksum and urgent pointer are "Unknown". */
  datatype TcpDetails = TcpDetails(sourcePort: Option<int>, destinationPort: Option<int>, flags: Option<string>)
  /** The UDP section; its length and checksum are "Unknown". */
  datatype UdpDetails = UdpDetails(sourcePort: Option<int>, destinationPort: Option<int>)
  datatype PacketDetails = PacketDetails(
    general: GeneralDetails, sourceMac: string, destinationMac: string, ip: IpDetails,
    tcp: Option<TcpDetails>, udp: Option<UdpDetails>)

  const UNKNOWN: string := "Unknown"

  function GetPacketDetails(p: PacketRow): (d: PacketDetails)
    ensures d.general == GeneralDetails(p.timestamp, p.length, p.captureId)
    ensures d.ip.totalLength == p.length && d.ip.version == 4 && d.ip.headerLength == 20 && d.ip.ttl == 64
    ensures d.ip.protocol == p.protocol && d.ip.source == p.sourceIp && d.ip.destination == p.destinationIp
    ensures d.tcp.Some? <==> p.protocol == Some("TCP")
    ensures d.udp.Some? <==> p.protocol == Some("UDP")
    ensures !(d.tcp.Some? && d.udp.Some?)
    ensures d.tcp.Some? ==> d.tcp.value == TcpDetails(p.sourcePort, p.destinationPort, p.tcpFlags)
    ensures d.udp.Some? ==> d.udp.value == UdpDetails(p.sourcePort, p.destinationPort)
  {
    var ip := IpDetails(4, 20, 0, 0, p.length, 0, 0, 0, 64, p.protocol, UNKNOWN, p.sourceIp, p.destinationIp);
    PacketDetails(
      GeneralDetails(p.timestamp, p.length, p.captureId), UNKNOWN, UNKNOWN, ip,
      if p.protocol == Some("TCP") then Some(TcpDetails(p.sourcePort, p.destinationPort, p.tcpFlags)) else None,
      if p.protocol == Some("UDP")
      then Some(UdpDetails(p.sourcePort, p.destinationPort)) else None)
  }

  /**
   * End to end for a Scapy packet: once buffered and saved, a TCP packet shows
   * a TCP section with its ports and flag letters, a UDP packet a UDP section.
   */
  lemma ScapyPacketDetails(p: ScapyPacket, now: Time, captureId: int)
    ensures var d := GetPacketDetails(RowOf(captureId, ParseScapyPacket(p, now)));
      (p.tcp.Some? ==> d.tcp == Some(TcpDetails(Some(p.tcp.value.sport), Some(p.tcp.value.dport),
                                                Some(ScapyFlags(p.tcp.value.flags)))) && d.udp.None?) &&
      (p.tcp.None? && p.udp.Some? ==> d.udp == Some(UdpDetails(Some(p.udp.value.sport), Some(p.udp.value.dport))) &&
                                      d.tcp.None?) &&
      d.ip.totalLength == p.length
  {
  }
}
