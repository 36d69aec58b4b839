// Protocol dissection: protocol and port naming tables, the Ethernet, IPv4,
// TCP and UDP header parsers, the TCP flag letters and their descriptions
// (utils/protocol_dissection.py).

module ProtocolDissection {
  import opened Common
  import opened Wire

  // ---------------------------------------------------------------------
  // Naming tables.

  /** IP protocol numbers the dissector names. */
  const PROTOCOL_MAP: map<int, string> := map[
    1 := "ICMP", 6 := "TCP", 17 := "UDP", 47 := "GRE", 50 := "ESP",
    51 := "AH", 58 := "ICMPv6", 89 := "OSPF", 132 := "SCTP"]

  /** Well-known ports and the application protocol each is taken to carry. */
  const PORT_MAP: map<int, string> := map[
    21 := "FTP", 22 := "SSH", 23 := "Telnet", 25 := "SMTP", 53 := "DNS",
    67 := "DHCP", 68 := "DHCP", 69 := "TFTP", 80 := "HTTP", 110 := "POP3",
    119 := "NNTP", 123 := "NTP", 143 := "IMAP", 161 := "SNMP", 162 := "SNMP",
    389 := "LDAP", 443 := "HTTPS", 465 := "SMTPS", 514 := "Syslog", 636 := "LDAPS",
    993 := "IMAPS", 995 := "POP3S", 1080 := "SOCKS", 1194 := "OpenVPN",
    1433 := "MSSQL", 1521 := "Oracle", 3128 := "Squid", 3306 := "MySQL",
    3389 := "RDP", 5060 := "SIP", 5432 := "PostgreSQL", 5900 := "VNC",
    5938 := "TeamViewer", 6666 := "IRC", 6667 := "IRC", 8080 := "HTTP-Proxy",
    8443 := "HTTPS-Alt", 9001 := "Tor"]

  const UNKNOWN_PROTOCOL_PREFIX: string := "Protocol-"

  /** get_protocol_name: the table entry, or "Protocol-<n>". */
  function ProtocolName(n: int): string
  {
    if n in PROTOCOL_MAP then PROTOCOL_MAP[n] else UNKNOWN_PROTOCOL_PREFIX + Decimal(n)
  }

  lemma ProtocolTableNames(n: int)
    requires n in PROTOCOL_MAP
    ensures |PROTOCOL_MAP[n]| < |UNKNOWN_PROTOCOL_PREFIX|
    ensures forall m :: m in PROTOCOL_MAP && PROTOCOL_MAP[m] == PROTOCOL_MAP[n] ==> m == n
  {
  }

  /**
   * Unknown numbers are rendered so that the number can be read back, and no
   * rendering collides with a table name: distinct numbers get distinct names.
   */
  lemma ProtocolNameInjective(a: int, b: int)
    requires ProtocolName(a) == ProtocolName(b)
    ensures a == b
  {
    var p := UNKNOWN_PROTOCOL_PREFIX;
    if a in PROTOCOL_MAP {
      ProtocolTableNames(a);
    } else if b in PROTOCOL_MAP {
      ProtocolTableNames(b);
    } else {
      var na, nb := ProtocolName(a), ProtocolName(b);
      assert na[|p|..] == Decimal(a) && nb[|p|..] == Decimal(b);
      DecimalRoundTrip(a);
      DecimalRoundTrip(b);
    }
  }

  /** get_application_protocol: the port table entry, or "<transport>-<port>". */
  function ApplicationProtocol(port: int, transport: string): string
  {
    if port in PORT_MAP then PORT_MAP[port] else transport + "-" + Decimal(port)
  }

  /** An unlisted port is named by its transport and the port number, which reads back. */
  lemma ApplicationProtocolFallback(port: int, transport: string)
    requires port !in PORT_MAP
    ensures var r := ApplicationProtocol(port, transport);
      |r| > |transport| + 1 &&
      r[..|transport|] == transport && r[|transport|] == '-' &&
      ParseDecimal(r[|transport| + 1..]) == port
  {
    var r := ApplicationProtocol(port, transport);
    assert r[|transport| + 1..] == Decimal(port);
    DecimalRoundTrip(port);
  }

  /** A listed port names its protocol whatever the transport: 53 is DNS over TCP and over UDP. */
  lemma ApplicationProtocolListed(port: int, transport: string, other: string)
    requires port in PORT_MAP
    ensures ApplicationProtocol(port, transport) == ApplicationProtocol(port, other) == PORT_MAP[port]
    ensures ApplicationProtocol(53, "TCP") == ApplicationProtocol(53, "UDP") == "DNS"
  {
  }

  // ---------------------------------------------------------------------
  // parse_ethernet_frame

  datatype EthernetHeader = EthernetHeader(destMac: string, srcMac: string, ethertype: int)

  function ParseEthernetFrame(data: seq<byte>): (r: Result<EthernetHeader>)
    ensures r.Ok? <==> |data| >= 14
    ensures r.Ok? ==> r.value.ethertype == Word(data[12], data[13])
  {
    var dest := MacText(Slice(data, 0, 6));
    var src := MacText(Slice(data, 6, 12));
    var ethertype :- Word16(data, 12);
    Ok(EthernetHeader(dest, src, ethertype))
  }

  /** Both addresses of a parsed frame are 17-character texts that read back to their six bytes. */
  lemma EthernetAddresses(data: seq<byte>)
    requires |data| >= 14
    ensures var h := ParseEthernetFrame(data).value;
      |h.destMac| == 17 && ParseMacText(h.destMac) == data[0..6] &&
      |h.srcMac| == 17 && ParseMacText(h.srcMac) == data[6..12]
  {
    assert Slice(data, 0, 6) == data[0..6];
    assert Slice(data, 6, 12) == data[6..12];
    MacTextRoundTrip(data[0..6]);
    MacTextRoundTrip(data[6..12]);
  }

  // ---------------------------------------------------------------------
  // parse_ipv4_packet

  datatype IPv4Header = IPv4Header(
    version: int, ihl: int, tos: int, totalLength: int, identification: int,
    flags: int, fragmentOffset: int, ttl: int, protocol: int, headerChecksum: int,
    srcIp: string, dstIp: string)

  function ParseIPv4Packet(data: seq<byte>): (r: Result<IPv4Header>)
    ensures r.Ok? <==> |data| >= 20
  {
    var versionIhl :- ByteAt(data, 0);
    var tos :- ByteAt(data, 1);
    var totalLength :- Word16(data, 2);
    var identification :- Word16(data, 4);
    var flagsFragment :- Word16(data, 6);
    var ttl :- ByteAt(data, 8);
    var protocol :- ByteAt(data, 9);
    var checksum :- Word16(data, 10);
    var srcIp :- InetNtoa(Slice(data, 12, 16));
    var dstIp :- InetNtoa(Slice(data, 16, 20));
    Ok(IPv4Header(versionIhl / 16, (versionIhl % 16) * 4, tos, totalLength, identification,
                  (flagsFragment / 8192) % 8, flagsFragment % 8192, ttl, protocol, checksum,
                  srcIp, dstIp))
  }

  /** Which exception a short buffer raises, in the order the fields are read. */
  lemma IPv4ShortInput(data: seq<byte>)
    requires |data| < 20
    ensures ParseIPv4Packet(data).Raise?
    ensures ParseIPv4Packet(data).fault ==
      if |data| < 2 || |data| == 8 || |data| == 9 then IndexErrorFault
      else if |data| < 12 then StructError
      else OSErrorFault
  {
  }

  /**
   * The split fields read back to the header bytes: the version and IHL nibbles
   * recompose the first byte and the 3-bit flags with the 13-bit fragment offset
   * recompose bytes 6 and 7.
   */
  lemma IPv4FieldsRecompose(data: seq<byte>)
    requires |data| >= 20
    ensures var h := ParseIPv4Packet(data).value;
      0 <= h.version < 16 && h.ihl % 4 == 0 && 0 <= h.ihl <= 60 &&
      h.version * 16 + h.ihl / 4 == data[0] &&
      0 <= h.flags < 8 && 0 <= h.fragmentOffset < 8192 &&
      h.flags * 8192 + h.fragmentOffset == Word(data[6], data[7]) &&
      h.totalLength == Word(data[2], data[3]) &&
      h.ttl == data[8] && h.protocol == data[9]
  {
    IPv4NumericFields(data);
    FlagsFragmentWord(data[6], data[7]);
  }

  /** The header parsed from a long enough packet, field by field. */
  lemma IPv4Words(data: seq<byte>)
    requires |data| >= 20
    ensures var h := ParseIPv4Packet(data).value;
      var w := Word(data[6], data[7]);
      h.version == data[0] / 16 && h.ihl == (data[0] % 16) * 4 && h.tos == data[1] &&
      h.totalLength == Word(data[2], data[3]) && h.identification == Word(data[4], data[5]) &&
      h.flags == (w / 8192) % 8 && h.fragmentOffset == w % 8192 &&
      h.ttl == data[8] && h.protocol == data[9] && h.headerChecksum == Word(data[10], data[11]) &&
      h.srcIp == DottedQuad(data[12], data[13], data[14], data[15]) &&
      h.dstIp == DottedQuad(data[16], data[17], data[18], data[19])
  {
    IPv4NumericFields(data);
    InetNtoaQuad(Slice(data, 12, 16));
    InetNtoaQuad(Slice(data, 16, 20));
  }

  /** The numeric fields of the header: the bytes, and the words shifted and masked. */
  lemma IPv4NumericFields(data: seq<byte>)
    requires |data| >= 20
    ensures var h := ParseIPv4Packet(data).value;
      var w := Word(data[6], data[7]);
      h.version == data[0] / 16 && h.ihl == (data[0] % 16) * 4 && h.tos == data[1] &&
      h.totalLength == Word(data[2], data[3]) && h.identification == Word(data[4], data[5]) &&
      h.flags == (w / 8192) % 8 && h.fragmentOffset == w % 8192 &&
      h.ttl == data[8] && h.protocol == data[9] && h.headerChecksum == Word(data[10], data[11])
  {
    assert Word16(data, 2) == Ok(Word(data[2], data[3]));
    assert Word16(data, 4) == Ok(Word(data[4], data[5]));
    assert Word16(data, 6) == Ok(Word(data[6], data[7]));
    assert Word16(data, 10) == Ok(Word(data[10], data[11]));
  }

  /** The 3-bit flags and the 13-bit fragment offset split a 16-bit word. */
  lemma FlagsFragmentWord(hi: byte, lo: byte)
    ensures var w := Word(hi, lo);
      0 <= (w / 8192) % 8 && w % 8192 < 8192 && ((w / 8192) % 8) * 8192 + w % 8192 == w
  {
    var w := Word(hi, lo);
    var h: int := hi;
    DivModUnique(w, 8192, h / 32, (h % 32) * 256 + lo as int);
    DivModUnique(h / 32, 8, 0, h / 32);
  }

  // ---------------------------------------------------------------------
  // TCP flag letters.

  /** A letter of a flag string and the bit of the flags field that sets it. */
  datatype FlagBit = FlagBit(letter: char, bit: nat)

  /** The order parse_tcp_segment appends letters in: SYN ACK FIN RST PSH URG ECE CWR. */
  const TCP_FLAG_BITS: seq<FlagBit> := [
    FlagBit('S', 1), FlagBit('A', 4), FlagBit('F', 0), FlagBit('R', 2),
    FlagBit('P', 3), FlagBit('U', 5), FlagBit('E', 6), FlagBit('C', 7)]

  /** Table-driven reference definition: one letter per set bit, in table order. */
  function FlagLetters(flags: nat, table: seq<FlagBit>): string
  {
    if table == [] then ""
    else (if TestBit(flags, table[0].bit) then [table[0].letter] else "") + FlagLetters(flags, table[1..])
  }

  function TableLetters(table: seq<FlagBit>): (r: string)
    ensures |r| == |table|
  {
    if table == [] then "" else [table[0].letter] + TableLetters(table[1..])
  }

  /** The letters of the first k entries are the first k letters. */
  lemma {:induction false} TableLettersPrefix(table: seq<FlagBit>, k: nat)
    requires k <= |table|
    ensures TableLetters(table[..k]) == TableLetters(table)[..k]
  {
    if k > 0 {
      var rest := table[1..];
      assert table[..k][1..] == rest[..k - 1];
      TableLettersPrefix(rest, k - 1);
      var tail := TableLetters(rest);
      assert ([table[0].letter] + tail)[..k] == [table[0].letter] + tail[..k - 1];
    }
  }

  predicate DistinctLetters(table: seq<FlagBit>)
  {
    forall i, j :: 0 <= i < j < |table| ==> table[i].letter != table[j].letter
  }

  /** `a` is what remains of `b` after deleting some letters. */
  predicate Subsequence(a: string, b: string)
  {
    if a == [] then true
    else if b == [] then false
    else if a[0] == b[0] then Subsequence(a[1..], b[1..])
    else Subsequence(a, b[1..])
  }

  lemma {:induction false} SubsequenceDropFirst(a: string, b: string)
    requires a != [] && Subsequence(a, b)
    ensures Subsequence(a[1..], b)
    decreases |b|, 1
  {
    if a[0] == b[0] {
      SubsequenceTail(a[1..], b);
    } else {
      SubsequenceDropFirst(a, b[1..]);
      SubsequenceTail(a[1..], b);
    }
  }

  /** A subsequence of the tail is a subsequence of the whole. */
  lemma {:induction false} SubsequenceTail(x: string, b: string)
    requires b != [] && Subsequence(x, b[1..])
    ensures Subsequence(x, b)
    decreases |b|, 0
  {
    if x != [] && x[0] == b[0] {
      SubsequenceDropFirst(x, b[1..]);
    }
  }

  lemma {:induction false} SubsequenceExtend(a: string, b: string, c: char)
    requires Subsequence(a, b)
    ensures Subsequence(a, [c] + b)
    ensures Subsequence([c] + a, [c] + b)
  {
    assert ([c] + b)[1..] == b;
    assert ([c] + a)[1..] == a;
    if a != [] && a[0] == c {
      SubsequenceDropFirst(a, b);
    }
  }

  /** The letters come out in table order, each at most once, exactly for the set bits. */
  lemma {:induction false} FlagLettersSpec(flags: nat, table: seq<FlagBit>)
    requires DistinctLetters(table)
    ensures Subsequence(FlagLetters(flags, table), TableLetters(table))
    ensures forall j :: 0 <= j < |table| ==>
      (table[j].letter in FlagLetters(flags, table) <==> TestBit(flags, table[j].bit))
    ensures forall c :: c in FlagLetters(flags, table) ==> exists j :: 0 <= j < |table| && table[j].letter == c
  {
    if table != [] {
      var rest := table[1..];
      assert DistinctLetters(rest) by {
        forall i, j | 0 <= i < j < |rest| ensures rest[i].letter != rest[j].letter {
          assert rest[i] == table[i + 1] && rest[j] == table[j + 1];
        }
      }
      FlagLettersSpec(flags, rest);
      SubsequenceExtend(FlagLetters(flags, rest), TableLetters(rest), table[0].letter);
      assert TableLetters(table) == [table[0].letter] + TableLetters(rest);
      if TestBit(flags, table[0].bit) {
        assert FlagLetters(flags, table) == [table[0].letter] + FlagLetters(flags, rest);
      } else {
        assert FlagLetters(flags, table) == FlagLetters(flags, rest);
      }
      forall j | 0 <= j < |table|
        ensures table[j].letter in FlagLetters(flags, table) <==> TestBit(flags, table[j].bit)
      {
        if j > 0 {
          assert table[j] == rest[j - 1];
          assert table[0].letter != table[j].letter;
        } else {
          assert forall i :: 0 <= i < |rest| ==> rest[i].letter != table[0].letter by {
            forall i | 0 <= i < |rest| ensures rest[i].letter != table[0].letter {
              assert rest[i] == table[i + 1];
            }
          }
        }
      }
      forall c | c in FlagLetters(flags, table)
        ensures exists j :: 0 <= j < |table| && table[j].letter == c
      {
        if c != table[0].letter {
          var j :| 0 <= j < |rest| && rest[j].letter == c;
          assert table[j + 1].letter == c;
        }
      }
    }
  }

  /** Bits at or above `m` never change the letters of a table whose bits are all below `m`. */
  lemma {:induction false} FlagLettersLowBits(flags: nat, table: seq<FlagBit>, m: nat)
    requires forall j :: 0 <= j < |table| ==> table[j].bit < m
    ensures FlagLetters(flags, table) == FlagLetters(flags % Pow2(m), table)
  {
    if table != [] {
      LowBits(flags, m, table[0].bit);
      assert forall j :: 0 <= j < |table| - 1 ==> table[1..][j] == table[j + 1];
      FlagLettersLowBits(flags, table[1..], m);
    }
  }

  lemma {:induction false} FlagLettersAppend(flags: nat, a: seq<FlagBit>, b: seq<FlagBit>)
    ensures FlagLetters(flags, a + b) == FlagLetters(flags, a) + FlagLetters(flags, b)
  {
    if a == [] {
      assert a + b == b;
    } else {
      var ab := a + b;
      assert ab[0] == a[0] && ab[1..] == a[1..] + b;
      FlagLettersAppend(flags, a[1..], b);
      var head := if TestBit(flags, a[0].bit) then [a[0].letter] else "";
      assert FlagLetters(flags, ab) == head + FlagLetters(flags, a[1..] + b);
      assert FlagLetters(flags, a) == head + FlagLetters(flags, a[1..]);
    }
  }

  /**
   * The flag_str parse_tcp_segment builds: starting from the empty text, one
   * letter appended per set bit, checked in the order of TCP_FLAG_BITS.
   */
  function TcpFlagString(flags: nat): string
  {
    FlagLetters(flags, TCP_FLAG_BITS)
  }

  /** flag_str lists its letters in the order SAFRPUEC, none of them twice. */
  lemma TcpFlagStringOrder(flags: nat)
    ensures Subsequence(TcpFlagString(flags), "SAFRPUEC")
  {
    TcpFlagTable();
    FlagLettersSpec(flags, TCP_FLAG_BITS);
  }

  /** The eight letters of the table are distinct and read SAFRPUEC. */
  lemma TcpFlagTable()
    ensures DistinctLetters(TCP_FLAG_BITS)
    ensures TableLetters(TCP_FLAG_BITS) == "SAFRPUEC"
  {
    var t := TCP_FLAG_BITS;
    assert t[1..][1..][1..][1..][1..][1..][1..][1..] == [];
  }

  /**
   * flag_str holds 'S' exactly when bit 0x02 is set, 'A' for 0x10, 'F' for
   * 0x01, 'R' for 0x04, 'P' for 0x08, 'U' for 0x20, 'E' for 0x40 and 'C' for 0x80.
   */
  lemma TcpFlagStringLetters(flags: nat)
    ensures var s := TcpFlagString(flags);
      ('S' in s <==> TestBit(flags, 1)) && ('A' in s <==> TestBit(flags, 4)) &&
      ('F' in s <==> TestBit(flags, 0)) && ('R' in s <==> TestBit(flags, 2)) &&
      ('P' in s <==> TestBit(flags, 3)) && ('U' in s <==> TestBit(flags, 5)) &&
      ('E' in s <==> TestBit(flags, 6)) && ('C' in s <==> TestBit(flags, 7))
  {
    var t := TCP_FLAG_BITS;
    TcpFlagTable();
    FlagLettersSpec(flags, t);
    var s := TcpFlagString(flags);
    assert forall j :: 0 <= j < 8 ==> (t[j].letter in s <==> TestBit(flags, t[j].bit));
    assert t[0].letter == 'S' && t[0].bit == 1;
    assert t[1].letter == 'A' && t[1].bit == 4;
    assert t[2].letter == 'F' && t[2].bit == 0;
    assert t[3].letter == 'R' && t[3].bit == 2;
    assert t[4].letter == 'P' && t[4].bit == 3;
    assert t[5].letter == 'U' && t[5].bit == 5;
    assert t[6].letter == 'E' && t[6].bit == 6;
    assert t[7].letter == 'C' && t[7].bit == 7;
  }

  /** The ninth flag bit (0x100) that parse_tcp_segment keeps in `flags` never shows in flag_str. */
  lemma TcpFlagStringLowByte(flags: nat)
    ensures TcpFlagString(flags) == TcpFlagString(flags % 256)
  {
    assert Pow2(8) == 256;
    FlagLettersLowBits(flags, TCP_FLAG_BITS, 8);
  }

  // ---------------------------------------------------------------------
  // parse_tcp_segment and parse_udp_segment

  datatype TcpHeader = TcpHeader(
    srcPort: int, dstPort: int, sequence: int, acknowledgement: int,
    offset: int, flags: int, flagStr: string,
    window: int, checksum: int, urgentPointer: int)

  function ParseTcpSegment(data: seq<byte>): (r: Result<TcpHeader>)
    ensures r.Ok? <==> |data| >= 20
    ensures r.Raise? ==> r.fault == StructError
  {
    var srcPort :- Word16(data, 0);
    var dstPort :- Word16(data, 2);
    var sequence :- Word32(data, 4);
    var acknowledgement :- Word32(data, 8);
    var offsetReservedFlags :- Word16(data, 12);
    var offset := (offsetReservedFlags / 4096) * 4;
    var flags := offsetReservedFlags % 512;
    var window :- Word16(data, 14);
    var checksum :- Word16(data, 16);
    var urgentPointer :- Word16(data, 18);
    Ok(TcpHeader(srcPort, dstPort, sequence, acknowledgement, offset, flags,
                 TcpFlagString(flags), window, checksum, urgentPointer))
  }

  /**
   * The data offset is a multiple of four up to 60 taken from the top nibble of
   * byte 12; the nine flag bits are the low bit of byte 12 and all of byte 13,
   * and the letters are those of byte 13 alone.
   */
  lemma TcpSegmentFields(data: seq<byte>)
    requires |data| >= 20
    ensures var h := ParseTcpSegment(data).value;
      h.srcPort == Word(data[0], data[1]) && h.dstPort == Word(data[2], data[3]) &&
      h.offset % 4 == 0 && 0 <= h.offset <= 60 && h.offset == (data[12] / 16) * 4 &&
      h.flags == (data[12] % 2) * 256 + data[13] as int &&
      h.flagStr == TcpFlagString(data[13])
  {
    var h := ParseTcpSegment(data).value;
    var hi, lo := data[12], data[13];
    var w := Word(hi, lo);
    TcpSegmentWords(data);
    OffsetFlagsWord(hi, lo);
    var nibble: int := hi / 16;
    assert 0 <= nibble < 16 && h.offset == nibble * 4;
    TcpFlagStringLowByte(w % 512);
    assert h.flagStr == TcpFlagString(lo);
  }

  /** Where the offset nibble and the nine flag bits of a 16-bit word sit in its two bytes. */
  lemma OffsetFlagsWord(hi: byte, lo: byte)
    ensures Word(hi, lo) / 4096 == hi / 16
    ensures Word(hi, lo) % 512 == (hi % 2) * 256 + lo as int
    ensures (Word(hi, lo) % 512) % 256 == lo as int
  {
    var w := Word(hi, lo);
    var h: int := hi;
    DivModUnique(w, 4096, h / 16, (h % 16) * 256 + lo as int);
    DivModUnique(w, 512, h / 2, (h % 2) * 256 + lo as int);
    DivModUnique((h % 2) * 256 + lo as int, 256, h % 2, lo as int);
  }

  /** The header parsed from a long enough segment, field by field. */
  lemma TcpSegmentWords(data: seq<byte>)
    requires |data| >= 20
    ensures var h := ParseTcpSegment(data).value;
      var w := Word(data[12], data[13]);
      h.srcPort == Word(data[0], data[1]) && h.dstPort == Word(data[2], data[3]) &&
      h.offset == (w / 4096) * 4 && h.flags == w % 512 && h.flagStr == TcpFlagString(w % 512)
  {
    var w := Word(data[12], data[13]);
    assert Word16(data, 0) == Ok(Word(data[0], data[1]));
    assert Word16(data, 2) == Ok(Word(data[2], data[3]));
    assert Word16(data, 12) == Ok(w);
  }

  /**
   * The sequence and acknowledgement numbers are the 32-bit words at bytes 4
   * and 8; window, checksum and urgent pointer the 16-bit words at 14, 16 and 18.
   */
  lemma TcpSegmentNumbers(data: seq<byte>)
    requires |data| >= 20
    ensures var h := ParseTcpSegment(data).value;
      h.sequence == DoubleWord(data[4], data[5], data[6], data[7]) &&
      h.acknowledgement == DoubleWord(data[8], data[9], data[10], data[11]) &&
      h.window == Word(data[14], data[15]) && h.checksum == Word(data[16], data[17]) &&
      h.urgentPointer == Word(data[18], data[19])
  {
    Word32Halves(data, 4);
    Word32Halves(data, 8);
    assert Word16(data, 14) == Ok(Word(data[14], data[15]));
    assert Word16(data, 16) == Ok(Word(data[16], data[17]));
    assert Word16(data, 18) == Ok(Word(data[18], data[19]));
  }

  datatype UdpHeader = UdpHeader(srcPort: int, dstPort: int, length: int, checksum: int)

  function ParseUdpSegment(data: seq<byte>): (r: Result<UdpHeader>)
    ensures r.Ok? <==> |data| >= 8
    ensures r.Raise? ==> r.fault == StructError
    ensures r.Ok? ==> r.value.srcPort == Word(data[0], data[1]) && r.value.dstPort == Word(data[2], data[3])
    ensures r.Ok? ==> r.value.length == Word(data[4], data[5]) && r.value.checksum == Word(data[6], data[7])
  {
    var srcPort :- Word16(data, 0);
    var dstPort :- Word16(data, 2);
    var length :- Word16(data, 4);
    var checksum :- Word16(data, 6);
    Ok(UdpHeader(srcPort, dstPort, length, checksum))
  }

  // ---------------------------------------------------------------------
  // get_tcp_flags_description

  const FLAG_DESCRIPTIONS: map<char, string> := map[
    'S' := "SYN - Connection establishment",
    'A' := "ACK - Acknowledgment",
    'F' := "FIN - Connection termination",
    'R' := "RST - Connection reset",
    'P' := "PSH - Push data",
    'U' := "URG - Urgent data",
    'E' := "ECE - ECN-Echo",
    'C' := "CWR - Congestion Window Reduced"]

  const UNKNOWN_FLAGS: string := "Unknown flag combination"

  /** The descriptions of the known letters of `flags`, in the order the letters appear. */
  function Descriptions(flags: string): seq<string>
  {
    if flags == [] then []
    else
      var last := flags[|flags| - 1];
      Descriptions(flags[..|flags| - 1]) + (if last in FLAG_DESCRIPTIONS then [FLAG_DESCRIPTIONS[last]] else [])
  }

  /** The known letters of `flags`, in order (a letter given twice is described twice). */
  function KnownLetters(flags: string): (r: string)
    ensures forall i :: 0 <= i < |r| ==> r[i] in FLAG_DESCRIPTIONS
  {
    if flags == [] then []
    else
      var last := flags[|flags| - 1];
      KnownLetters(flags[..|flags| - 1]) + (if last in FLAG_DESCRIPTIONS then [last] else [])
  }

  /** What get_tcp_flags_description returns. */
  function DescribeFlags(flags: string): string
  {
    var d := Descriptions(flags);
    if d == [] then UNKNOWN_FLAGS else Join(", ", d)
  }

  method TcpFlagsDescription(flags: string) returns (text: string)
    ensures text == DescribeFlags(flags)
  {
    var flagDesc: seq<string> := [];
    var i := 0;
    while i < |flags|
      invariant 0 <= i <= |flags|
      invariant flagDesc == Descriptions(flags[..i])
    {
      var flag := flags[i];
      if flag in FLAG_DESCRIPTIONS {
        flagDesc := flagDesc + [FLAG_DESCRIPTIONS[flag]];
      }
      assert flags[..i + 1][..i] == flags[..i];
      i := i + 1;
    }
    assert flags[..|flags|] == flags;
    text := if flagDesc != [] then Join(", ", flagDesc) else UNKNOWN_FLAGS;
  }

  /** Every description is "XYZ - ...", XYZ the flag's name, which starts with the flag letter. */
  lemma DescriptionTable(c: char)
    requires c in FLAG_DESCRIPTIONS
    ensures var d := FLAG_DESCRIPTIONS[c];
      |d| >= 6 && d[0] == c && d[3] == ' ' && d[4] == '-' && d[5] == ' '
  {
    var d := FLAG_DESCRIPTIONS[c];
    if c == 'S' { assert d == "SYN - Connection establishment"; }
    else if c == 'A' { assert d == "ACK - Acknowledgment"; }
    else if c == 'F' { assert d == "FIN - Connection termination"; }
    else if c == 'R' { assert d == "RST - Connection reset"; }
    else if c == 'P' { assert d == "PSH - Push data"; }
    else if c == 'U' { assert d == "URG - Urgent data"; }
    else if c == 'E' { assert d == "ECE - ECN-Echo"; }
    else { assert d == "CWR - Congestion Window Reduced"; }
  }

  /** Each description starts with the three-letter name of its flag, whose first letter is the flag letter. */
  lemma {:induction false} DescriptionsTrackLetters(flags: string)
    ensures |Descriptions(flags)| == |KnownLetters(flags)|
    ensures forall k :: 0 <= k < |Descriptions(flags)| ==>
      |Descriptions(flags)[k]| >= 6 && Descriptions(flags)[k][0] == KnownLetters(flags)[k] &&
      Descriptions(flags)[k][3] == ' ' && Descriptions(flags)[k][4] == '-' && Descriptions(flags)[k][5] == ' '
  {
    if flags != [] {
      var last := flags[|flags| - 1];
      DescriptionsTrackLetters(flags[..|flags| - 1]);
      if last in FLAG_DESCRIPTIONS {
        DescriptionTable(last);
      }
    }
  }

  /**
   * The fallback text is returned exactly when no letter of `flags` is a known
   * flag; otherwise the text starts with the description of the first known letter.
   */
  lemma DescribeFlagsUnknownIff(flags: string)
    ensures DescribeFlags(flags) == UNKNOWN_FLAGS <==> KnownLetters(flags) == []
    ensures KnownLetters(flags) != [] ==>
      var d := FLAG_DESCRIPTIONS[KnownLetters(flags)[0]];
      |DescribeFlags(flags)| >= |d| && DescribeFlags(flags)[..|d|] == d
  {
    DescriptionsTrackLetters(flags);
    var d := Descriptions(flags);
    if d != [] {
      var j := Join(", ", d);
      assert j[..|d[0]|] == d[0];
      KnownLetterDescription(flags, 0);
      DescriptionTable(KnownLetters(flags)[0]);
      assert j[4] == d[0][4] == '-';
      assert UNKNOWN_FLAGS[4] == 'o';
    }
  }

  lemma {:induction false} KnownLetterDescription(flags: string, k: nat)
    requires k < |KnownLetters(flags)|
    ensures |Descriptions(flags)| == |KnownLetters(flags)|
    ensures KnownLetters(flags)[k] in FLAG_DESCRIPTIONS
    ensures Descriptions(flags)[k] == FLAG_DESCRIPTIONS[KnownLetters(flags)[k]]
  {
    DescriptionsTrackLetters(flags);
    var init := flags[..|flags| - 1];
    DescriptionsTrackLetters(init);
    if k < |KnownLetters(init)| {
      KnownLetterDescription(init, k);
    }
  }
}
