// Byte-level building blocks the header and flow decoders share: Python slice
// semantics on bytes, the network-order subset of the `struct` module, hex
// rendering of MAC addresses and socket.inet_ntoa.

module Wire {
  import opened Common

  type byte = x: int | 0 <= x < 256

  /** The value of a two-byte big-endian field with the given high and low bytes. */
  function Word(hi: byte, lo: byte): int
  {
    hi as int * 256 + lo as int
  }

  /** The value of a four-byte big-endian field, bytes from most to least significant. */
  function DoubleWord(a: byte, b: byte, c: byte, d: byte): int
  {
    Word(a, b) * 0x1_0000 + Word(c, d)
  }

  /** Python's `data[lo:hi]` for non-negative bounds: clipped, never raising. */
  function Slice(data: seq<byte>, lo: nat, hi: nat): (r: seq<byte>)
    ensures |r| == if hi <= lo || lo >= |data| then 0 else (if hi < |data| then hi else |data|) - lo
    ensures lo + |r| <= |data| ==> r == data[lo..lo + |r|]
  {
    if hi <= lo || lo >= |data| then [] else data[lo..if hi < |data| then hi else |data|]
  }

  function Pow256(n: nat): (p: nat)
    ensures p > 0
  {
    if n == 0 then 1 else 256 * Pow256(n - 1)
  }

  lemma Pow256Values()
    ensures Pow256(1) == 0x100 && Pow256(2) == 0x1_0000
    ensures Pow256(4) == 0x1_0000_0000 && Pow256(8) == 0x1_0000_0000_0000_0000
  {
    assert Pow256(2) == 256 * Pow256(1);
    assert Pow256(4) == 256 * (256 * Pow256(2));
    assert Pow256(8) == 256 * (256 * (256 * (256 * Pow256(4))));
  }

  /** Unsigned big-endian value of a byte string. */
  function BigEndian(s: seq<byte>): (v: nat)
    ensures v < Pow256(|s|)
  {
    if s == [] then 0 else BigEndian(s[..|s| - 1]) * 256 + s[|s| - 1]
  }

  /** The n-byte big-endian encoding of v. */
  function BigEndianBytes(v: nat, n: nat): (s: seq<byte>)
    requires v < Pow256(n)
    ensures |s| == n
  {
    if n == 0 then [] else BigEndianBytes(v / 256, n - 1) + [v % 256]
  }

  lemma {:induction false} BigEndianRoundTrip(v: nat, n: nat)
    requires v < Pow256(n)
    ensures BigEndian(BigEndianBytes(v, n)) == v
  {
    if n > 0 {
      var s := BigEndianBytes(v, n);
      assert s[..|s| - 1] == BigEndianBytes(v / 256, n - 1);
      BigEndianRoundTrip(v / 256, n - 1);
    }
  }

  lemma BigEndianTwo(a: byte, b: byte)
    ensures BigEndian([a, b]) == Word(a, b)
  {
    assert [a, b][..1] == [a];
    assert [a][..0] == [];
  }

  // ---------------------------------------------------------------------
  // struct.unpack with a '!' (network order, standard sizes, no padding)
  // format. The codes are B (uint8), H (uint16), I (uint32), Q (uint64) and
  // i (int32). `struct.unpack` raises struct.error unless the buffer is
  // exactly calcsize(fmt) bytes long. Field i of the result sits at format
  // position i + 1, after the '!'.

  predicate IsFieldCode(c: char)
  {
    c == 'B' || c == 'H' || c == 'I' || c == 'Q' || c == 'i'
  }

  predicate IsNetworkFormat(fmt: string)
  {
    |fmt| >= 1 && fmt[0] == '!' && forall i :: 1 <= i < |fmt| ==> IsFieldCode(fmt[i])
  }

  /** Bytes a code occupies; the '!' occupies none. */
  function FieldSize(c: char): nat
  {
    match c
    case 'B' => 1
    case 'H' => 2
    case 'I' => 4
    case 'i' => 4
    case 'Q' => 8
    case _ => 0
  }

  /** Where the field at format position k starts: the sizes of the positions before it. */
  function FieldStart(fmt: string, k: nat): nat
    requires k <= |fmt|
  {
    if k == 0 then 0 else FieldStart(fmt, k - 1) + FieldSize(fmt[k - 1])
  }

  /** `struct.calcsize(fmt)`. */
  function CalcSize(fmt: string): nat
    requires IsNetworkFormat(fmt)
  {
    FieldStart(fmt, |fmt|)
  }

  lemma {:induction false} FieldStartMonotone(fmt: string, j: nat, k: nat)
    requires j <= k <= |fmt|
    ensures FieldStart(fmt, j) <= FieldStart(fmt, k)
  {
    if j < k {
      FieldStartMonotone(fmt, j, k - 1);
    }
  }

  /** The range a decoded field of the given code lies in. */
  predicate InFieldRange(c: char, v: int)
  {
    if c == 'i' then -0x8000_0000 <= v < 0x8000_0000 else 0 <= v < Pow256(FieldSize(c))
  }

  function FieldValue(c: char, b: seq<byte>): (v: int)
    requires IsFieldCode(c) && |b| == FieldSize(c)
    ensures InFieldRange(c, v)
  {
    var u := BigEndian(b);
    Pow256Values();
    if c == 'i' && u >= 0x8000_0000 then u - 0x1_0000_0000 else u
  }

  /** The bytes of the field at format position k of a buffer of calcsize(fmt) bytes. */
  function FieldBytesAt(fmt: string, buf: seq<byte>, k: nat): (b: seq<byte>)
    requires IsNetworkFormat(fmt) && |buf| == CalcSize(fmt) && 1 <= k < |fmt|
    ensures |b| == FieldSize(fmt[k])
  {
    FieldStartMonotone(fmt, k + 1, |fmt|);
    buf[FieldStart(fmt, k)..FieldStart(fmt, k + 1)]
  }

  /** `struct.unpack(fmt, buf)`: field i is the value of the bytes of position i + 1. */
  function Unpack(fmt: string, buf: seq<byte>): (r: Result<seq<int>>)
    requires IsNetworkFormat(fmt)
    ensures r.Ok? <==> |buf| == CalcSize(fmt)
    ensures r.Raise? ==> r.fault == StructError
    ensures r.Ok? ==> |r.value| == |fmt| - 1
  {
    if |buf| != CalcSize(fmt) then Raise(StructError)
    else Ok(UnpackFields(fmt, buf, |fmt| - 1))
  }

  /** The values of the fields at format positions 1 .. n, in order. */
  function UnpackFields(fmt: string, buf: seq<byte>, n: nat): (vs: seq<int>)
    requires IsNetworkFormat(fmt) && |buf| == CalcSize(fmt) && n < |fmt|
    ensures |vs| == n
  {
    if n == 0 then [] else UnpackFields(fmt, buf, n - 1) + [FieldValue(fmt[n], FieldBytesAt(fmt, buf, n))]
  }

  lemma {:induction false} UnpackFieldsAt(fmt: string, buf: seq<byte>, n: nat, k: nat)
    requires IsNetworkFormat(fmt) && |buf| == CalcSize(fmt) && n < |fmt| && 1 <= k <= n
    ensures UnpackFields(fmt, buf, n)[k - 1] == FieldValue(fmt[k], FieldBytesAt(fmt, buf, k))
  {
    if k < n {
      UnpackFieldsAt(fmt, buf, n - 1, k);
    }
  }

  function FieldBytes(c: char, v: int): (b: seq<byte>)
    requires IsFieldCode(c) && InFieldRange(c, v)
    ensures |b| == FieldSize(c)
  {
    Pow256Values();
    if c == 'i' then BigEndianBytes(if v < 0 then v + 0x1_0000_0000 else v, 4)
    else BigEndianBytes(v, FieldSize(c))
  }

  predicate PackableBy(fmt: string, vs: seq<int>)
  {
    IsNetworkFormat(fmt) && |vs| == |fmt| - 1 && forall i :: 0 <= i < |vs| ==> InFieldRange(fmt[i + 1], vs[i])
  }

  /** The bytes of the fields at format positions 1 .. k - 1. */
  function PackUpTo(fmt: string, vs: seq<int>, k: nat): (buf: seq<byte>)
    requires PackableBy(fmt, vs) && 1 <= k <= |fmt|
    ensures |buf| == FieldStart(fmt, k)
  {
    if k == 1 then [] else PackUpTo(fmt, vs, k - 1) + FieldBytes(fmt[k - 1], vs[k - 2])
  }

  /** `struct.pack(fmt, *vs)` for values in range. */
  function Pack(fmt: string, vs: seq<int>): (buf: seq<byte>)
    requires PackableBy(fmt, vs)
    ensures |buf| == CalcSize(fmt)
  {
    PackUpTo(fmt, vs, |fmt|)
  }

  lemma FieldRoundTrip(c: char, v: int)
    requires IsFieldCode(c) && InFieldRange(c, v)
    ensures FieldValue(c, FieldBytes(c, v)) == v
  {
    if c == 'i' {
      BigEndianRoundTrip(if v < 0 then v + 0x1_0000_0000 else v, 4);
    } else {
      BigEndianRoundTrip(v, FieldSize(c));
    }
  }

  /** Packing more fields leaves the bytes of the earlier ones where they were. */
  lemma {:induction false} PackUpToPrefix(fmt: string, vs: seq<int>, m: nat, k: nat)
    requires PackableBy(fmt, vs) && 1 <= m <= k <= |fmt|
    ensures FieldStart(fmt, m) <= |PackUpTo(fmt, vs, k)|
    ensures PackUpTo(fmt, vs, k)[..FieldStart(fmt, m)] == PackUpTo(fmt, vs, m)
  {
    var p, n := PackUpTo(fmt, vs, k), FieldStart(fmt, m);
    if m < k {
      PackUpToPrefix(fmt, vs, m, k - 1);
      FieldStartMonotone(fmt, m, k - 1);
      var prev := PackUpTo(fmt, vs, k - 1);
      assert p == prev + FieldBytes(fmt[k - 1], vs[k - 2]);
      assert n <= |prev| && prev[..n] == PackUpTo(fmt, vs, m);
      assert p[..n] == prev[..n];
    } else {
      assert p[..n] == p;
    }
  }

  /** The bytes of the field at position j are where FieldStart puts them. */
  lemma PackUpToField(fmt: string, vs: seq<int>, k: nat, j: nat)
    requires PackableBy(fmt, vs) && 1 <= j < k <= |fmt|
    ensures FieldStart(fmt, j + 1) <= |PackUpTo(fmt, vs, k)|
    ensures PackUpTo(fmt, vs, k)[FieldStart(fmt, j)..FieldStart(fmt, j + 1)] == FieldBytes(fmt[j], vs[j - 1])
  {
    PackUpToPrefix(fmt, vs, j + 1, k);
    var p := PackUpTo(fmt, vs, k);
    var lo, hi := FieldStart(fmt, j), FieldStart(fmt, j + 1);
    var q := PackUpTo(fmt, vs, j + 1);
    assert q == PackUpTo(fmt, vs, j) + FieldBytes(fmt[j], vs[j - 1]);
    assert p[lo..hi] == q[lo..];
  }

  /** Field k - 1 of an unpacked buffer is read from the FieldSize(fmt[k]) bytes that start at FieldStart(fmt, k). */
  lemma UnpackedField(fmt: string, buf: seq<byte>, k: nat, lo: nat)
    requires IsNetworkFormat(fmt) && |buf| == CalcSize(fmt) && 1 <= k < |fmt| && FieldStart(fmt, k) == lo
    ensures lo + FieldSize(fmt[k]) <= |buf|
    ensures Unpack(fmt, buf).value[k - 1] == FieldValue(fmt[k], buf[lo..lo + FieldSize(fmt[k])])
    ensures InFieldRange(fmt[k], Unpack(fmt, buf).value[k - 1])
  {
    FieldStartMonotone(fmt, k + 1, |fmt|);
    UnpackFieldsAt(fmt, buf, |fmt| - 1, k);
  }

  /** An 'H' field reads the big-endian word at its start. */
  lemma UnpackedWord(fmt: string, buf: seq<byte>, k: nat, lo: nat)
    requires IsNetworkFormat(fmt) && |buf| == CalcSize(fmt) && 1 <= k < |fmt| && FieldStart(fmt, k) == lo
    requires fmt[k] == 'H'
    ensures lo + 2 <= |buf| && Unpack(fmt, buf).value[k - 1] == Word(buf[lo], buf[lo + 1])
  {
    UnpackedField(fmt, buf, k, lo);
    FieldValueWord(buf[lo..lo + 2]);
  }

  /** A 'B' field reads the byte at its start. */
  lemma UnpackedByte(fmt: string, buf: seq<byte>, k: nat, lo: nat)
    requires IsNetworkFormat(fmt) && |buf| == CalcSize(fmt) && 1 <= k < |fmt| && FieldStart(fmt, k) == lo
    requires fmt[k] == 'B'
    ensures lo + 1 <= |buf| && Unpack(fmt, buf).value[k - 1] == buf[lo]
  {
    UnpackedField(fmt, buf, k, lo);
    FieldValueByte(buf[lo..lo + 1]);
  }

  /** An 'I' field is its two big-endian half words, high half first. */
  lemma UnpackedHalves(fmt: string, buf: seq<byte>, k: nat, lo: nat)
    requires IsNetworkFormat(fmt) && |buf| == CalcSize(fmt) && 1 <= k < |fmt| && FieldStart(fmt, k) == lo
    requires fmt[k] == 'I'
    ensures lo + 4 <= |buf|
    ensures Unpack(fmt, buf).value[k - 1] == DoubleWord(buf[lo], buf[lo + 1], buf[lo + 2], buf[lo + 3])
  {
    UnpackedField(fmt, buf, k, lo);
    FieldValueHalves(buf[lo..lo + 4]);
  }

  /** Unpacking what was packed gives the values back. */
  lemma UnpackPack(fmt: string, vs: seq<int>)
    requires PackableBy(fmt, vs)
    ensures Unpack(fmt, Pack(fmt, vs)) == Ok(vs)
  {
    var r := Unpack(fmt, Pack(fmt, vs)).value;
    forall i | 0 <= i < |vs|
      ensures r[i] == vs[i]
    {
      UnpackPackAt(fmt, vs, i);
    }
    assert r == vs;
  }

  /** Field i of the unpacked buffer is the value packed at position i. */
  lemma UnpackPackAt(fmt: string, vs: seq<int>, i: nat)
    requires PackableBy(fmt, vs) && i < |vs|
    ensures Unpack(fmt, Pack(fmt, vs)).Ok? && Unpack(fmt, Pack(fmt, vs)).value[i] == vs[i]
  {
    var buf := Pack(fmt, vs);
    var k := i + 1;
    assert |buf| == CalcSize(fmt);
    UnpackFieldsAt(fmt, buf, |fmt| - 1, k);
    PackedFieldBytes(fmt, vs, k);
    assert InFieldRange(fmt[k], vs[i]);
    FieldRoundTrip(fmt[k], vs[i]);
    assert UnpackFields(fmt, buf, |fmt| - 1)[i] == vs[i];
    assert Unpack(fmt, buf) == Ok(UnpackFields(fmt, buf, |fmt| - 1));
  }

  /** The bytes of position k in a packed buffer are the bytes of value k - 1. */
  lemma PackedFieldBytes(fmt: string, vs: seq<int>, k: nat)
    requires PackableBy(fmt, vs) && 1 <= k < |fmt|
    ensures FieldBytesAt(fmt, Pack(fmt, vs), k) == FieldBytes(fmt[k], vs[k - 1])
  {
    assert Pack(fmt, vs) == PackUpTo(fmt, vs, |fmt|);
    PackUpToField(fmt, vs, |fmt|, k);
  }

  lemma FieldValueByte(b: seq<byte>)
    requires |b| == 1
    ensures FieldValue('B', b) == b[0]
  {
    assert b[..0] == [];
  }

  lemma FieldValueWord(b: seq<byte>)
    requires |b| == 2
    ensures FieldValue('H', b) == Word(b[0], b[1])
  {
    assert b == [b[0], b[1]];
    BigEndianTwo(b[0], b[1]);
  }

  /** A 32-bit field is two 16-bit words, the high one first. */
  lemma FieldValueHalves(b: seq<byte>)
    requires |b| == 4
    ensures FieldValue('I', b) == Word(b[0], b[1]) * 0x1_0000 + Word(b[2], b[3])
  {
    var b3 := b[..3];
    assert b3[..2] == [b[0], b[1]];
    BigEndianTwo(b[0], b[1]);
    assert BigEndian(b3) == Word(b[0], b[1]) * 256 + b[2];
    assert BigEndian(b) == BigEndian(b3) * 256 + b[3];
  }

  // ---------------------------------------------------------------------
  // Header access with the exceptions Python raises.

  /** `data[i]`: IndexError past the end. */
  function ByteAt(data: seq<byte>, i: nat): (r: Result<byte>)
    ensures r.Ok? <==> i < |data|
    ensures r.Ok? ==> r.value == data[i]
    ensures r.Raise? ==> r.fault == IndexErrorFault
  {
    if i < |data| then Ok(data[i]) else Raise(IndexErrorFault)
  }

  /** `struct.unpack('!H', data[at:at+2])[0]`, stated on the bytes; Word16IsUnpack ties it to Unpack. */
  function Word16(data: seq<byte>, at: nat): (r: Result<int>)
    ensures r.Ok? <==> at + 2 <= |data|
    ensures r.Raise? ==> r.fault == StructError
  {
    if at + 2 <= |data| then Ok(Word(data[at], data[at + 1])) else Raise(StructError)
  }

  lemma Word16IsUnpack(data: seq<byte>, at: nat)
    ensures Word16(data, at) == match Unpack("!H", Slice(data, at, at + 2))
      case Ok(v) => Ok(v[0])
      case Raise(f) => Raise(f)
  {
    assert CalcSize("!H") == 2;
    if at + 2 <= |data| {
      var b := Slice(data, at, at + 2);
      assert b == [data[at], data[at + 1]];
      assert FieldBytesAt("!H", b, 1) == b;
      FieldValueWord(b);
    }
  }

  /** `struct.unpack('!I', data[at:at+4])[0]`, stated on the bytes; Word32IsUnpack ties it to Unpack. */
  function Word32(data: seq<byte>, at: nat): (r: Result<int>)
    ensures r.Ok? <==> at + 4 <= |data|
    ensures r.Ok? ==> 0 <= r.value < 0x1_0000_0000
    ensures r.Raise? ==> r.fault == StructError
  {
    Pow256Values();
    if at + 4 <= |data| then Ok(BigEndian(data[at..at + 4])) else Raise(StructError)
  }

  /** A 32-bit word read from the buffer is its two 16-bit halves, the high one first. */
  lemma Word32Halves(data: seq<byte>, at: nat)
    requires at + 4 <= |data|
    ensures Word32(data, at) == Ok(DoubleWord(data[at], data[at + 1], data[at + 2], data[at + 3]))
  {
    FieldValueHalves(data[at..at + 4]);
  }

  lemma Word32IsUnpack(data: seq<byte>, at: nat)
    ensures Word32(data, at) == match Unpack("!I", Slice(data, at, at + 4))
      case Ok(v) => Ok(v[0])
      case Raise(f) => Raise(f)
  {
    assert FieldStart("!I", 1) == 0;
    assert CalcSize("!I") == 4;
    if at + 4 <= |data| {
      var b := Slice(data, at, at + 4);
      assert b == data[at..at + 4];
      assert FieldBytesAt("!I", b, 1) == b;
    }
  }

  // ---------------------------------------------------------------------
  // socket.inet_ntoa: four bytes as dotted decimal; any other length raises.

  function InetNtoa(b: seq<byte>): (r: Result<string>)
    ensures r.Ok? <==> |b| == 4
  {
    if |b| != 4 then Raise(OSErrorFault)
    else Ok(DottedQuad(b[0], b[1], b[2], b[3]))
  }

  /** On four bytes inet_ntoa gives their dotted quad. */
  lemma InetNtoaQuad(b: seq<byte>)
    requires |b| == 4
    ensures InetNtoa(b) == Ok(DottedQuad(b[0], b[1], b[2], b[3]))
  {
  }

  /** The four bytes of an IPv4 address in decimal, joined by dots. */
  function DottedQuad(a: byte, b: byte, c: byte, d: byte): string
  {
    Decimal(a) + "." + Decimal(b) + "." + Decimal(c) + "." + Decimal(d)
  }

  // ---------------------------------------------------------------------
  // binascii.hexlify(...).decode() and the ':'-joined pairs the Ethernet
  // parser builds from it.

  const HEX_DIGITS: string := "0123456789abcdef"

  function HexDigit(n: nat): char
    requires n < 16
  {
    HEX_DIGITS[n]
  }

  function HexValue(c: char): nat
  {
    if '0' <= c <= '9' then (c as int - '0' as int) as nat
    else if 'a' <= c <= 'f' then (c as int - 'a' as int + 10) as nat
    else 0
  }

  lemma HexDigitValue(n: nat)
    requires n < 16
    ensures HexValue(HexDigit(n)) == n
  {
  }

  function Hexlify(b: seq<byte>): (h: string)
    ensures |h| == 2 * |b|
  {
    if b == [] then "" else [HexDigit(b[0] / 16), HexDigit(b[0] % 16)] + Hexlify(b[1..])
  }

  lemma {:induction false} HexlifyAt(b: seq<byte>, k: nat)
    requires k < |b|
    ensures Hexlify(b)[2 * k] == HexDigit(b[k] / 16)
    ensures Hexlify(b)[2 * k + 1] == HexDigit(b[k] % 16)
  {
    if k > 0 {
      HexlifyAt(b[1..], k - 1);
    }
  }

  /** `[s[i:i+2] for i in range(0, len(s), 2)]`. */
  function Pairs(s: string): (ps: seq<string>)
    decreases |s|
  {
    if s == [] then [] else if |s| < 2 then [s] else [s[..2]] + Pairs(s[2..])
  }

  lemma {:induction false} PairsOfEven(s: string)
    requires |s| % 2 == 0
    ensures |Pairs(s)| == |s| / 2
    ensures forall k :: 0 <= k < |s| / 2 ==> Pairs(s)[k] == s[2 * k..2 * k + 2]
  {
    if s != [] {
      var t := s[2..];
      PairsOfEven(t);
      assert |t| / 2 == |s| / 2 - 1;
      assert Pairs(s) == [s[..2]] + Pairs(t);
      forall k | 0 <= k < |s| / 2
        ensures Pairs(s)[k] == s[2 * k..2 * k + 2]
      {
        if k > 0 {
          var j := k - 1;
          assert Pairs(s)[k] == Pairs(t)[j] == t[2 * j..2 * j + 2];
          assert t[2 * j..2 * j + 2] == s[2 * k..2 * k + 2];
        }
      }
    }
  }

  lemma {:induction false} JoinPairs(cs: seq<string>)
    requires |cs| > 0
    requires forall k :: 0 <= k < |cs| ==> |cs[k]| == 2
    ensures |Join(":", cs)| == 3 * |cs| - 1
    ensures forall k, j :: 0 <= k < |cs| && 0 <= j < 2 ==> Join(":", cs)[3 * k + j] == cs[k][j]
    ensures forall k :: 0 <= k < |cs| - 1 ==> Join(":", cs)[3 * k + 2] == ':'
  {
    if |cs| > 1 {
      JoinPairs(cs[1..]);
      var t := Join(":", cs[1..]);
      assert Join(":", cs) == cs[0] + ":" + t;
      forall k, j | 0 <= k < |cs| && 0 <= j < 2
        ensures Join(":", cs)[3 * k + j] == cs[k][j]
      {
        if k > 0 {
          assert Join(":", cs)[3 * k + j] == t[3 * (k - 1) + j];
          assert cs[k] == cs[1..][k - 1];
        }
      }
      forall k | 0 <= k < |cs| - 1
        ensures Join(":", cs)[3 * k + 2] == ':'
      {
        if k > 0 {
          assert Join(":", cs)[3 * k + 2] == t[3 * (k - 1) + 2];
        }
      }
    }
  }

  /** A MAC address the way the Ethernet parser prints it: "00:1a:2b:...". */
  function MacText(b: seq<byte>): string
  {
    Join(":", Pairs(Hexlify(b)))
  }

  /** Reads the six bytes back out of a 17-character MAC text. */
  function ParseMacText(t: string): seq<byte>
    requires |t| == 17
  {
    seq(6, k requires 0 <= k < 6 => HexValue(t[3 * k]) * 16 + HexValue(t[3 * k + 1]) as byte)
  }

  lemma MacTextShape(b: seq<byte>)
    requires |b| == 6
    ensures |MacText(b)| == 17
    ensures forall k :: 0 <= k < 6 ==> MacText(b)[3 * k] == HexDigit(b[k] / 16) && MacText(b)[3 * k + 1] == HexDigit(b[k] % 16)
    ensures forall k :: 0 <= k < 5 ==> MacText(b)[3 * k + 2] == ':'
  {
    var h := Hexlify(b);
    PairsOfEven(h);
    var cs := Pairs(h);
    JoinPairs(cs);
    forall k | 0 <= k < 6
      ensures MacText(b)[3 * k] == HexDigit(b[k] / 16) && MacText(b)[3 * k + 1] == HexDigit(b[k] % 16)
    {
      HexlifyAt(b, k);
      assert cs[k] == h[2 * k..2 * k + 2];
      assert MacText(b)[3 * k] == cs[k][0];
      assert MacText(b)[3 * k + 1] == cs[k][1];
    }
  }

  /** The MAC text of six bytes is 17 lowercase hex digits and colons, and reads back to those bytes. */
  lemma MacTextRoundTrip(b: seq<byte>)
    requires |b| == 6
    ensures |MacText(b)| == 17
    ensures ParseMacText(MacText(b)) == b
  {
    MacTextShape(b);
    var t := MacText(b);
    forall k | 0 <= k < 6
      ensures ParseMacText(t)[k] == b[k]
    {
      HexDigitValue(b[k] / 16);
      HexDigitValue(b[k] % 16);
    }
  }
}
