// Shared vocabulary of the NativeProbe model: optional values, results that
// carry the Python exception a call would raise, decimal text, joining, and the
// life cycle of a background worker thread.

module Common {

  datatype Option<T> = None | Some(value: T)
  {
    function GetOr(default: T): T
    {
      if Some? then value else default
    }
  }

  /** The Python exceptions the modelled code raises (and usually catches). */
  datatype Fault =
    | StructError      // struct.error: buffer length differs from calcsize(fmt)
    | IndexErrorFault  // IndexError: subscript past the end of a bytes object
    | OSErrorFault     // OSError: socket.inet_ntoa given other than 4 bytes
    | TypeErrorFault   // TypeError: wrong argument count or operand type
    | ValueErrorFault  // ValueError: int() or float() given text that is not a number
    | ZeroDivision     // ZeroDivisionError
    | DatabaseError    // an error raised by the database session

  datatype Result<T> = Ok(value: T) | Raise(fault: Fault)
  {
    predicate IsFailure() { Raise? }

    function PropagateFailure<U>(): Result<U>
      requires Raise?
    {
      Raise(fault)
    }

    function Extract(): T
      requires Ok?
    {
      value
    }
  }

  /**
   * The JSON body a Flask route reads with `request.json`: an object; text that
   * does not parse, which Flask answers with 400 Bad Request; or a JSON value that
   * is not an object (`null`, an array, a string or a number), on which the route's
   * `.get` or `.items()` raises AttributeError, answered 500.
   */
  datatype Body<T> = JsonObject(fields: T) | Malformed | NotAnObject

  /** The status of a request whose body is not a JSON object. */
  function BodyErrorStatus<T>(body: Body<T>): (status: int)
    requires !body.JsonObject?
    ensures status == 400 <==> body.Malformed?
    ensures status == 500 <==> body.NotAnObject?
  {
    if body.Malformed? then 400 else 500
  }

  /** A JSON value read as text: a string, or `null` (None in Python). */
  datatype JsonText = JsonString(text: string) | JsonNull

  /** Timestamps are seconds on one clock; only their order and differences matter. */
  type Time = int

  const SECONDS_PER_HOUR: int := 3600

  /** The state of a `threading.Thread` reference kept in a module global. */
  datatype ThreadState =
    | NoThread   // the global is None
    | Alive      // a started thread whose loop is still running
    | Stopped    // a Thread object whose is_alive() is False

  predicate IsAlive(t: ThreadState)
  {
    t == Alive
  }

  // ---------------------------------------------------------------------
  // Decimal text, as Python's str(int) / f"{n}" and JavaScript's String(n)
  // render an integer.

  function DigitChar(d: nat): char
    requires d < 10
  {
    "0123456789"[d]
  }

  function DigitValue(c: char): nat
  {
    if '0' <= c <= '9' then (c as int - '0' as int) as nat else 0
  }

  predicate IsDigit(c: char)
  {
    '0' <= c <= '9'
  }

  /** The digits of n, most significant first, without leading zeros. */
  function Digits(n: nat): (s: string)
    ensures |s| > 0
    ensures forall i :: 0 <= i < |s| ==> IsDigit(s[i])
  {
    if n < 10 then [DigitChar(n)] else Digits(n / 10) + [DigitChar(n % 10)]
  }

  function Decimal(n: int): string
  {
    if n < 0 then "-" + Digits(-n) else Digits(n)
  }

  function ParseDigits(s: string): nat
  {
    if s == [] then 0 else ParseDigits(s[..|s| - 1]) * 10 + DigitValue(s[|s| - 1])
  }

  /** Reads back an optional minus sign and digits. */
  function ParseDecimal(s: string): int
  {
    if |s| > 0 && s[0] == '-' then -(ParseDigits(s[1..]) as int) else ParseDigits(s)
  }

  lemma {:induction false} DigitsRoundTrip(n: nat)
    ensures ParseDigits(Digits(n)) == n
  {
    if n >= 10 {
      var s := Digits(n);
      assert s[..|s| - 1] == Digits(n / 10);
      DigitsRoundTrip(n / 10);
    }
  }

  /** Decimal text is an injective rendering: it can be read back. */
  lemma {:induction false} DecimalRoundTrip(n: int)
    ensures ParseDecimal(Decimal(n)) == n
  {
    var m: nat := if n < 0 then -n else n;
    var d := Digits(m);
    DigitsRoundTrip(m);
    var p := ParseDigits(d);
    assert p == m;
    if n < 0 {
      var s := "-" + d;
      assert s[0] == '-' && s[1..] == d;
      assert Decimal(n) == s;
      assert ParseDecimal(s) == -(p as int);
    } else {
      assert IsDigit(d[0]);
      assert Decimal(n) == d;
      assert ParseDecimal(d) == p;
    }
  }

  // ---------------------------------------------------------------------
  // Joining, as Python's `sep.join(parts)`.

  function Join(sep: string, parts: seq<string>): (r: string)
    ensures |parts| > 0 ==> |r| >= |parts[0]| && r[..|parts[0]|] == parts[0]
  {
    if parts == [] then ""
    else if |parts| == 1 then parts[0]
    else parts[0] + sep + Join(sep, parts[1..])
  }

  // ---------------------------------------------------------------------
  // ASCII case folding; see AnomalyRoutes for why it is enough for `lower()`.

  function LowerChar(c: char): char
  {
    if 'A' <= c <= 'Z' then (c as int + 32) as char else c
  }

  function Lower(s: string): (r: string)
    ensures |r| == |s|
    ensures forall i :: 0 <= i < |s| ==> r[i] == LowerChar(s[i])
  {
    if s == [] then [] else [LowerChar(s[0])] + Lower(s[1..])
  }

  lemma LowerIdempotent(s: string)
    ensures Lower(Lower(s)) == Lower(s)
  {
    assert forall i :: 0 <= i < |s| ==> LowerChar(LowerChar(s[i])) == LowerChar(s[i]);
  }

  // ---------------------------------------------------------------------
  // Bits of a non-negative integer: `(x & (1 << k)) != 0`.

  function Pow2(k: nat): (p: nat)
    ensures p > 0
  {
    if k == 0 then 1 else 2 * Pow2(k - 1)
  }

  predicate TestBit(x: nat, k: nat)
  {
    if k == 0 then x % 2 == 1 else TestBit(x / 2, k - 1)
  }

  /** Adding a multiple of 2^m leaves the bits below m alone: `x & mask` for masks below 2^m. */
  lemma {:induction false} HighBitsIgnored(x: nat, c: nat, m: nat, k: nat)
    requires k < m
    ensures TestBit(x + c * Pow2(m), k) == TestBit(x, k)
  {
    var y := c * Pow2(m - 1);
    assert c * Pow2(m) == 2 * y;
    if k > 0 {
      assert (x + 2 * y) / 2 == x / 2 + y;
      HighBitsIgnored(x / 2, c, m - 1, k - 1);
    }
  }

  /** `x & (2^m - 1)` keeps exactly the bits below m. */
  lemma {:induction false} LowBits(x: nat, m: nat, k: nat)
    requires k < m
    ensures TestBit(x % Pow2(m), k) == TestBit(x, k)
  {
    var p := Pow2(m);
    var q, r := DivMod(x, p);
    HighBitsIgnored(r, q, m, k);
  }

  /** A number below 2^k has no bit k. */
  lemma {:induction false} TestBitAbove(x: nat, k: nat)
    requires x < Pow2(k)
    ensures !TestBit(x, k)
  {
    if k > 0 {
      TestBitAbove(x / 2, k - 1);
    }
  }

  lemma DivMod(x: nat, p: nat) returns (q: nat, r: nat)
    requires p > 0
    ensures q == x / p && r == x % p && x == r + q * p
  {
    q := x / p;
    r := x % p;
  }

  /** The quotient and remainder are the only pair that splits `n` this way. */
  lemma DivModUnique(n: int, d: int, q: int, r: int)
    requires d > 0 && 0 <= r < d && n == q * d + r
    ensures n / d == q && n % d == r
  {
    var q', r' := n / d, n % d;
    assert n == q' * d + r';
    assert (q - q') * d == q * d - q' * d == r' - r;
    if q > q' {
      MulAtLeast(q - q', d);
    } else if q < q' {
      MulAtLeast(q' - q, d);
    }
  }

  lemma MulAtLeast(a: int, d: int)
    requires a >= 1 && d > 0
    ensures a * d >= d
  {
    assert a * d == (a - 1) * d + d;
  }

  // ---------------------------------------------------------------------
  // Slices of a concatenation.

  lemma SliceOfLeft<T>(x: seq<T>, y: seq<T>, lo: int, hi: int)
    requires 0 <= lo <= hi <= |x|
    ensures (x + y)[lo..hi] == x[lo..hi]
  {
    assert forall i :: 0 <= i < hi - lo ==> (x + y)[lo..hi][i] == x[lo + i];
  }

  lemma SliceOfSlice<T>(s: seq<T>, a: int, b: int, lo: int, hi: int)
    requires 0 <= a <= b <= |s| && 0 <= lo <= hi <= b - a
    ensures s[a..b][lo..hi] == s[a + lo..a + hi]
  {
    var t := s[a..b];
    forall i | 0 <= i < hi - lo
      ensures t[lo..hi][i] == s[a + lo..a + hi][i]
    {
      assert t[lo..hi][i] == t[lo + i] == s[a + lo + i];
    }
  }

  lemma SliceOfRight<T>(x: seq<T>, y: seq<T>)
    ensures (x + y)[|x|..|x| + |y|] == y
  {
    assert forall i :: 0 <= i < |y| ==> (x + y)[|x|..|x| + |y|][i] == y[i];
  }

  // ---------------------------------------------------------------------
  // Sums and counts over sequences.

  function SumOf(s: seq<int>): int
  {
    if s == [] then 0 else SumOf(s[..|s| - 1]) + s[|s| - 1]
  }

  lemma {:induction false} SumOfAppend(a: seq<int>, b: seq<int>)
    ensures SumOf(a + b) == SumOf(a) + SumOf(b)
  {
    if b != [] {
      assert (a + b)[..|a + b| - 1] == a + b[..|b| - 1];
      SumOfAppend(a, b[..|b| - 1]);
    } else {
      assert a + b == a;
    }
  }

  function Count<T(==)>(s: seq<T>, x: T): nat
  {
    if s == [] then 0 else Count(s[..|s| - 1], x) + (if s[|s| - 1] == x then 1 else 0)
  }
}
