/**
 * Shared vocabulary of the proxy: bytes, byte-string helpers, the method
 * search loop, substring search, the closed-connection error filter and the
 * decimal conversions used for ports (fmt "%d" and strconv.Atoi).
 */
module Wire {

  /** An octet as it travels on a TCP stream. */
  type byte = x: int | 0 <= x < 256

  /** SOCKS protocol version 5 (section 3 of RFC 1928). */
  const Socks5Version: byte := 5

  datatype Option<T> = None | Some(value: T)

  datatype Result<T, E> = Ok(value: T) | Err(error: E)

  /** The bytes of a literal text. Every literal used here is ASCII, so the
      reduction modulo 256 never changes a character. */
  function Ascii(s: string): (b: seq<byte>)
  {
    seq(|s|, i requires 0 <= i < |s| => (s[i] as int) % 256)
  }

  // ---------------------------------------------------------------------
  // contains(arr, val): the linear search over the offered methods

  /** Reports whether `val` occurs in `arr`, scanning left to right and
      stopping at the first hit. */
  method Contains(arr: seq<byte>, val: byte) returns (found: bool)
    ensures found <==> val in arr
    ensures found <==> exists i :: 0 <= i < |arr| && arr[i] == val
  {
    for i := 0 to |arr|
      invariant val !in arr[..i]
    {
      if arr[i] == val {
        assert arr[i] in arr;
        return true;
      }
      assert arr[..i + 1] == arr[..i] + [arr[i]];
    }
    assert arr[..|arr|] == arr;
    return false;
  }

  // ---------------------------------------------------------------------
  // strings.Contains: substring search

  /** `needle` occurs in `hay` starting at index `i`. */
  predicate OccursAt<T(==)>(needle: seq<T>, hay: seq<T>, i: nat)
  {
    i + |needle| <= |hay| && hay[i..i + |needle|] == needle
  }

  /** strings.Contains(hay, needle). */
  function HasSubstring<T(==)>(hay: seq<T>, needle: seq<T>): (b: bool)
    ensures b <==> exists i: nat :: OccursAt(needle, hay, i)
    decreases |hay|
  {
    if |needle| > |hay| then
      assert forall i: nat :: !OccursAt(needle, hay, i);
      false
    else if hay[..|needle|] == needle then
      assert OccursAt(needle, hay, 0);
      true
    else
      var rest := HasSubstring(hay[1..], needle);
      assert forall i: nat :: OccursAt(needle, hay[1..], i) <==> OccursAt(needle, hay, i + 1) by {
        forall i: nat ensures OccursAt(needle, hay[1..], i) <==> OccursAt(needle, hay, i + 1) {
          if i + |needle| <= |hay[1..]| {
            assert hay[1..][i..i + |needle|] == hay[i + 1..i + 1 + |needle|];
          }
        }
      }
      assert forall i: nat :: OccursAt(needle, hay, i) ==> i > 0;
      assert rest <==> exists i: nat :: OccursAt(needle, hay, i) by {
        if rest {
          var j: nat :| OccursAt(needle, hay[1..], j);
          assert OccursAt(needle, hay, j + 1);
        }
        if exists i: nat :: OccursAt(needle, hay, i) {
          var j: nat :| OccursAt(needle, hay, j);
          assert OccursAt(needle, hay[1..], j - 1);
        }
      }
      rest
  }

  /** strings.HasPrefix(s, prefix). */
  predicate HasPrefix<T(==)>(s: seq<T>, prefix: seq<T>)
  {
    |prefix| <= |s| && s[..|prefix|] == prefix
  }

  // ---------------------------------------------------------------------
  // isConnectionClosed(err)

  /** The error texts that mark a connection the peer has already closed. */
  const ClosedMessages: seq<string> := [
    "use of closed network connection",
    "connection reset by peer",
    "broken pipe",
    "connection refused",
    "i/o timeout"
  ]

  /** isConnectionClosed: a nil error (None) is never a closed connection;
      otherwise the error text must contain one of ClosedMessages. */
  function IsConnectionClosed(err: Option<string>): (closed: bool)
    ensures err.None? ==> !closed
    ensures closed <==> err.Some? && exists k :: 0 <= k < |ClosedMessages| && HasSubstring(err.value, ClosedMessages[k])
  {
    match err
    case None => false
    case Some(msg) =>
      var hit :=
        HasSubstring(msg, ClosedMessages[0]) ||
        HasSubstring(msg, ClosedMessages[1]) ||
        HasSubstring(msg, ClosedMessages[2]) ||
        HasSubstring(msg, ClosedMessages[3]) ||
        HasSubstring(msg, ClosedMessages[4]);
      assert hit <==> exists k :: 0 <= k < |ClosedMessages| && HasSubstring(msg, ClosedMessages[k]) by {
        if exists k :: 0 <= k < |ClosedMessages| && HasSubstring(msg, ClosedMessages[k]) {
          var k :| 0 <= k < |ClosedMessages| && HasSubstring(msg, ClosedMessages[k]);
          assert k == 0 || k == 1 || k == 2 || k == 3 || k == 4;
        }
      }
      hit
  }

  // ---------------------------------------------------------------------
  // Decimal text: fmt.Sprintf("%d", n) and strconv.Atoi

  predicate IsDigit(c: byte) { '0' as int <= c <= '9' as int }

  predicate AllDigits(s: seq<byte>) { forall i :: 0 <= i < |s| ==> IsDigit(s[i]) }

  /** fmt.Sprintf("%d", n) for a non-negative n, as ASCII bytes. */
  function Decimal(n: nat): (s: seq<byte>)
    decreases n
  {
    if n < 10 then ['0' as int + n] else Decimal(n / 10) + ['0' as int + n % 10]
  }

  /** The value of a string of decimal digits. */
  function DigitsValue(s: seq<byte>): nat
    requires AllDigits(s)
    decreases |s|
  {
    if s == [] then 0 else DigitsValue(s[..|s| - 1]) * 10 + (s[|s| - 1] - '0' as int)
  }

  /** Decimal yields a non-empty string of digits whose value is n, without a
      leading zero unless n is zero. */
  lemma {:induction false} DecimalDigits(n: nat)
    ensures 0 < |Decimal(n)| && AllDigits(Decimal(n))
    ensures DigitsValue(Decimal(n)) == n
    ensures Decimal(n)[0] == '0' as int ==> n == 0
    decreases n
  {
    if n >= 10 {
      DecimalDigits(n / 10);
      var s := Decimal(n);
      assert s[..|s| - 1] == Decimal(n / 10);
    }
  }

  /** A decimal rendering has at most k digits when n < 10^k. */
  lemma {:induction false} DecimalLength(n: nat, k: nat, bound: nat)
    requires k >= 1 && bound == Pow10(k) && n < bound
    ensures |Decimal(n)| <= k
    decreases n
  {
    if n >= 10 {
      assert k != 1 by { assert Pow10(1) == 10; }
      assert Pow10(k) == 10 * Pow10(k - 1);
      DecimalLength(n / 10, k - 1, Pow10(k - 1));
    }
  }

  function Pow10(k: nat): nat
  {
    if k == 0 then 1 else 10 * Pow10(k - 1)
  }

  const MaxInt64: int := 0x7fff_ffff_ffff_ffff
  const MinInt64: int := -0x8000_0000_0000_0000
  const MaxUint64: int := 0xffff_ffff_ffff_ffff

  /** What ParseUint in base 10 finds in a string: a value, a syntax error
      (it returns 0) or a value past 2^64 - 1 (it stops scanning there). */
  datatype UintScan = Value(n: nat) | SyntaxError | RangeError

  /** ParseUint(s, 10, 64): digits are scanned left to right; a non-digit is a
      syntax error, and a prefix whose value exceeds 2^64 - 1 is a range
      error even if a non-digit follows it. */
  function ScanUint(s: seq<byte>): (r: UintScan)
  {
    if s == [] then SyntaxError else ScanUintFrom(s, 0, 0)
  }

  function ScanUintFrom(s: seq<byte>, i: nat, acc: nat): UintScan
    requires i <= |s|
    decreases |s| - i
  {
    if i == |s| then Value(acc)
    else if !IsDigit(s[i]) then SyntaxError
    else if acc * 10 + (s[i] - '0' as int) > MaxUint64 then RangeError
    else ScanUintFrom(s, i + 1, acc * 10 + (s[i] - '0' as int))
  }

  /** strconv.Atoi(s) on a 64-bit platform, keeping only the value (the
      socks5 dialer discards the error, so a syntax error yields 0 and an
      out-of-range number the clamped bound). */
  function Atoi(s: seq<byte>): int
  {
    if s == [] then 0
    else if |s| < 19 then
      // fast path
      var neg := s[0] == '-' as int;
      var body := if s[0] == '-' as int || s[0] == '+' as int then s[1..] else s;
      if body == [] || !AllDigits(body) then 0
      else
        var v: int := DigitsValue(body);
        if neg then -v else v
    else
      // slow path through ParseInt
      var neg := s[0] == '-' as int;
      var body := if s[0] == '-' as int || s[0] == '+' as int then s[1..] else s;
      match ScanUint(body)
      case SyntaxError => 0
      case RangeError => if neg then MinInt64 else MaxInt64
      case Value(u) =>
        if !neg && u > MaxInt64 then MaxInt64
        else if neg && u > -MinInt64 then MinInt64
        else
          var v: int := u;
          if neg then -v else v
  }

  /** Rendering a number in decimal and parsing it back gives the number, for
      every value below 10^18 (ports in particular). */
  lemma AtoiDecimal(n: nat)
    requires n < 1_000_000_000_000_000_000
    ensures Atoi(Decimal(n)) == n
  {
    DecimalDigits(n);
    assert Pow10(6) == 1_000_000;
    assert Pow10(12) == 1_000_000_000_000;
    assert Pow10(18) == 1_000_000_000_000_000_000;
    DecimalLength(n, 18, Pow10(18));
  }

  /** Atoi of text that is not a number is 0. */
  lemma AtoiNonNumeric(s: seq<byte>)
    requires 0 < |s| < 19 && s[0] != '-' as int && s[0] != '+' as int && !AllDigits(s)
    ensures Atoi(s) == 0
  {
  }

  // ---------------------------------------------------------------------
  // Ports on the wire: two bytes, most significant first

  /** byte(port >> 8), byte(port & 0xff) for a Go int: an arithmetic shift is
      floor division by 256 and a byte conversion keeps the low eight bits. */
  function PortBytes(port: int): (b: seq<byte>)
    ensures |b| == 2
    ensures 0 <= port < 65536 ==> b[0] as int * 256 + b[1] as int == port
  {
    [(port / 256) % 256, port % 256]
  }

  /** The two bytes of any Go int carry its low 16 bits. */
  lemma PortBytesLow16(port: int)
    ensures PortBytes(port)[0] as int * 256 + PortBytes(port)[1] as int == port % 65536
  {
    var q := port / 256;
    var k := q / 256;
    var r := (q % 256) * 256 + port % 256;
    assert port == q * 256 + port % 256;
    assert q == k * 256 + q % 256;
    assert port == k * 65536 + r;
    assert 0 <= r < 65536;
    ModOfDecomposition(port, k, r);
  }

  /** x mod 2^16 is r when x = k * 2^16 + r with r in range. */
  lemma ModOfDecomposition(x: int, k: int, r: int)
    requires x == k * 65536 + r && 0 <= r < 65536
    ensures x % 65536 == r
  {
    var t := k - x / 65536;
    assert t * 65536 == x % 65536 - r;
    ScaledBounds(t);
  }

  /** A non-zero multiple of 2^16 is at least 2^16 away from zero. */
  lemma ScaledBounds(t: int)
    ensures t >= 1 ==> t * 65536 >= 65536
    ensures t <= -1 ==> t * 65536 <= -65536
  {
  }

  /** (b0 << 8) | b1 for two bytes. */
  function PortValue(b0: byte, b1: byte): (port: nat)
    ensures port < 65536
    ensures PortBytes(port) == [b0, b1]
  {
    b0 as int * 256 + b1 as int
  }
}
