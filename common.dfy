/**
  Shared vocabulary of the EVEMon model: nullable values, the .NET exceptions the core
  raises, 32- and 64-bit integers with wrap-around, clock ticks, and the text helpers of
  the .NET base library the core relies on (decimal rendering, char.IsWhiteSpace,
  String.Trim, String.Replace).
*/
module Common {

  /** A value that may be null: `None` stands for a null reference or an absent value. */
  datatype Option<+T> = None | Some(value: T) {
    function GetOr(default: T): T {
      match this
      case Some(v) => v
      case None => default
    }
  }

  /** The exceptions raised in the modelled code, with the parameter name or message. */
  datatype Exn =
    | ArgumentNull(param: string, message: string)
    | ArgumentOutOfRange(param: string)
    | DuplicateKey(key: string)          // ArgumentException from Dictionary.Add
    | InvalidOperation(message: string)
    | KeyNotFound(key: string)
    | NotImplemented
    | ObjectDisposed
    | IOFailure(message: string)         // System.IO.IOException
    | TimeoutFailure(message: string)    // System.TimeoutException
    | OperationCanceled(message: string) // System.OperationCanceledException
    | TaskCanceled(message: string)      // TaskCanceledException, an OperationCanceledException
    | JsonFailure(message: string)       // Newtonsoft.Json.JsonException
    | HttpRequestFailure(message: string)
    | NullReference

  /** The result of a member that either returns a value or throws. */
  datatype Outcome<+T> = Ok(value: T) | Throw(error: Exn)

  /** The message of an ArgumentNullException created without one. */
  const NULL_MESSAGE: string := "Value cannot be null."

  /** Constants.UNKNOWN_TEXT */
  const UNKNOWN_TEXT: string := "Unknown"

  const INT32_MIN: int := -0x8000_0000
  const INT32_MAX: int := 0x7fff_ffff
  const INT64_MIN: int := -0x8000_0000_0000_0000
  const INT64_MAX: int := 0x7fff_ffff_ffff_ffff
  const TWO_32: int := 0x1_0000_0000
  const TWO_64: int := 0x1_0000_0000_0000_0000

  /** System.Int32 */
  type int32 = x: int | INT32_MIN <= x <= INT32_MAX
  /** System.Int64 */
  type int64 = x: int | INT64_MIN <= x <= INT64_MAX

  /** The value C# unchecked 32-bit arithmetic leaves when the exact result is x. */
  function Wrap32(x: int): (r: int32)
    ensures INT32_MIN <= x <= INT32_MAX ==> r == x
  {
    (x - INT32_MIN) % TWO_32 + INT32_MIN
  }

  /** The one int congruent to x modulo 2^32 is Wrap32(x). */
  lemma WrapUnique(r: int32, x: int, k: int)
    requires r - x == k * TWO_32
    ensures Wrap32(x) == r
  {
    assert x - INT32_MIN == (r - INT32_MIN) + (-k) * TWO_32;
  }

  /** Wrap32 moves x by a whole multiple of 2^32. */
  lemma WrapMultiple(x: int) returns (k: int)
    ensures Wrap32(x) == x + k * TWO_32
  {
    k := -((x - INT32_MIN) / TWO_32);
  }

  function Pow2(k: nat): (p: nat)
    ensures p >= 1
  {
    if k == 0 then 1 else 2 * Pow2(k - 1)
  }

  /** Bitwise exclusive or of two numbers of at most `bits` bits. */
  function BitXor(a: nat, b: nat, bits: nat): (r: nat)
    requires a < Pow2(bits) && b < Pow2(bits)
    ensures r < Pow2(bits)
  {
    if bits == 0 then 0
    else 2 * BitXor(a / 2, b / 2, bits - 1) + (if a % 2 == b % 2 then 0 else 1)
  }

  lemma {:induction false} XorZero(a: nat, bits: nat)
    requires a < Pow2(bits)
    ensures BitXor(a, 0, bits) == a
  {
    if bits > 0 {
      XorZero(a / 2, bits - 1);
    }
  }

  lemma Pow2of32()
    ensures Pow2(32) == TWO_32
  {
    assert Pow2(8) == 0x100;
    assert Pow2(16) == 0x1_0000;
    assert Pow2(24) == 0x100_0000;
  }

  /** Int64.GetHashCode: the low 32 bits XOR the high 32 bits, read as a signed int. */
  function LongHash(v: int64): int32
  {
    Pow2of32();
    var x := BitXor(v % TWO_32, (v / TWO_32) % TWO_32, 32);
    if x > INT32_MAX then x - TWO_32 else x
  }

  /** A non-negative long that fits in 31 bits hashes to itself. */
  lemma LongHashOfSmall(v: int64)
    requires 0 <= v <= INT32_MAX
    ensures LongHash(v) == v
  {
    Pow2of32();
    assert v % TWO_32 == v;
    assert (v / TWO_32) % TWO_32 == 0;
    XorZero(v, 32);
  }

  /**
    Time as a count of 100-nanosecond ticks, the unit of System.DateTime and TimeSpan;
    tick 0 is DateTime.MinValue.
  */
  type Time = int
  const MIN_TIME: Time := 0
  const TICKS_PER_SECOND: int := 10_000_000

  // ---------------------------------------------------------------------------------
  // Decimal rendering of integers (Int32.ToString / the "D" format)

  function DigitChar(d: int): (c: char)
    requires 0 <= d < 10
    ensures '0' <= c <= '9' && c as int - '0' as int == d
  {
    ('0' as int + d) as char
  }

  predicate IsDigit(c: char) {
    '0' <= c <= '9'
  }

  predicate AllDigits(s: string) {
    forall i :: 0 <= i < |s| ==> IsDigit(s[i])
  }

  /** The number a string of decimal digits denotes (each character counts as its offset from '0'). */
  function DigitsValue(s: string): int {
    if s == [] then 0
    else DigitsValue(s[..|s| - 1]) * 10 + (s[|s| - 1] as int - '0' as int)
  }

  /** The decimal digits of n, without leading zeros. */
  function NatToDecimal(n: nat): (s: string)
    ensures |s| >= 1 && AllDigits(s)
    ensures s[0] == '0' ==> n == 0
  {
    if n < 10 then [DigitChar(n)] else NatToDecimal(n / 10) + [DigitChar(n % 10)]
  }

  /** The invariant-culture rendering of an integer: an optional '-' then its digits. */
  function IntToDecimal(n: int): string {
    if n < 0 then "-" + NatToDecimal(-n) else NatToDecimal(n)
  }

  /** Reading back the digits of n gives n. */
  lemma {:induction false} DecimalRoundTrip(n: nat)
    ensures DigitsValue(NatToDecimal(n)) == n
  {
    if n >= 10 {
      DecimalRoundTrip(n / 10);
      var s := NatToDecimal(n);
      assert s[..|s| - 1] == NatToDecimal(n / 10);
    }
  }

  // ---------------------------------------------------------------------------------
  // Whitespace, Trim and character replacement

  /** char.IsWhiteSpace: the Unicode space separators plus the line and paragraph separators and the controls 9-13, 0x85. */
  predicate IsWhiteSpace(c: char) {
    || '\U{9}' <= c <= '\U{D}' || c == ' ' || c == '\U{85}' || c == '\U{A0}' || c == '\U{1680}'
    || '\U{2000}' <= c <= '\U{200A}'
    || c == '\U{2028}' || c == '\U{2029}' || c == '\U{202F}' || c == '\U{205F}' || c == '\U{3000}'
  }

  /** string.IsNullOrWhiteSpace */
  predicate IsNullOrWhiteSpace(s: Option<string>) {
    s.None? || forall i :: 0 <= i < |s.value| ==> IsWhiteSpace(s.value[i])
  }

  /** String.TrimStart(): s without its leading white space. */
  function TrimStart(s: string): string {
    if s != [] && IsWhiteSpace(s[0]) then TrimStart(s[1..]) else s
  }

  /** String.TrimEnd(): s without its trailing white space. */
  function TrimEnd(s: string): string {
    if s != [] && IsWhiteSpace(s[|s| - 1]) then TrimEnd(s[..|s| - 1]) else s
  }

  /** String.Trim(): white space removed from both ends. */
  function Trim(s: string): string {
    TrimEnd(TrimStart(s))
  }

  /** TrimStart removes exactly the leading white space: a suffix of s, preceded only by white space and not starting with it. */
  lemma {:induction false} TrimStartSuffix(s: string)
    ensures |TrimStart(s)| <= |s| && TrimStart(s) == s[|s| - |TrimStart(s)|..]
    ensures TrimStart(s) != [] ==> !IsWhiteSpace(TrimStart(s)[0])
    ensures forall i :: 0 <= i < |s| - |TrimStart(s)| ==> IsWhiteSpace(s[i])
  {
    if s != [] && IsWhiteSpace(s[0]) {
      var t := s[1..];
      TrimStartSuffix(t);
      var r := TrimStart(t);
      assert TrimStart(s) == r;
      assert t[|t| - |r|..] == s[|s| - |r|..];
      forall i | 0 <= i < |s| - |r| ensures IsWhiteSpace(s[i]) {
        if i > 0 {
          assert s[i] == t[i - 1];
        }
      }
    }
  }

  /** TrimEnd removes exactly the trailing white space: a prefix of s, followed only by white space and not ending with it. */
  lemma {:induction false} TrimEndPrefix(s: string)
    ensures |TrimEnd(s)| <= |s| && TrimEnd(s) == s[..|TrimEnd(s)|]
    ensures TrimEnd(s) != [] ==> !IsWhiteSpace(TrimEnd(s)[|TrimEnd(s)| - 1])
    ensures forall i :: |TrimEnd(s)| <= i < |s| ==> IsWhiteSpace(s[i])
  {
    if s != [] && IsWhiteSpace(s[|s| - 1]) {
      var t := s[..|s| - 1];
      TrimEndPrefix(t);
      var r := TrimEnd(t);
      assert TrimEnd(s) == r;
      assert t[..|r|] == s[..|r|];
      forall i | |r| <= i < |s| ensures IsWhiteSpace(s[i]) {
        if i < |t| {
          assert s[i] == t[i];
        }
      }
    }
  }

  /**
    Trim gives the slice of s between its leading and its trailing white space: it neither
    starts nor ends with white space, and everything cut off is white space.
  */
  lemma TrimSlice(s: string)
    ensures exists a, b :: (0 <= a <= b <= |s| && Trim(s) == s[a..b] &&
      (forall i :: 0 <= i < a ==> IsWhiteSpace(s[i])) && (forall i :: b <= i < |s| ==> IsWhiteSpace(s[i])))
    ensures Trim(s) != [] ==> !IsWhiteSpace(Trim(s)[0]) && !IsWhiteSpace(Trim(s)[|Trim(s)| - 1])
  {
    var t := TrimStart(s);
    TrimStartSuffix(s);
    TrimEndPrefix(t);
    var r := TrimEnd(t);
    var a := |s| - |t|;
    var b := a + |r|;
    assert r == s[a..b];
    forall i | b <= i < |s| ensures IsWhiteSpace(s[i]) {
      assert s[i] == t[i - a];
    }
    if r != [] {
      assert r[0] == t[0];
    }
  }

  /** String.Replace(char, char) */
  function ReplaceChar(s: string, from: char, to: char): (r: string)
    ensures |r| == |s|
  {
    if s == [] then [] else ReplaceChar(s[..|s| - 1], from, to) + [if s[|s| - 1] == from then to else s[|s| - 1]]
  }

  /** ReplaceChar maps each character on its own: from becomes to, everything else is kept. */
  lemma {:induction false} ReplaceCharSpec(s: string, from: char, to: char)
    ensures forall i :: 0 <= i < |s| ==> ReplaceChar(s, from, to)[i] == (if s[i] == from then to else s[i])
  {
    if s != [] {
      ReplaceCharSpec(s[..|s| - 1], from, to);
    }
  }

  /** String.Replace(c, "") for a one-character string c: every occurrence of c removed. */
  function RemoveChar(s: string, c: char): string {
    if s == [] then []
    else
      var init := RemoveChar(s[..|s| - 1], c);
      if s[|s| - 1] == c then init else init + [s[|s| - 1]]
  }

  /** RemoveChar keeps every other character and drops each occurrence of c. */
  lemma {:induction false} RemoveCharSpec(s: string, c: char)
    ensures c !in RemoveChar(s, c)
    ensures forall x :: x in RemoveChar(s, c) <==> x in s && x != c
    ensures |RemoveChar(s, c)| == |s| - multiset(s)[c]
  {
    if s != [] {
      var t := s[..|s| - 1];
      RemoveCharSpec(t, c);
      assert s == t + [s[|s| - 1]];
    }
  }

  /** The elements of xs separated by sep (string.Join). */
  function Join(xs: seq<string>, sep: string): string {
    if xs == [] then ""
    else if |xs| == 1 then xs[0]
    else Join(xs[..|xs| - 1], sep) + sep + xs[|xs| - 1]
  }
}
