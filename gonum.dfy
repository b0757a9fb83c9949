/** Go's fixed-width integers and the decimal conversions of package strconv
    that the programs use: ParseUint(s, 10, 64), ParseInt(s, 10, 64),
    FormatInt(n, 10) and Itoa. */
module GoNum {
  import opened Wrappers

  const TwoTo63: int := 0x8000_0000_0000_0000
  const TwoTo64: int := 0x1_0000_0000_0000_0000

  type int64 = x: int | -0x8000_0000_0000_0000 <= x < 0x8000_0000_0000_0000
  type uint64 = x: int | 0 <= x < 0x1_0000_0000_0000_0000

  /** Two's-complement wrap-around of a mathematical integer into int64. */
  function Wrap64(x: int): (r: int64)
    ensures -TwoTo63 <= x < TwoTo63 ==> r == x
    ensures (x - r) % TwoTo64 == 0
  {
    var m := (x + TwoTo63) % TwoTo64;
    m - TwoTo63
  }

  /** Saturation into int64, as Go's time.Time.Sub does for Durations. */
  function Clamp64(x: int): (r: int64)
    ensures -TwoTo63 <= x < TwoTo63 ==> r == x
    ensures x >= TwoTo63 ==> r == TwoTo63 - 1
    ensures x < -TwoTo63 ==> r == -TwoTo63
  {
    if x >= TwoTo63 then TwoTo63 - 1 else if x < -TwoTo63 then -TwoTo63 else x
  }

  /** Go's integer division, which truncates toward zero. */
  function TruncDiv(a: int, b: int): (q: int)
    requires b != 0
    ensures a >= 0 && b > 0 ==> q == a / b
    ensures (a >= 0) == (b > 0) || a == 0 ==> q >= 0
    ensures (a > 0 && b < 0) || (a < 0 && b > 0) ==> q <= 0
  {
    var n := if a < 0 then -a else a;
    var d := if b < 0 then -b else b;
    if (a < 0) == (b < 0) then n / d else -(n / d)
  }

  predicate IsDigit(c: char) { '0' <= c <= '9' }

  /** A non-empty string of ASCII decimal digits (no sign, no underscore). */
  predicate IsDigits(s: string) {
    |s| > 0 && forall i :: 0 <= i < |s| ==> IsDigit(s[i])
  }

  function DigitValue(c: char): (d: nat)
    requires IsDigit(c)
    ensures d < 10
  {
    (c as int) - ('0' as int)
  }

  function DigitChar(d: nat): (c: char)
    requires d < 10
    ensures IsDigit(c) && DigitValue(c) == d
  {
    "0123456789"[d]
  }

  /** The value of a string of decimal digits, most significant first. */
  function DigitsValue(s: string): nat
    requires forall i :: 0 <= i < |s| ==> IsDigit(s[i])
  {
    if s == [] then 0
    else DigitsValue(s[..|s| - 1]) * 10 + DigitValue(s[|s| - 1])
  }

  /** strconv.ParseUint(s, 10, 64): digits only, non-empty, below 2^64. */
  function ParseUint(s: string): (r: Option<uint64>)
    ensures r.Some? <==> IsDigits(s) && DigitsValue(s) < TwoTo64
    ensures r.Some? ==> r.value == DigitsValue(s)
  {
    if IsDigits(s) && DigitsValue(s) < TwoTo64 then Some(DigitsValue(s)) else None
  }

  /** strconv.ParseInt(s, 10, 64): an optional leading '+' or '-', then what
      ParseUint accepts, within [-2^63, 2^63 - 1]. */
  function ParseInt(s: string): (r: Option<int64>)
    ensures s == [] ==> r.None?
    ensures r.Some? && s[0] != '-' && s[0] != '+' ==> IsDigits(s) && r.value == DigitsValue(s)
  {
    if s == [] then None
    else
      var neg := s[0] == '-';
      var body := if s[0] == '-' || s[0] == '+' then s[1..] else s;
      match ParseUint(body)
      case None => None
      case Some(u) =>
        if !neg && u >= TwoTo63 then None
        else if neg && u > TwoTo63 then None
        else
          var v: int64 := if neg then -(u as int) else u as int;
          Some(v)
  }

  /** Decimal digits of a natural number, without leading zeros. */
  function FormatNat(n: nat): (s: string)
    ensures IsDigits(s)
    decreases n
  {
    if n < 10 then [DigitChar(n)] else FormatNat(n / 10) + [DigitChar(n % 10)]
  }

  /** strconv.FormatInt(n, 10), also strconv.Itoa. */
  function FormatInt(n: int): (s: string)
    ensures |s| > 0
    ensures n >= 0 ==> IsDigits(s)
    ensures n < 0 ==> s[0] == '-' && IsDigits(s[1..])
  {
    if n < 0 then "-" + FormatNat(-n) else FormatNat(n)
  }

  lemma {:induction false} DigitsValueOfFormat(n: nat)
    ensures DigitsValue(FormatNat(n)) == n
    decreases n
  {
    var s := FormatNat(n);
    if n < 10 {
      assert s == [DigitChar(n)];
      assert s[..0] == [];
    } else {
      DigitsValueOfFormat(n / 10);
      assert s[..|s| - 1] == FormatNat(n / 10);
      assert s[|s| - 1] == DigitChar(n % 10);
    }
  }

  /** The decimal text written for a latency or a count parses back to it. */
  lemma ParseUintOfFormat(n: uint64)
    ensures ParseUint(FormatNat(n)) == Some(n)
  {
    DigitsValueOfFormat(n);
  }

  lemma ParseIntOfFormat(n: int64)
    ensures ParseInt(FormatInt(n)) == Some(n)
  {
    var s := FormatInt(n);
    if n < 0 {
      var body := FormatNat(-(n as int));
      assert s == "-" + body;
      assert s[1..] == body;
      ParseUintOfFormat(-(n as int));
    } else {
      assert s == FormatNat(n);
      assert IsDigit(s[0]);
      ParseUintOfFormat(n);
    }
  }
}
