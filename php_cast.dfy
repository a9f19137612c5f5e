/**
 PHP's `(int)` cast of a string, as `setPort` applies it to the configured
 value: leading whitespace is skipped, an optional sign is read, then the
 longest run of decimal digits; whatever follows is ignored, and a string
 with no leading digits casts to 0.
 */
module PhpCast {
  import opened Octets

  /** The whitespace PHP allows before a numeric string: space, \t, \n, \v, \f, \r. */
  predicate IsSpace(b: byte) {
    b == 32 || 9 <= b <= 13
  }

  function SkipSpace(s: Bytes): (r: Bytes)
    ensures r == [] || !IsSpace(r[0])
    ensures AllNonDigits(s) ==> AllNonDigits(r)
  {
    if |s| > 0 && IsSpace(s[0]) then SkipSpace(s[1..]) else s
  }

  /** The length of the run of digits that starts `s`. */
  function DigitRun(s: Bytes): (n: nat)
    ensures n <= |s| && AllDigits(s[..n])
    ensures n < |s| ==> !IsDigit(s[n])
  {
    if |s| > 0 && IsDigit(s[0]) then 1 + DigitRun(s[1..]) else 0
  }

  /** The value of a string of decimal digits, most significant first. */
  function DigitsValue(d: Bytes): (v: nat)
    requires AllDigits(d)
  {
    if d == [] then 0
    else DigitsValue(d[..|d| - 1]) * 10 + (d[|d| - 1] - DIGIT_ZERO) as int
  }

  function IntCast(s: Bytes): (n: int)
    ensures AllNonDigits(s) ==> n == 0
  {
    SignedValue(SkipSpace(s))
  }

  /** The value of an optional sign followed by a digit run; 0 when there are no digits. */
  function SignedValue(t: Bytes): (n: int)
    ensures AllNonDigits(t) ==> n == 0
  {
    if |t| > 0 && (t[0] == MINUS || t[0] == PLUS) then
      var v: int := UnsignedValue(t[1..]);
      if t[0] == MINUS then -v else v
    else
      UnsignedValue(t)
  }

  function UnsignedValue(u: Bytes): (v: nat)
    ensures !(|u| > 0 && IsDigit(u[0])) ==> v == 0
  {
    DigitsValue(u[..DigitRun(u)])
  }

  predicate AllNonDigits(s: Bytes) {
    forall i | 0 <= i < |s| :: !IsDigit(s[i])
  }

  /** Decimal text of a natural number, without leading zeros. */
  function DecimalText(n: nat): (s: Bytes)
    ensures |s| > 0 && AllDigits(s)
  {
    if n < 10 then [DIGIT_ZERO + n as byte]
    else DecimalText(n / 10) + [DIGIT_ZERO + (n % 10) as byte]
  }

  /** Decimal text of an integer, with a minus sign when it is negative. */
  function IntText(n: int): (s: Bytes) {
    if n < 0 then [MINUS] + DecimalText(-n) else DecimalText(n)
  }

  lemma {:induction false} DecimalValue(n: nat)
    ensures DigitsValue(DecimalText(n)) == n
  {
    var s := DecimalText(n);
    if n >= 10 {
      DecimalValue(n / 10);
      assert s[..|s| - 1] == DecimalText(n / 10);
    }
  }

  lemma {:induction false} DigitRunOver(d: Bytes, rest: Bytes)
    requires AllDigits(d)
    requires rest == [] || !IsDigit(rest[0])
    ensures DigitRun(d + rest) == |d|
  {
    if d != [] {
      assert (d + rest)[1..] == d[1..] + rest;
      DigitRunOver(d[1..], rest);
    }
  }

  lemma {:induction false} SkipSpaceOver(ws: Bytes, t: Bytes)
    requires forall i | 0 <= i < |ws| :: IsSpace(ws[i])
    requires t != [] && !IsSpace(t[0])
    ensures SkipSpace(ws + t) == t
  {
    if ws != [] {
      assert (ws + t)[1..] == ws[1..] + t;
      SkipSpaceOver(ws[1..], t);
    }
  }

  /** The digit run of decimal text followed by a non-digit is the text's value. */
  lemma {:induction false} ReadDecimal(n: nat, rest: Bytes)
    requires rest == [] || !IsDigit(rest[0])
    ensures UnsignedValue(DecimalText(n) + rest) == n
  {
    var digits := DecimalText(n);
    DecimalValue(n);
    DigitRunOver(digits, rest);
    assert (digits + rest)[..|digits|] == digits;
  }

  /** The signed reading of an integer's decimal text, followed by a non-digit, is that integer. */
  lemma {:induction false} ReadSigned(n: int, rest: Bytes)
    requires rest == [] || !IsDigit(rest[0])
    ensures SignedValue(IntText(n) + rest) == n
  {
    var t := IntText(n) + rest;
    if n < 0 {
      var digits := DecimalText(-n);
      assert t == [MINUS] + (digits + rest);
      assert t[1..] == digits + rest;
      ReadDecimal(-n, rest);
      assert SignedValue(t) + UnsignedValue(digits + rest) == 0;
    } else {
      assert t == DecimalText(n) + rest;
      assert IsDigit(t[0]);
      ReadDecimal(n, rest);
    }
  }

  /**
   Casting a leading-numeric string recovers its number: whitespace before the
   decimal text of `n` is skipped and anything after it that does not go on
   with a digit is ignored. With `ws` and `rest` empty this is the round trip
   IntCast(IntText(n)) == n.
   */
  lemma {:induction false} CastLeadingNumber(ws: Bytes, n: int, rest: Bytes)
    requires forall i | 0 <= i < |ws| :: IsSpace(ws[i])
    requires rest == [] || !IsDigit(rest[0])
    ensures IntCast(ws + IntText(n) + rest) == n
  {
    var t := IntText(n) + rest;
    assert ws + IntText(n) + rest == ws + t;
    assert t[0] == MINUS || IsDigit(t[0]);
    SkipSpaceOver(ws, t);
    ReadSigned(n, rest);
  }
}
