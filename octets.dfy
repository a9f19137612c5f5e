/**
 PHP strings are byte strings: `strlen` counts bytes and `substr` cuts at byte
 offsets. This module gives the rest of the model a byte type and the few byte
 values the appender and PHP's integer cast look at.
 */
module Octets {

  newtype byte = b: int | 0 <= b < 256

  type Bytes = seq<byte>

  /** The NUL byte that terminates every GELF TCP frame. */
  const NUL: byte := 0

  const PLUS: byte := 43
  const MINUS: byte := 45
  const DIGIT_ZERO: byte := 48

  /** The bytes of an ASCII literal of the source, such as '1.1' or '...'. */
  function Ascii(s: string): (r: Bytes)
    ensures |r| == |s|
  {
    seq(|s|, i requires 0 <= i < |s| => (s[i] as int % 256) as byte)
  }

  predicate IsDigit(b: byte) {
    DIGIT_ZERO <= b <= DIGIT_ZERO + 9
  }

  predicate AllDigits(s: Bytes) {
    forall i | 0 <= i < |s| :: IsDigit(s[i])
  }

  predicate NoNul(s: Bytes) {
    forall i | 0 <= i < |s| :: s[i] != NUL
  }
}
