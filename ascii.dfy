/** The ASCII digits, as the solvers read them from their `&str` input. */
module Ascii {
  /** `char::is_ascii_digit`. */
  predicate IsAsciiDigit(c: char) {
    '0' <= c <= '9'
  }

  /** `c as u32 - '0' as u32` for an ASCII digit: the digit's value. */
  function DigitValue(c: char): (d: nat)
    requires IsAsciiDigit(c)
    ensures d <= 9
  {
    c as nat - '0' as nat
  }
}
