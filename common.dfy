/** A value that may be missing: JavaScript's `null`/`undefined` next to a real value. */
module Wrappers {
  datatype Option<+T> = None | Some(value: T)
}

/** The few JavaScript string operations the dashboard and its worker rely on. */
module Strings {

  /** `s.startsWith(prefix)`. */
  predicate StartsWith(s: string, prefix: string) {
    |prefix| <= |s| && s[..|prefix|] == prefix
  }

  /** `part` occurs in `s` starting at position `i`. */
  predicate OccursAt(s: string, part: string, i: nat) {
    i + |part| <= |s| && s[i..i + |part|] == part
  }

  /** `s.includes(part)`: `part` occurs somewhere in `s`. */
  predicate Contains(s: string, part: string) {
    exists i: nat | i <= |s| :: OccursAt(s, part, i)
  }

  predicate IsDigit(c: char) {
    '0' <= c <= '9'
  }

  function DigitValue(c: char): (d: int)
    requires IsDigit(c)
    ensures 0 <= d <= 9
  {
    c as int - '0' as int
  }

  /** `Number(s.slice(i, i + 2))` for two decimal digits. */
  function TwoDigits(s: string, i: nat): (n: int)
    requires i + 2 <= |s| && IsDigit(s[i]) && IsDigit(s[i + 1])
    ensures 0 <= n <= 99
    ensures n % 10 == DigitValue(s[i + 1]) && n / 10 == DigitValue(s[i])
  {
    10 * DigitValue(s[i]) + DigitValue(s[i + 1])
  }
}
