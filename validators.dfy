/** The field validators the routes declare, over a JSON body field that may be
    missing (None). A missing field is validated as the empty string. */
module Validators {
  import opened Wrappers

  /** notEmpty(): present and not "". */
  predicate NotEmpty(v: Option<string>) {
    v.Some? && v.value != ""
  }

  /** isLength({min: n}): at least `n` characters ("" when missing). */
  predicate MinLength(v: Option<string>, n: nat) {
    v.Some? && |v.value| >= n
  }

  predicate IsDigit(c: char) {
    '0' <= c <= '9'
  }

  function DigitValue(c: char): int
    requires IsDigit(c)
  {
    c as int - '0' as int
  }

  /** A calendar date written YYYY-MM-DD with month 01..12 and day 01..31. */
  predicate IsCalendarDate(s: string) {
    && |s| == 10
    && IsDigit(s[0]) && IsDigit(s[1]) && IsDigit(s[2]) && IsDigit(s[3])
    && s[4] == '-'
    && IsDigit(s[5]) && IsDigit(s[6])
    && s[7] == '-'
    && IsDigit(s[8]) && IsDigit(s[9])
    && 1 <= DigitValue(s[5]) * 10 + DigitValue(s[6]) <= 12
    && 1 <= DigitValue(s[8]) * 10 + DigitValue(s[9]) <= 31
  }

  /** isISO8601(), restricted to the calendar-date form. */
  predicate IsIso8601(v: Option<string>) {
    v.Some? && IsCalendarDate(v.value)
  }

  /** A local part and a domain separated by the only '@'; the domain has an
      inner '.'; no spaces. */
  predicate IsEmailText(s: string) {
    exists i | 0 < i < |s| ::
      && s[i] == '@'
      && '@' !in s[..i] && '@' !in s[i + 1..]
      && ' ' !in s
      && exists j | i + 1 < j < |s| - 1 :: s[j] == '.'
  }

  /** isEmail(). */
  predicate IsEmail(v: Option<string>) {
    v.Some? && IsEmailText(v.value)
  }
}
