/** Values shared by every part of the farm record store: optional values,
    calendar days, and the JavaScript truthiness that the `||` defaults of
    the source rely on. */
module Common {

  /** `None` stands for JavaScript's `undefined` or `null` (and, for a
      date, the empty string or an unparseable one). */
  datatype Option<T> = None | Some(value: T)

  /** A calendar day, stored by the source as a 'YYYY-MM-DD' string. */
  datatype Date = Date(year: int, month: int, day: int)

  /** Chronological order of two days (ISO date strings compare the same way). */
  predicate DateLe(a: Date, b: Date)
  {
    a.year < b.year || (a.year == b.year && (a.month < b.month || (a.month == b.month && a.day <= b.day)))
  }

  /** Order of a date column: an empty or unparseable date comes before every real day. */
  predicate DayLe(a: Option<Date>, b: Option<Date>)
  {
    a.None? || (b.Some? && DateLe(a.value, b.value))
  }

  predicate IsLeapYear(y: int)
  {
    (y % 4 == 0 && y % 100 != 0) || y % 400 == 0
  }

  /** Days in month `m` (1..12) of year `y` of the Gregorian calendar. */
  function DaysInMonth(y: int, m: int): int
  {
    if m == 2 then (if IsLeapYear(y) then 29 else 28)
    else if m == 4 || m == 6 || m == 9 || m == 11 then 30
    else 31
  }

  predicate ValidDate(d: Date)
  {
    1 <= d.month <= 12 && 1 <= d.day <= DaysInMonth(d.year, d.month)
  }

  /** A string is truthy in JavaScript when it is present and not empty. */
  predicate TruthyText(s: Option<string>)
  {
    s.Some? && s.value != ""
  }

  /** A number is truthy when it is present and neither 0 nor NaN (NaN is `None` here). */
  predicate TruthyNumber(n: Option<int>)
  {
    n.Some? && n.value != 0
  }

  /** `a || b` on two optional strings. */
  function EitherText(a: Option<string>, b: Option<string>): Option<string>
  {
    if TruthyText(a) then a else b
  }

  /** `a || fallback` on an optional string. */
  function TextOr(a: Option<string>, fallback: string): string
  {
    if TruthyText(a) then a.value else fallback
  }

  /** `a || fallback` on an optional number. */
  function NumberOr(a: Option<int>, fallback: int): int
  {
    if TruthyNumber(a) then a.value else fallback
  }

  /** `a || b` on two optional values that are always truthy when present
      (enumeration strings such as 'sheep', and dates). */
  function Either<T>(a: Option<T>, b: Option<T>): Option<T>
  {
    if a.Some? then a else b
  }

  /** `a || fallback` on a value that is always truthy when present. */
  function ValueOr<T>(a: Option<T>, fallback: T): T
  {
    if a.Some? then a.value else fallback
  }
}
