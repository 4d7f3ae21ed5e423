/**
 * The part of ECMAScript's `Date` that `new Date(year, month, day)` followed by
 * `toLocaleString("en-US", { month: "long" })` exercises: a two-digit year is
 * read as 19xx, the month is taken modulo 12 with the excess carried into the
 * year, and a day outside the month rolls over into the neighbouring months.
 */
module JsDate {

  /** The English long month names, indexed by 0-based month. */
  const MonthNames: seq<string> := ["January", "February", "March", "April", "May", "June", "July",
                                    "August", "September", "October", "November", "December"]

  /** Proleptic Gregorian leap years (astronomical year numbering). */
  predicate IsLeapYear(y: int) {
    y % 4 == 0 && (y % 100 != 0 || y % 400 == 0)
  }

  function DaysInMonth(y: int, m: int): (n: int)
    requires 0 <= m < 12
    ensures 28 <= n <= 31
    ensures n == 28 <==> m == 1 && !IsLeapYear(y)
  {
    if m == 1 then (if IsLeapYear(y) then 29 else 28)
    else if m == 3 || m == 5 || m == 8 || m == 10 then 30
    else 31
  }

  /** The year `new Date(y, …)` uses: 0 to 99 stand for 1900 to 1999. */
  function FullYear(y: int): (r: int)
    ensures 0 <= y <= 99 ==> r == 1900 + y
    ensures !(0 <= y <= 99) ==> r == y
  {
    if 0 <= y <= 99 then 1900 + y else y
  }

  /**
   * The (year, month) of the day that lies `d - 1` days after the first of month
   * `m` of year `y`; `d` may be zero, negative or larger than the month.
   */
  function RollMonth(y: int, m: int, d: int): (r: (int, int))
    requires 0 <= m < 12
    ensures 0 <= r.1 < 12
    ensures 1 <= d <= DaysInMonth(y, m) ==> r == (y, m)
    decreases if d < 1 then 1 else 0, if d < 1 then -d else d
  {
    if d < 1 then
      var (py, pm) := if m == 0 then (y - 1, 11) else (y, m - 1);
      RollMonth(py, pm, d + DaysInMonth(py, pm))
    else if d > DaysInMonth(y, m) then
      var (ny, nm) := if m == 11 then (y + 1, 0) else (y, m + 1);
      RollMonth(ny, nm, d - DaysInMonth(y, m))
    else (y, m)
  }

  /** `new Date(year, month, day).getMonth()` in local time, for integral arguments. */
  function LocalMonth(year: int, month: int, day: int): (r: int)
    ensures 0 <= r < 12
  {
    var ym := FullYear(year) * 12 + month;
    RollMonth(ym / 12, ym % 12, day).1
  }

  /** `new Date(year, month, day).toLocaleString("en-US", { month: "long" })`. */
  function LongMonthName(year: int, month: int, day: int): (r: string)
    ensures r in MonthNames
  {
    MonthNames[LocalMonth(year, month, day)]
  }

  /** A day that exists in every month leaves the month at `month mod 12`. */
  lemma LongMonthNameOfEarlyDay(year: int, month: int, day: int)
    requires 1 <= day <= 28
    ensures LongMonthName(year, month, day) == MonthNames[month % 12]
  {
    var y := FullYear(year);
    MonthIndexSplits(y + month / 12, month % 12);
    assert y * 12 + month == (y + month / 12) * 12 + month % 12;
  }

  /** A month count splits back into its year and its 0-based month. */
  lemma MonthIndexSplits(y: int, m: int)
    requires 0 <= m < 12
    ensures (y * 12 + m) / 12 == y && (y * 12 + m) % 12 == m
  {
  }

  /**
   * A day past the end of its month (by less than four weeks) names the next
   * month: `new Date(1990, 3, 31)` is the first of May.
   */
  lemma LongMonthNameOfOverflowDay(year: int, month: int, day: int)
    requires 0 <= month < 12
    requires DaysInMonth(FullYear(year), month) < day <= DaysInMonth(FullYear(year), month) + 28
    ensures LongMonthName(year, month, day) == MonthNames[(month + 1) % 12]
  {
    var y := FullYear(year);
    MonthIndexSplits(y, month);
    RollPastMonthEnd(y, month, day);
  }

  /**
   * A day up to four weeks before the first of its month names the previous
   * month: `new Date(1990, 3, 0)` is the last day of March.
   */
  lemma LongMonthNameOfUnderflowDay(year: int, month: int, day: int)
    requires 0 <= month < 12
    requires -27 <= day < 1
    ensures LongMonthName(year, month, day) == MonthNames[(month + 11) % 12]
  {
    var y := FullYear(year);
    MonthIndexSplits(y, month);
    RollBeforeMonthStart(y, month, day);
  }

  /** Day 0 down to four weeks before the first of a month is in the previous month. */
  lemma RollBeforeMonthStart(y: int, m: int, d: int)
    requires 0 <= m < 12
    requires -27 <= d < 1
    ensures RollMonth(y, m, d).1 == (m + 11) % 12
  {
    var (py, pm) := if m == 0 then (y - 1, 11) else (y, m - 1);
    var back := d + DaysInMonth(py, pm);
    assert 1 <= back <= DaysInMonth(py, pm);
    assert RollMonth(y, m, d) == RollMonth(py, pm, back);
  }

  /** Up to four weeks past the end of a month is in the next month. */
  lemma RollPastMonthEnd(y: int, m: int, d: int)
    requires 0 <= m < 12
    requires DaysInMonth(y, m) < d <= DaysInMonth(y, m) + 28
    ensures RollMonth(y, m, d).1 == (m + 1) % 12
  {
    var (ny, nm) := if m == 11 then (y + 1, 0) else (y, m + 1);
    var rest := d - DaysInMonth(y, m);
    assert 1 <= rest <= DaysInMonth(ny, nm);
    assert RollMonth(y, m, d) == RollMonth(ny, nm, rest);
  }
}
