/**
 * `Time`: a timezone and an optional fixed date, and the calendar predicates
 * evaluated on the effective local date. The live wall clock is a parameter
 * `clock` giving the local reading in a named timezone, and the timezone
 * database behind `zoneExists` is a parameter predicate.
 */
module TimeHelper {
  import opened Wrappers
  import opened JsString

  type Month = m: int | 0 <= m < 12
  type DayOfMonth = d: int | 1 <= d <= 31 witness 1
  type Hour = h: int | 0 <= h < 24
  type Weekday = w: int | 0 <= w < 7

  /** A local wall-clock reading, as a `Date`'s getters report it: month 0-11, weekday 0 = Sunday. */
  datatype LocalDate = LocalDate(year: int, month: Month, day: DayOfMonth, hour: Hour, weekday: Weekday)

  const DefaultTimezone: string := "UTC"

  predicate IsFriday13th(d: LocalDate) {
    d.weekday == 5 && d.day == 13
  }

  /** From 16:00 on December 24. */
  predicate IsDayBeforeChristmas(d: LocalDate) {
    d.month == 11 && d.day == 24 && d.hour >= 16
  }

  predicate IsChristmas(d: LocalDate) {
    d.month == 11 && d.day == 25
  }

  /** From 16:00 on December 31, and all of January 1. */
  predicate IsNewYear(d: LocalDate) {
    (d.month == 11 && d.day == 31 && d.hour >= 16) || (d.month == 0 && d.day == 1)
  }

  predicate IsHolidays(d: LocalDate) {
    IsDayBeforeChristmas(d) || IsChristmas(d) || IsNewYear(d)
  }

  /** `MM-DD` from `getMonth() + 1` and `getDate()`, each padded to two digits. */
  function FormatMonthDay(d: LocalDate): (r: string)
    ensures |r| == 5 && r[2] == '-'
  {
    TwoDigits(d.month + 1) + "-" + TwoDigits(d.day)
  }

  /** Both halves of `MM-DD` are two digits and read back as the 1-based month and the day. */
  lemma FormatMonthDayReadsBack(d: LocalDate)
    ensures var r := FormatMonthDay(d);
      AllDigits(r[..2]) && AllDigits(r[3..]) &&
      ParseInt(r[..2]) == Some(d.month + 1) && ParseInt(r[3..]) == Some(d.day)
  {
    var month := TwoDigits(d.month + 1);
    var day := TwoDigits(d.day);
    var r := FormatMonthDay(d);
    TwoDigitsReadsBack(d.month + 1);
    TwoDigitsReadsBack(d.day);
    assert r[..2] == month && r[3..] == day;
  }

  /** `String(n).padStart(2, '0')` for `n < 100`. */
  function TwoDigits(n: nat): (r: string)
    requires n < 100
    ensures |r| == 2
  {
    PadStart(NatToString(n), 2, '0')
  }

  /** Two padded digits read back as the number. */
  lemma TwoDigitsReadsBack(n: nat)
    requires n < 100
    ensures AllDigits(TwoDigits(n)) && ParseInt(TwoDigits(n)) == Some(n)
  {
    ParseIntOfPadded(n, 2);
  }

  /** The three holiday windows never overlap, and none of them falls on a 13th. */
  lemma HolidaysExclusive(d: LocalDate)
    ensures !(IsDayBeforeChristmas(d) && IsChristmas(d))
    ensures !(IsDayBeforeChristmas(d) && IsNewYear(d))
    ensures !(IsChristmas(d) && IsNewYear(d))
    ensures IsFriday13th(d) ==> !IsHolidays(d)
  {
  }

  /** `validOrNull`'s substitution: a missing or empty name means `UTC`. */
  function ResolvedZone(timezone: Option<string>): (r: string)
    ensures r != ""
    ensures timezone.Some? && timezone.value != "" ==> r == timezone.value
    ensures !(timezone.Some? && timezone.value != "") ==> r == DefaultTimezone
  {
    if timezone.Some? && timezone.value != "" then timezone.value else DefaultTimezone
  }

  class Time {
    var timezone: string
    /** The fixed date, already at local midnight when set. */
    var customDate: Option<LocalDate>

    ghost predicate Valid()
      reads this
    {
      customDate.Some? ==> customDate.value.hour == 0
    }

    /**
     * `new Time(timezone, customDate)`: a missing or empty timezone becomes the
     * host's zone; a custom date is that calendar day at local midnight.
     */
    constructor (timezone: Option<string>, customDate: Option<LocalDate>, hostZone: string)
      ensures Valid()
      ensures this.timezone == if timezone.Some? && timezone.value != "" then timezone.value else hostZone
      ensures this.customDate == if customDate.Some? then Some(customDate.value.(hour := 0)) else None
    {
      this.timezone := if timezone.Some? && timezone.value != "" then timezone.value else hostZone;
      this.customDate := if customDate.Some? then Some(customDate.value.(hour := 0)) else None;
    }

    /** Accepts the new zone only when the timezone database knows it. */
    method SetTimezone(timezone: string, zoneExists: string -> bool)
      modifies this`timezone
      ensures this.timezone == if zoneExists(timezone) then timezone else old(this.timezone)
    {
      if zoneExists(timezone) {
        this.timezone := timezone;
      }
    }

    /** The effective date: the fixed date when there is one, else the clock read in this zone. */
    function GetDate(clock: string -> LocalDate): (d: LocalDate)
      reads this
      ensures customDate.None? ==> d == clock(timezone)
      ensures customDate.Some? ==> d == customDate.value
    {
      if customDate.Some? then customDate.value else clock(timezone)
    }

    /** `Time.validOrNull`: a `Time` on the resolved zone, or `null` exactly when that zone is unknown. */
    static method ValidOrNull(timezone: Option<string>, zoneExists: string -> bool, hostZone: string)
      returns (t: Time?)
      ensures t == null <==> !zoneExists(ResolvedZone(timezone))
      ensures t != null ==> fresh(t) && t.Valid() && t.timezone == ResolvedZone(timezone) && t.customDate == None
    {
      var resolved := ResolvedZone(timezone);
      if zoneExists(resolved) {
        t := new Time(Some(resolved), None, hostZone);
      } else {
        t := null;
      }
    }
  }

  /** With a fixed date the live clock is irrelevant, whatever the zone. */
  lemma CustomDateIgnoresClock(t: Time, clock1: string -> LocalDate, clock2: string -> LocalDate)
    requires t.customDate.Some?
    ensures t.GetDate(clock1) == t.GetDate(clock2)
  {
  }

  /**
   * A fixed date is read at midnight, so the evening windows never open on it:
   * not the day before Christmas, and New Year only on January 1.
   */
  lemma CustomDateAtMidnight(t: Time, clock: string -> LocalDate)
    requires t.Valid() && t.customDate.Some?
    ensures !IsDayBeforeChristmas(t.GetDate(clock))
    ensures IsNewYear(t.GetDate(clock)) <==> t.customDate.value.month == 0 && t.customDate.value.day == 1
  {
  }
}
