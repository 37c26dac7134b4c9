/**
 * formatDate: the "Created …" label of a todo. The age is the difference of
 * two millisecond timestamps, cut into minutes, hours and days by floor
 * division; a week or more falls through to a calendar date.
 */
module RelativeAge {
  import opened Text

  const MinuteMs := 60000
  const HourMs := 3600000
  const DayMs := 86400000

  /** Which branch formatDate takes, with the number it prints. */
  datatype Age =
    | JustNow
    | MinutesAgo(minutes: nat)
    | HoursAgo(hours: nat)
    | DaysAgo(days: nat)
    | Dated(createdAt: int, withYear: bool)

  /** `Math.floor(a / b)` for a positive divisor (Dafny's `/` rounds toward negative infinity here). */
  function FloorDiv(a: int, b: int): (q: int)
    requires b > 0
    ensures q * b <= a < q * b + b
  {
    a / b
  }

  /**
   * The branch formatDate takes for a todo created at `createdAt` when the
   * clock reads `now`. `calendarYear` stands for `Date.prototype.getFullYear`
   * in the browser's time zone; the year is printed only when it differs.
   */
  function FormatDate(now: int, createdAt: int, calendarYear: int -> int): (age: Age)
    ensures age == JustNow <==> now - createdAt < MinuteMs
    ensures age.MinutesAgo? <==> MinuteMs <= now - createdAt < HourMs
    ensures age.HoursAgo? <==> HourMs <= now - createdAt < DayMs
    ensures age.DaysAgo? <==> DayMs <= now - createdAt < 7 * DayMs
    ensures age.Dated? <==> 7 * DayMs <= now - createdAt
    ensures age.MinutesAgo? ==>
      1 <= age.minutes <= 59 && age.minutes * MinuteMs <= now - createdAt < (age.minutes + 1) * MinuteMs
    ensures age.HoursAgo? ==>
      1 <= age.hours <= 23 && age.hours * HourMs <= now - createdAt < (age.hours + 1) * HourMs
    ensures age.DaysAgo? ==>
      1 <= age.days <= 6 && age.days * DayMs <= now - createdAt < (age.days + 1) * DayMs
    ensures age.Dated? ==> age == Dated(createdAt, calendarYear(createdAt) != calendarYear(now))
  {
    var diffMs := now - createdAt;
    var diffMins := FloorDiv(diffMs, MinuteMs);
    var diffHours := FloorDiv(diffMs, HourMs);
    var diffDays := FloorDiv(diffMs, DayMs);
    if diffMins < 1 then JustNow
    else if diffMins < 60 then MinutesAgo(diffMins)
    else if diffHours < 24 then HoursAgo(diffHours)
    else if diffDays < 7 then DaysAgo(diffDays)
    else Dated(createdAt, calendarYear(createdAt) != calendarYear(now))
  }

  /**
   * The text of the label. `localeDate` stands for
   * `toLocaleDateString('en-US', …)` applied to the creation time, with or
   * without the year. "just now" is the only relative label ending in 'w';
   * every count-and-unit label is the decimal digits of its count followed
   * by "<unit> ago".
   */
  function Label(age: Age, localeDate: (int, bool) -> string): (s: string)
    ensures age.Dated? ==> s == localeDate(age.createdAt, age.withYear)
    ensures age.JustNow? ==> s == "just now"
    ensures !age.Dated? ==> |s| >= 6 && s[|s| - 1] == if age.JustNow? then 'w' else 'o'
    ensures !age.Dated? && !age.JustNow? ==>
              && s[..|s| - 5] == Decimal(Amount(age))
              && s[|s| - 5] == UnitOf(age) && s[|s| - 4..] == " ago"
  {
    match age
    case JustNow => "just now"
    case MinutesAgo(m) => Decimal(m) + "m ago"
    case HoursAgo(h) => Decimal(h) + "h ago"
    case DaysAgo(d) => Decimal(d) + "d ago"
    case Dated(t, withYear) => localeDate(t, withYear)
  }

  /** The count a count-and-unit label shows. */
  function Amount(age: Age): nat
    requires age.MinutesAgo? || age.HoursAgo? || age.DaysAgo?
  {
    match age
    case MinutesAgo(m) => m
    case HoursAgo(h) => h
    case DaysAgo(d) => d
  }

  /** The unit letter of a count-and-unit label. */
  function UnitOf(age: Age): char
    requires age.MinutesAgo? || age.HoursAgo? || age.DaysAgo?
  {
    match age
    case MinutesAgo(_) => 'm'
    case HoursAgo(_) => 'h'
    case DaysAgo(_) => 'd'
  }

  /** Two relative labels with the same text come from the same branch and number. */
  lemma LabelInjective(a: Age, b: Age, localeDate: (int, bool) -> string)
    requires !a.Dated? && !b.Dated?
    requires Label(a, localeDate) == Label(b, localeDate)
    ensures a == b
  {
    var s := Label(a, localeDate);
    // "just now" ends in 'w' and every count-and-unit label in 'o', so only
    // labels of the same kind can coincide; their unit letters then agree
    // and so do the digits in front of it
    if !a.JustNow? && !b.JustNow? {
      var n := |s| - 5;
      assert s[n] == UnitOf(a) && s[n] == UnitOf(b);
      match a
      case MinutesAgo(m) =>
        assert s[..n] == Decimal(m) && s[..n] == Decimal(b.minutes);
        DecimalInjective(m, b.minutes);
      case HoursAgo(h) =>
        assert s[..n] == Decimal(h) && s[..n] == Decimal(b.hours);
        DecimalInjective(h, b.hours);
      case DaysAgo(d) =>
        assert s[..n] == Decimal(d) && s[..n] == Decimal(b.days);
        DecimalInjective(d, b.days);
    }
  }

  /** Worked ages: 30 s, 5 min, 90 min, 3 days and 10 days. */
  lemma LabelExamples(now: int, calendarYear: int -> int, localeDate: (int, bool) -> string)
    ensures Label(FormatDate(now, now - 30000, calendarYear), localeDate) == "just now"
    ensures Label(FormatDate(now, now - 5 * MinuteMs, calendarYear), localeDate) == "5m ago"
    ensures Label(FormatDate(now, now - 90 * MinuteMs, calendarYear), localeDate) == "1h ago"
    ensures Label(FormatDate(now, now - 3 * DayMs, calendarYear), localeDate) == "3d ago"
    ensures FormatDate(now, now - 10 * DayMs, calendarYear).Dated?
  {
  }
}
