/** The sidebar's list helpers (client/src/components/Sidebar.tsx): the magnitude
    badge and the "time ago" label. */
module Sidebar {
  import opened MagnitudeBands

  const MinuteMs: int := 60000
  const HourMs: int := 3600000
  const DayMs: int := 86400000

  /** The badge class of each magnitude band, weakest first. */
  const BadgeClasses: seq<string> := ["badge-success", "badge-warning", "badge-error", "badge-error animate-pulse"]

  /** `getMagnitudeBadgeClass` */
  function MagnitudeBadgeClass(magnitude: real): (c: string)
    ensures c == BadgeClasses[Band(magnitude)]
  {
    if magnitude < 5.0 then "badge-success"
    else if magnitude < 6.0 then "badge-warning"
    else if magnitude < 7.0 then "badge-error"
    else "badge-error animate-pulse"
  }

  /** Only the strongest band pulses, and the two strongest share the error colour. */
  lemma BadgeOnlyStrongestPulses(magnitude: real)
    ensures MagnitudeBadgeClass(magnitude) == "badge-error animate-pulse" <==> magnitude >= 7.0
    ensures MagnitudeBadgeClass(magnitude)[..11] == "badge-error" <==> magnitude >= 6.0
  {
    var c := MagnitudeBadgeClass(magnitude);
    if magnitude < 5.0 {
      assert c[..11] != "badge-error" by { assert c[6] != "badge-error"[6]; }
    } else if magnitude < 6.0 {
      assert c[..11] != "badge-error" by { assert c[6] != "badge-error"[6]; }
    }
  }

  /** The bucket `getTimeAgo` picks for a difference, with its whole count. */
  datatype Elapsed = JustNow | MinutesAgo(minutes: int) | HoursAgo(hours: int) | DaysAgo(days: int)

  /** The bucket for `now - timestamp`, counts rounded down as `Math.floor` does. */
  function ElapsedSince(now: int, timestamp: int): (e: Elapsed)
    ensures e.JustNow? <==> now - timestamp < MinuteMs
    ensures e.MinutesAgo? ==>
      1 <= e.minutes < 60 && e.minutes * MinuteMs <= now - timestamp < (e.minutes + 1) * MinuteMs
    ensures e.HoursAgo? ==>
      1 <= e.hours < 24 && e.hours * HourMs <= now - timestamp < (e.hours + 1) * HourMs
    ensures e.DaysAgo? ==>
      1 <= e.days && e.days * DayMs <= now - timestamp < (e.days + 1) * DayMs
    ensures e.MinutesAgo? <==> MinuteMs <= now - timestamp < HourMs
    ensures e.HoursAgo? <==> HourMs <= now - timestamp < DayMs
  {
    var diff := now - timestamp;
    var minutes := diff / MinuteMs;
    var hours := diff / HourMs;
    var days := diff / DayMs;
    if minutes < 1 then JustNow
    else if minutes < 60 then MinutesAgo(minutes)
    else if hours < 24 then HoursAgo(hours)
    else DaysAgo(days)
  }

  /** The decimal text of a whole number, as `${n}` prints it. */
  function DecimalText(n: nat): (s: string)
    ensures |s| >= 1 && AllDigits(s)
    ensures s[0] == '0' ==> n == 0
  {
    if n < 10 then [Digit(n)] else DecimalText(n / 10) + [Digit(n % 10)]
  }

  function Digit(d: nat): (c: char)
    requires d < 10
    ensures '0' <= c <= '9'
  {
    ['0', '1', '2', '3', '4', '5', '6', '7', '8', '9'][d]
  }

  predicate AllDigits(s: string)
  {
    forall i :: 0 <= i < |s| ==> '0' <= s[i] <= '9'
  }

  /** The value of a text of decimal digits. */
  function DecimalValue(s: string): int
    requires AllDigits(s)
  {
    if s == [] then 0 else DecimalValue(s[..|s| - 1]) * 10 + ((s[|s| - 1] as int) - ('0' as int))
  }

  /** The printed count reads back as the count. */
  lemma {:induction false} DecimalTextRoundTrip(n: nat)
    ensures DecimalValue(DecimalText(n)) == n
  {
    var s := DecimalText(n);
    if n >= 10 {
      DecimalTextRoundTrip(n / 10);
      assert s[..|s| - 1] == DecimalText(n / 10);
    }
  }

  /** `getTimeAgo` */
  function TimeAgo(now: int, timestamp: int): (text: string)
    ensures now - timestamp < MinuteMs <==> text == "Baru saja"
  {
    match ElapsedSince(now, timestamp)
    case JustNow => "Baru saja"
    case MinutesAgo(m) => DecimalText(m) + " menit lalu"
    case HoursAgo(h) => DecimalText(h) + " jam lalu"
    case DaysAgo(d) => DecimalText(d) + " hari lalu"
  }

  /** A timestamp in the future, or under a minute old, is "just now"; otherwise the
      label is the count of whole minutes, hours or days followed by its unit. */
  lemma TimeAgoLabels(now: int, timestamp: int)
    ensures var diff := now - timestamp;
      && (diff < MinuteMs ==> TimeAgo(now, timestamp) == "Baru saja")
      && (MinuteMs <= diff < HourMs ==> TimeAgo(now, timestamp) == DecimalText(diff / MinuteMs) + " menit lalu")
      && (HourMs <= diff < DayMs ==> TimeAgo(now, timestamp) == DecimalText(diff / HourMs) + " jam lalu")
      && (DayMs <= diff ==> TimeAgo(now, timestamp) == DecimalText(diff / DayMs) + " hari lalu")
  {
  }
}
