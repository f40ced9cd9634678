/** Relative time labels, services/dateUtils.js `formatRelativeTime`. */
module Dates {
  import opened Common

  /** The label chosen for an elapsed time.  `DateOnly` stands for the
      locale-formatted date of the instant. */
  datatype Relative = JustNow | MinutesAgo(minutes: nat) | HoursAgo(hours: nat) | DaysAgo(days: nat) | DateOnly(date: int)

  /** The label as text; the date form is left to the locale formatter. */
  function Render(r: Relative): string {
    match r
    case JustNow => "Just now"
    case MinutesAgo(m) => NatToString(m) + "m ago"
    case HoursAgo(h) => NatToString(h) + "h ago"
    case DaysAgo(d) => NatToString(d) + "d ago"
    case DateOnly(_) => ""
  }

  /** `formatRelativeTime(date)` at `now`: seconds, minutes, hours and days
      are each the floor of the previous unit; under a minute, including a
      date in the future, is "Just now"; then whole minutes below an hour,
      whole hours below a day and whole days below a week; otherwise the
      date itself. */
  function FormatRelativeTime(date: int, now: int): (r: Relative)
    ensures r.JustNow? <==> now - date < 60_000
    ensures r.MinutesAgo? ==> 1 <= r.minutes < 60 && r.minutes * 60_000 <= now - date < (r.minutes + 1) * 60_000
    ensures r.HoursAgo? ==> 1 <= r.hours < 24 && r.hours * HourMs <= now - date < (r.hours + 1) * HourMs
    ensures r.DaysAgo? ==> 1 <= r.days < 7 && r.days * DayMs <= now - date < (r.days + 1) * DayMs
    ensures r.DateOnly? <==> now - date >= 7 * DayMs
    ensures r.DateOnly? ==> r.date == date
  {
    var seconds := FloorDiv(now - date, 1000);
    var minutes := FloorDiv(seconds, 60);
    var hours := FloorDiv(minutes, 60);
    var days := FloorDiv(hours, 24);
    NestedFloor(now - date, 1000, 60);
    NestedFloor(now - date, 60_000, 60);
    NestedFloor(now - date, HourMs, 24);
    if seconds < 60 then JustNow
    else if minutes < 60 then MinutesAgo(minutes)
    else if hours < 24 then HoursAgo(hours)
    else if days < 7 then DaysAgo(days)
    else DateOnly(date)
  }

  /** Flooring twice is flooring once by the product. */
  lemma NestedFloor(x: int, a: int, b: int)
    requires a > 0 && b > 0
    ensures FloorDiv(FloorDiv(x, a), b) == FloorDiv(x, a * b)
  {
    var q := FloorDiv(x, a);
    var p := FloorDiv(q, b);
    MulMono(p * b, q, a);
    MulMono(q + 1, p * b + b, a);
    assert (p * b) * a == p * (a * b);
    assert (p * b + b) * a == p * (a * b) + a * b;
    assert (q + 1) * a == q * a + a;
    FloorDivUnique(x, a * b, p);
  }

  lemma MulMono(u: int, v: int, a: int)
    requires u <= v && a > 0
    ensures u * a <= v * a
  {
    assert v * a - u * a == (v - u) * a;
  }

  lemma FloorDivUnique(x: int, d: int, p: int)
    requires d > 0 && p * d <= x < p * d + d
    ensures FloorDiv(x, d) == p
  {
    var q := FloorDiv(x, d);
    if q < p {
      MulMono(q + 1, p, d);
    } else if q > p {
      MulMono(p + 1, q, d);
    }
  }

  /** Labels never go back in time: a later `now` gives a label of the same
      or a coarser unit, and within a unit a count that is no smaller. */
  lemma LabelsGrowWithTime(date: int, now: int, later: int)
    requires now <= later
    ensures Rank(FormatRelativeTime(date, now)) <= Rank(FormatRelativeTime(date, later))
    ensures FormatRelativeTime(date, now).MinutesAgo? && FormatRelativeTime(date, later).MinutesAgo? ==>
      FormatRelativeTime(date, now).minutes <= FormatRelativeTime(date, later).minutes
  {
  }

  function Rank(r: Relative): nat {
    match r
    case JustNow => 0
    case MinutesAgo(_) => 1
    case HoursAgo(_) => 2
    case DaysAgo(_) => 3
    case DateOnly(_) => 4
  }

  /** The count in a rendered label reads back as the label's count. */
  lemma RenderedCountReadsBack(r: Relative)
    requires r.MinutesAgo?
    ensures var s := Render(r); DigitsValue(s[..|s| - 5]) == r.minutes
  {
    var s := Render(r);
    assert s[..|s| - 5] == NatToString(r.minutes);
    NatToStringRoundTrip(r.minutes);
  }
}
