/** How long ago a timestamp was, as the bot writes it: `get_datetime_diff_string`
    and `get_possible_plural`. Timestamps are whole microseconds, the
    resolution of Python's `datetime`. */
module Elapsed {

  const Minute: nat := 60_000_000
  const Hour: nat := 60 * Minute
  const Day: nat := 24 * Hour

  /** `get_possible_plural`: the word for a count of one, the word with an `s` otherwise. */
  function Plural(word: string, n: nat): (r: string)
    ensures r == word <==> n == 1
    ensures n != 1 ==> r == word + "s"
  {
    if n == 1 then word else word + "s"
  }

  /** The breakdown `get_datetime_diff_string` chooses: the largest nonzero
      unit among days, hours and minutes, with the next unit as remainder. */
  datatype Ago =
    | InTheFuture
    | JustNow
    | MinutesAgo(minutes: nat)
    | HoursAgo(hours: nat, minutes: nat)
    | DaysAgo(days: nat, hours: nat)

  /** The floor divisions of lines 219-221 and the subtractions of lines 224 and 229,
      over the microseconds between d1 and d2 (`total_seconds()` is that count
      divided by one million). Each displayed value is the whole number of its
      unit elapsed, and the remainder shown beside it is below one of the
      larger unit. */
  function Breakdown(d1: int, d2: int): (r: Ago)
    ensures r == InTheFuture <==> d1 > d2
    ensures r == JustNow <==> d1 <= d2 < d1 + Minute
    ensures r.MinutesAgo? ==>
      1 <= r.minutes < 60 && r.minutes * Minute <= d2 - d1 < (r.minutes + 1) * Minute
    ensures r.HoursAgo? ==>
      1 <= r.hours < 24 && r.minutes < 60
      && r.hours * Hour + r.minutes * Minute <= d2 - d1 < r.hours * Hour + (r.minutes + 1) * Minute
    ensures r.DaysAgo? ==>
      1 <= r.days && r.hours < 24
      && r.days * Day + r.hours * Hour <= d2 - d1 < r.days * Day + (r.hours + 1) * Hour
  {
    if d1 > d2 then InTheFuture
    else
      var total := d2 - d1;
      var minutes := total / Minute;
      var hours := total / Minute / 60;
      var days := total / Minute / 60 / 24;
      if days != 0 then DaysAgo(days, hours - days * 24)
      else if hours != 0 then HoursAgo(hours, minutes - hours * 60)
      else if minutes != 0 then MinutesAgo(minutes)
      else JustNow
  }

  function Digit(d: nat): char
    requires d < 10
  {
    "0123456789"[d]
  }

  predicate IsDigit(c: char) {
    '0' <= c <= '9'
  }

  /** `"%d" % n`: the decimal digits of n, without leading zeros. */
  function Decimal(n: nat): (r: string)
    ensures |r| > 0 && forall i :: 0 <= i < |r| ==> IsDigit(r[i])
    ensures |r| > 1 ==> r[0] != '0'
  {
    if n < 10 then [Digit(n)] else Decimal(n / 10) + [Digit(n % 10)]
  }

  /** The number a string of decimal digits denotes. */
  function DecimalValue(s: string): nat
    requires forall i :: 0 <= i < |s| ==> IsDigit(s[i])
  {
    if s == [] then 0
    else
      assert IsDigit(s[|s| - 1]);
      DecimalValue(s[..|s| - 1]) * 10 + (s[|s| - 1] as int - '0' as int)
  }

  /** Reading back the digits `%d` writes gives the number. */
  lemma {:induction false} DecimalRoundTrip(n: nat)
    ensures DecimalValue(Decimal(n)) == n
  {
    if n >= 10 {
      DecimalRoundTrip(n / 10);
      var s := Decimal(n);
      assert s[..|s| - 1] == Decimal(n / 10);
    }
  }

  /** A count followed by its unit, pluralised: `"%d %s" % (n, plural)`. */
  function Quantity(n: nat, unit: string): string {
    Decimal(n) + " " + Plural(unit, n)
  }

  function Render(a: Ago): string {
    match a
    case InTheFuture => "in the future"
    case JustNow => "just now"
    case MinutesAgo(m) => Quantity(m, "minute") + " ago"
    case HoursAgo(h, m) => Quantity(h, "hour") + ", " + Quantity(m, "minute") + " ago"
    case DaysAgo(d, h) => Quantity(d, "day") + ", " + Quantity(h, "hour") + " ago"
  }

  /** `get_datetime_diff_string(d1, d2)`. */
  function DiffString(d1: int, d2: int): (r: string)
    ensures d1 > d2 ==> r == "in the future"
    ensures d1 <= d2 < d1 + Minute ==> r == "just now"
    ensures d1 + Minute <= d2 ==> |r| > 4 && r[|r| - 4..] == " ago"
  {
    Render(Breakdown(d1, d2))
  }

  /** One day, one hour and one second is shown in days and hours, singular. */
  lemma DayAndHourExample()
    ensures DiffString(0, 90061_000_000) == "1 day, 1 hour ago"
  {
    assert Breakdown(0, 90061_000_000) == DaysAgo(1, 1);
    assert Quantity(1, "day") == "1 day";
    assert Quantity(1, "hour") == "1 hour";
  }

  /** Two hours and five minutes: hours and minutes, plural. */
  lemma HoursAndMinutesExample()
    ensures DiffString(100, 100 + 7500_000_000) == "2 hours, 5 minutes ago"
  {
    assert Breakdown(100, 100 + 7500_000_000) == HoursAgo(2, 5);
    assert Quantity(2, "hour") == "2 hours";
    assert Quantity(5, "minute") == "5 minutes";
  }

  /** From 10.9 s to 70.1 s is 59.2 s: "just now", although the whole
      seconds 10 and 70 are a minute apart. */
  lemma SubSecondExample()
    ensures DiffString(10_900_000, 70_100_000) == "just now"
    ensures DiffString(10_000_000, 70_000_000) == "1 minute ago"
  {
    assert Breakdown(10_000_000, 70_000_000) == MinutesAgo(1);
    assert Quantity(1, "minute") == "1 minute";
  }
}
