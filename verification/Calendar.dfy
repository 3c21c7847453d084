/** Calendar dates of the node's clock. */
module Calendar {
  import opened Base

  /** Year, month 1..12, day from 1, hour, minute, second */
  datatype Civil = Civil(year: nat, month: nat, day: nat, hour: nat, minute: nat, second: nat)

  predicate IsLeap(y: nat) { (y % 4 == 0 && y % 100 != 0) || y % 400 == 0 }

  function YearDays(y: nat): nat { if IsLeap(y) then 366 else 365 }

  const MONTH_DAYS := [31, 28, 31, 30, 31, 30, 31, 31, 30, 31, 30, 31]

  /** Months count from 0 here. */
  function MonthDays(month: nat, leap: bool): (n: nat)
    requires month < 12
    ensures 28 <= n <= 31
  {
    if month == 1 && leap then 29 else MONTH_DAYS[month]
  }

  /** Days of the year before the month */
  function MonthStart(month: nat, leap: bool): nat
    requires month <= 12
  {
    if month == 0 then 0 else MonthStart(month - 1, leap) + MonthDays(month - 1, leap)
  }

  predicate ValidCivil(c: Civil) {
    && c.year >= 1970 && 1 <= c.month <= 12 && 1 <= c.day <= MonthDays(c.month - 1, IsLeap(c.year))
    && c.hour < 24 && c.minute < 60 && c.second < 60
  }

  /** `tm_yday` of ISO C */
  function YearDay(c: Civil): nat
    requires ValidCivil(c)
  {
    MonthStart(c.month - 1, IsLeap(c.year)) + c.day - 1
  }

  /** Seconds since the Epoch, by the formula of section 4.16 of IEEE Std 1003.1-2017,
      where years count from 1900 */
  function SecondsSinceEpoch(c: Civil): int
    requires ValidCivil(c)
  {
    var year := c.year - 1900;
    c.second + c.minute * 60 + c.hour * 3600 + YearDay(c) * 86400 +
    (year - 70) * 31536000 + (year - 69) / 4 * 86400 - (year - 1) / 100 * 86400 + (year + 299) / 400 * 86400
  }

  /** Days from the Epoch to the first day of the year */
  function DaysTo(y: nat): int
    requires y >= 1970
  {
    (y - 1970) * 365 + (y - 1969) / 4 - (y - 1901) / 100 + (y - 1601) / 400
  }

  lemma LeapYearSteps(n: nat)
    ensures (n + 1) / 4 == n / 4 + (if (n + 1) % 4 == 0 then 1 else 0)
    ensures (n + 1) / 100 == n / 100 + (if (n + 1) % 100 == 0 then 1 else 0)
    ensures (n + 1) / 400 == n / 400 + (if (n + 1) % 400 == 0 then 1 else 0)
  {
  }

  lemma ShiftedResidue(n: nat, k: nat, p: nat)
    requires k > 0
    ensures (n + k * p) % k == n % k
  {
    var q, r := n / k, n % k;
    assert k * (q + p) == k * q + k * p;
    Quotient(n + k * p, k, q + p, r);
  }

  lemma Quotient(n: nat, k: nat, q: nat, r: nat)
    requires n == k * q + r && r < k
    ensures n / k == q && n % k == r
  {
    var d: int := n / k - q;
    assert k * d == r - n % k && 0 - k < k * d < k;
  }

  lemma NextYear(y: nat)
    requires y >= 1970
    ensures DaysTo(y + 1) == DaysTo(y) + YearDays(y)
  {
    LeapYearSteps(y - 1969);
    LeapYearSteps(y - 1901);
    LeapYearSteps(y - 1601);
    ShiftedResidue(y - 1968, 4, 492);
    ShiftedResidue(y - 1900, 100, 19);
    ShiftedResidue(y - 1600, 400, 4);
    CenturiesDivide(y);
  }

  lemma CenturiesDivide(y: nat)
    ensures (y % 400 == 0 ==> y % 100 == 0) && (y % 100 == 0 ==> y % 4 == 0)
  {
    if y % 100 == 0 { Quotient(y, 4, 25 * (y / 100), 0); }
    if y % 400 == 0 { Quotient(y, 100, 4 * (y / 400), 0); }
  }

  lemma {:induction false} YearsGrow(y: nat, z: nat)
    requires 1970 <= y < z
    ensures DaysTo(y) + YearDays(y) <= DaysTo(z)
    decreases z - y
  {
    NextYear(y);
    if y + 1 < z { YearsGrow(y + 1, z); }
  }

  lemma {:induction false} MonthsGrow(a: nat, b: nat, leap: bool)
    requires a < b <= 12
    ensures MonthStart(a, leap) + MonthDays(a, leap) <= MonthStart(b, leap)
  {
    if a + 1 < b { MonthsGrow(a, b - 1, leap); }
  }

  /** The first days of the months of a common year, and the length of the year */
  const MONTH_STARTS := [0, 31, 59, 90, 120, 151, 181, 212, 243, 273, 304, 334, 365]

  lemma {:induction false} MonthsStart(month: nat, leap: bool)
    requires month <= 12
    ensures MonthStart(month, leap) == MONTH_STARTS[month] + if leap && month >= 2 then 1 else 0
  {
    if month > 0 { MonthsStart(month - 1, leap); }
  }

  lemma YearHasTwelveMonths(y: nat)
    ensures MonthStart(12, IsLeap(y)) == YearDays(y)
  {
    MonthsStart(12, IsLeap(y));
  }

  /** Earlier in the order of years, months, days, hours, minutes and seconds */
  predicate Earlier(a: Civil, b: Civil) {
    if a.year != b.year then a.year < b.year
    else if a.month != b.month then a.month < b.month
    else if a.day != b.day then a.day < b.day
    else if a.hour != b.hour then a.hour < b.hour
    else if a.minute != b.minute then a.minute < b.minute
    else a.second < b.second
  }

  function DayNumber(c: Civil): int
    requires ValidCivil(c)
  {
    DaysTo(c.year) + YearDay(c)
  }

  lemma SecondsFromDays(c: Civil)
    requires ValidCivil(c)
    ensures SecondsSinceEpoch(c) == DayNumber(c) * 86400 + c.hour * 3600 + c.minute * 60 + c.second
  {
  }

  lemma DaysAreOrdered(a: Civil, b: Civil)
    requires ValidCivil(a) && ValidCivil(b)
    requires a.year < b.year || (a.year == b.year && a.month < b.month) || (a.year == b.year && a.month == b.month && a.day < b.day)
    ensures DayNumber(a) < DayNumber(b)
  {
    if a.year < b.year {
      YearsGrow(a.year, b.year);
      YearHasTwelveMonths(a.year);
      MonthsGrow(a.month - 1, 12, IsLeap(a.year));
    } else if a.month < b.month {
      MonthsGrow(a.month - 1, b.month - 1, IsLeap(a.year));
    }
  }

  lemma EarlierIsLess(a: Civil, b: Civil)
    requires ValidCivil(a) && ValidCivil(b) && Earlier(a, b)
    ensures SecondsSinceEpoch(a) < SecondsSinceEpoch(b)
  {
    SecondsFromDays(a);
    SecondsFromDays(b);
    if a.year != b.year || a.month != b.month || a.day != b.day {
      DaysAreOrdered(a, b);
    }
  }

  /** The order of dates is the order of times, so no two dates have the same time. */
  lemma DatesAreOrderedAsTimes(a: Civil, b: Civil)
    requires ValidCivil(a) && ValidCivil(b)
    ensures Earlier(a, b) <==> SecondsSinceEpoch(a) < SecondsSinceEpoch(b)
    ensures a == b <==> SecondsSinceEpoch(a) == SecondsSinceEpoch(b)
  {
    if Earlier(a, b) {
      EarlierIsLess(a, b);
    } else if a != b {
      EarlierIsLess(b, a);
    }
  }

  /** A 32-bit epoch ends in 2106. */
  lemma LastYear(y: nat)
    requires y >= 1970
    ensures DaysTo(y) <= 0xFFFF_FFFF / 86400 ==> y <= 2106
  {
    if y > 2106 { YearsGrow(2106, y); }
  }

  lemma ClockFields(now: nat)
    ensures now == now / 60 / 60 / 24 * 86400 + now / 60 / 60 % 24 * 3600 + now / 60 % 60 * 60 + now % 60
    ensures now <= 0xFFFF_FFFF ==> now / 60 / 60 / 24 <= 0xFFFF_FFFF / 86400
  {
    var m, h := now / 60, now / 60 / 60;
    assert now == m * 60 + now % 60 && m == h * 60 + m % 60 && h == h / 24 * 24 + h % 24;
  }

  /** What the two loops leave, put together with the time of day */
  lemma FieldsAreExact(now: u32, y: nat, month: nat, day: nat)
    requires y >= 1970 && month < 12 && day < MonthDays(month, IsLeap(y))
    requires DaysTo(y) + MonthStart(month, IsLeap(y)) + day == now / 60 / 60 / 24
    ensures var c := Civil(y, month + 1, day + 1, now / 60 / 60 % 24, now / 60 % 60, now % 60);
            ValidCivil(c) && SecondsSinceEpoch(c) == now && y <= 2106
  {
    ClockFields(now);
    LastYear(y);
    SecondsFromDays(Civil(y, month + 1, day + 1, now / 60 / 60 % 24, now / 60 % 60, now % 60));
  }

  /** `lima_rtc_format_now`: the fields that are printed, if the clock is set at all. By
      DatesAreOrderedAsTimes they are the only fields for the epoch. */
  method FormatNow(now: u32) returns (c: Option<Civil>)
    ensures c == None <==> now == 0
    ensures c.Some? ==> ValidCivil(c.value) && SecondsSinceEpoch(c.value) == now && c.value.year <= 2106
  {
    var epoch: nat := now;
    if epoch == 0 {
      return None;
    }
    var s := epoch % 60;
    epoch := epoch / 60;
    var m := epoch % 60;
    epoch := epoch / 60;
    var h := epoch % 24;
    epoch := epoch / 24;

    var days: nat := epoch;
    var y: nat := 1970;
    while true
      invariant y >= 1970 && days + DaysTo(y) == epoch
      decreases days
    {
      var dy := YearDays(y);
      if days < dy {
        break;
      }
      NextYear(y);
      days := days - dy;
      y := y + 1;
    }
    var yearDay := days;
    YearHasTwelveMonths(y);
    var mo: nat := 0;
    var leap := IsLeap(y);
    while true
      invariant mo < 12 && days + MonthStart(mo, leap) == yearDay
      decreases days
    {
      var dm := MonthDays(mo, leap);
      if days < dm {
        break;
      }
      days := days - dm;
      mo := mo + 1;
    }
    FieldsAreExact(now, y, mo, days);
    return Some(Civil(y, mo + 1, days + 1, h, m, s));
  }
}
