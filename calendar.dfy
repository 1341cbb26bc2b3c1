/** Date arithmetic that the source leaves to JavaScript's `Date`: the year
    and month of a day number, the day an instant falls on, and the integer
    ceiling that turns a time difference into whole days.  Everything is in
    UTC. */
module Calendar {
  import opened Types

  /** `1000 * 60 * 60 * 24`, the length of a day in milliseconds. */
  const MsPerDay: int := 1000 * 60 * 60 * 24

  /** The start of day `d` in milliseconds since the epoch, which is what
      `new Date('YYYY-MM-DD').getTime()` yields. */
  function StartOf(d: Day): int
  {
    d * MsPerDay
  }

  /** The day on which the instant `ms` falls. */
  function DayOf(ms: int): (d: Day)
    ensures StartOf(d) <= ms < StartOf(d) + MsPerDay
  {
    ms / MsPerDay
  }

  /** `Math.ceil(a / b)` for a positive divisor: the least integer whose
      multiple of `b` reaches `a`. */
  function CeilDiv(a: int, b: int): (q: int)
    requires b > 0
    ensures (q - 1) * b < a <= q * b
  {
    -((-a) / b)
  }

  /** Day `n` of a 100-year block of a 400-year era, split into the block
      and the day within it.  The first three blocks have 36524 days; the
      last one has 36525, because it ends with a leap day. */
  function Centuries(n: int): (r: (int, int))
    requires 0 <= n < 146097
    ensures 0 <= r.0 <= 3 && 0 <= r.1 <= 36524 && n == 36524 * r.0 + r.1
    ensures r.0 < 3 ==> r.1 < 36524
  {
    var c := if n / 36524 < 3 then n / 36524 else 3;
    (c, n - 36524 * c)
  }

  /** Day `n` of a 4-year block, split into the year and the day within it.
      The first three years have 365 days; the last one has 366, because it
      ends with a leap day. */
  function Years(n: int): (r: (int, int))
    requires 0 <= n < 1461
    ensures 0 <= r.0 <= 3 && 0 <= r.1 <= 365 && n == 365 * r.0 + r.1
    ensures r.0 < 3 ==> r.1 < 365
  {
    var y := if n / 365 < 3 then n / 365 else 3;
    (y, n - 365 * y)
  }

  /** Day `n` of a 400-year era that starts on 1 March, split into the year
      of the era and the day of that year (0 being 1 March). */
  function YearOfEra(n: int): (r: (int, int))
    requires 0 <= n < 146097
    ensures 0 <= r.0 < 400 && 0 <= r.1 <= 365
  {
    var (c, k) := Centuries(n);
    var (y, doy) := Years(k % 1461);
    (100 * c + 4 * (k / 1461) + y, doy)
  }

  /** The month of day `doy` of a year that starts on 1 March: 3 for March
      up to 12 for December, then 1 and 2. */
  function MonthOfYear(doy: int): (m: int)
    requires 0 <= doy <= 365
    ensures 1 <= m <= 12
    ensures m <= 2 <==> doy >= 306
  {
    var mp := (5 * doy + 2) / 153;
    if mp < 10 then mp + 3 else mp - 9
  }

  /** The (year, month) of day `doy` of the year that starts on 1 March of
      year `y`: January and February belong to the following year. */
  function FromYearDay(y: int, doy: int): (r: (int, int))
    requires 0 <= doy <= 365
    ensures 1 <= r.1 <= 12
  {
    var m := MonthOfYear(doy);
    (y + (if m <= 2 then 1 else 0), m)
  }

  /** The (year, month) of day `n` of era `era`, the era being the 400
      years that start on 1 March of year `400 * era`. */
  function EraMonth(era: int, n: int): (r: (int, int))
    requires 0 <= n < 146097
    ensures 1 <= r.1 <= 12
  {
    var (yoe, doy) := YearOfEra(n);
    FromYearDay(yoe + era * 400, doy)
  }

  /** The (year, month) of day `d` in the proleptic Gregorian calendar,
      which is what `getFullYear()` and `getMonth() + 1` give; day 0 is
      day 719468 of the era that starts on 1 March of year 0. */
  function YearMonth(d: Day): (r: (int, int))
    ensures 1 <= r.1 <= 12
  {
    var z := d + 719468;
    EraMonth(z / 146097, z % 146097)
  }

  /** True when days `a` and `b` fall in the same month of the same year
      (`getMonth() === currentMonth && getFullYear() === currentYear`). */
  predicate SameMonth(a: Day, b: Day)
  {
    YearMonth(a) == YearMonth(b)
  }

  /** The month after `ym`. */
  function NextMonth(ym: (int, int)): (int, int)
  {
    if ym.1 == 12 then (ym.0 + 1, 1) else (ym.0, ym.1 + 1)
  }

  /** `a` is the same month as `b` or an earlier one. */
  predicate NotLater(a: (int, int), b: (int, int))
  {
    a.0 < b.0 || (a.0 == b.0 && a.1 <= b.1)
  }

  lemma CenturiesStep(n: int)
    requires 0 <= n < 146096
    ensures var (c, k), (c', k') := Centuries(n), Centuries(n + 1);
      (c' == c && k' == k + 1) || (c' == c + 1 && k' == 0 && k == 36523)
  {
  }

  lemma YearsStep(n: int)
    requires 0 <= n < 1460
    ensures var (y, k), (y', k') := Years(n), Years(n + 1);
      (y' == y && k' == k + 1) || (y' == y + 1 && k' == 0 && k == 364)
  {
  }

  /** The next day of an era is the next day of the same year, or the
      first day of the next year after a 365- or 366-day year. */
  lemma YearOfEraStep(n: int)
    requires 0 <= n < 146096
    ensures var (y, doy), (y', doy') := YearOfEra(n), YearOfEra(n + 1);
      (y' == y && doy' == doy + 1) || (y' == y + 1 && doy' == 0 && doy >= 364)
  {
    CenturiesStep(n);
    var (c, k) := Centuries(n);
    var (c', k') := Centuries(n + 1);
    if c' == c {
      if k % 1461 < 1460 {
        assert k' / 1461 == k / 1461 && k' % 1461 == k % 1461 + 1;
        YearsStep(k % 1461);
      } else {
        assert k' / 1461 == k / 1461 + 1 && k' % 1461 == 0;
        assert Years(k % 1461) == (3, 365);
      }
    } else {
      assert k / 1461 == 24 && k % 1461 == 1459;
      assert Years(1459) == (3, 364);
    }
  }

  /** The last day of an era is the 366th day of its year 399. */
  lemma EraEnd()
    ensures YearOfEra(146096) == (399, 365)
  {
    assert Centuries(146096) == (3, 36524);
    assert 36524 / 1461 == 24 && 36524 % 1461 == 1460;
    assert Years(1460) == (3, 365);
  }

  /** The next day of a year falls in the same month or the next one. */
  lemma MonthOfYearStep(doy: int)
    requires 0 <= doy < 365
    ensures MonthOfYear(doy + 1) == MonthOfYear(doy) ||
            MonthOfYear(doy + 1) == (if MonthOfYear(doy) == 12 then 1 else MonthOfYear(doy) + 1)
  {
  }

  lemma FromYearDayStep(y: int, doy: int)
    requires 0 <= doy < 365
    ensures FromYearDay(y, doy + 1) == FromYearDay(y, doy) ||
            FromYearDay(y, doy + 1) == NextMonth(FromYearDay(y, doy))
  {
    MonthOfYearStep(doy);
  }

  /** 1 March follows the last day of February. */
  lemma FromYearDayNewYear(y: int, doy: int)
    requires 364 <= doy <= 365
    ensures FromYearDay(y + 1, 0) == NextMonth(FromYearDay(y, doy))
  {
    assert MonthOfYear(doy) == 2 && MonthOfYear(0) == 3;
  }

  /** Within an era, the next day is in the same month or the next one. */
  lemma EraMonthStep(era: int, n: int)
    requires 0 <= n < 146096
    ensures EraMonth(era, n + 1) == EraMonth(era, n) || EraMonth(era, n + 1) == NextMonth(EraMonth(era, n))
  {
    YearOfEraStep(n);
    var (y, doy) := YearOfEra(n);
    var (y', doy') := YearOfEra(n + 1);
    if y' == y {
      FromYearDayStep(y + era * 400, doy);
    } else {
      FromYearDayNewYear(y + era * 400, doy);
    }
  }

  /** The first day of an era is in the month after its predecessor's last day. */
  lemma EraMonthWrap(era: int)
    ensures EraMonth(era + 1, 0) == NextMonth(EraMonth(era, 146096))
  {
    EraEnd();
    assert YearOfEra(0) == (0, 0);
    FromYearDayNewYear(399 + era * 400, 365);
  }

  /** Counting one day on either stays in an era or starts the next one. */
  lemma EraCountStep(z: int)
    ensures || ((z + 1) / 146097 == z / 146097 && (z + 1) % 146097 == z % 146097 + 1)
            || ((z + 1) / 146097 == z / 146097 + 1 && (z + 1) % 146097 == 0 && z % 146097 == 146096)
  {
  }

  /** The day after `d` is in the same month as `d` or in the next one. */
  lemma YearMonthStep(d: Day)
    ensures YearMonth(d + 1) == YearMonth(d) || YearMonth(d + 1) == NextMonth(YearMonth(d))
  {
    var z := d + 719468;
    EraCountStep(z);
    if (z + 1) / 146097 == z / 146097 {
      EraMonthStep(z / 146097, z % 146097);
    } else {
      EraMonthWrap(z / 146097);
    }
  }

  /** Moving on by one month never goes back. */
  lemma NotLaterStep(a: (int, int), b: (int, int), c: (int, int))
    requires NotLater(a, b) && 1 <= b.1 <= 12
    requires c == b || c == NextMonth(b)
    ensures NotLater(a, c)
  {
  }

  /** A later day never falls in an earlier month. */
  lemma {:induction false} YearMonthMonotone(d: Day, e: Day)
    requires d <= e
    ensures NotLater(YearMonth(d), YearMonth(e))
    decreases e - d
  {
    if d < e {
      YearMonthMonotone(d, e - 1);
      YearMonthStep(e - 1);
      NotLaterStep(YearMonth(d), YearMonth(e - 1), YearMonth(e));
    }
  }

  /** Two months that are each no later than the other are the same. */
  lemma NotLaterBothWays(a: (int, int), b: (int, int), c: (int, int))
    requires NotLater(a, b) && NotLater(b, c) && a == c
    ensures a == b && b == c
  {
  }

  /** The days of a month form one unbroken run: a day between two days of
      the same month is in that month too. */
  lemma MonthIsContiguous(a: Day, b: Day, c: Day)
    requires a <= b <= c && SameMonth(a, c)
    ensures SameMonth(a, b) && SameMonth(b, c)
  {
    YearMonthMonotone(a, b);
    YearMonthMonotone(b, c);
    NotLaterBothWays(YearMonth(a), YearMonth(b), YearMonth(c));
  }

  /** The epoch falls in January 1970. */
  lemma EpochMonth()
    ensures YearMonth(0) == (1970, 1)
  {
    assert 719468 / 146097 == 4 && 719468 % 146097 == 135080;
    assert Centuries(135080) == (3, 25508);
    assert 25508 / 1461 == 17 && 25508 % 1461 == 671;
    assert Years(671) == (1, 306);
    assert MonthOfYear(306) == 1;
    assert YearOfEra(135080) == (369, 306);
  }
}
