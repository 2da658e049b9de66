/**
  Days from civil date: the era formula in its two source forms against a
  recursive count of days, year by year and month by month.
*/
module CivilDays {
  const U32: int := 0x1_0000_0000

  /** The source's integer division truncates toward zero. */
  function TruncDiv(a: int, b: int): int
    requires b > 0
  {
    if a >= 0 then a / b else -(-a / b)
  }

  /** daysFromCivil of the Oracle code; unsigned steps wrap at 32 bits. */
  function OracleDays(y: int, m: int, d: int): int {
    var yy := y - (if m <= 2 then 1 else 0);
    var era := TruncDiv(if yy >= 0 then yy else yy - 399, 400);
    var yoe := (yy - era * 400) % U32;
    var shifted := (m + (if m > 2 then U32 - 3 else 9)) % U32;
    var doy := ((153 * shifted % U32 + 2) % U32 / 5 + d - 1) % U32;
    var doe := (yoe * 365 + yoe / 4 - yoe / 100 + doy) % U32;
    era * 146097 + doe - 719468
  }

  /** The form inside tryParseTimestamp. */
  function TimestampDays(y: int, m: int, d: int): int {
    var civilYear := if m <= 2 then y - 1 else y;
    var era := TruncDiv(if civilYear >= 0 then civilYear else civilYear - 399, 400);
    var yoe := (civilYear - era * 400) % U32;
    var shifted := if m > 2 then m - 3 else m + 9;
    var doy := ((153 * shifted + 2) / 5 + d - 1) % U32;
    var doe := (yoe * 365 + yoe / 4 - yoe / 100 + doy) % U32;
    era * 146097 + doe - 719468
  }

  // ---------------------------------------------------------------- reference

  predicate Leap(y: int) { y % 4 == 0 && (y % 100 != 0 || y % 400 == 0) }

  function MonthLength(y: int, m: int): int {
    if m == 2 then (if Leap(y) then 29 else 28)
    else if m == 4 || m == 6 || m == 9 || m == 11 then 30 else 31
  }

  predicate Valid(y: int, m: int, d: int) { 1 <= m <= 12 && 1 <= d <= MonthLength(y, m) }

  function YearLength(y: int): int { if Leap(y) then 366 else 365 }

  /** Days from 1970-01-01 to the first day of year `y`, counted year by year. */
  function BeforeYear(y: int): int
    decreases if y >= 1970 then y - 1970 else 1970 - y
  {
    if y == 1970 then 0
    else if y > 1970 then BeforeYear(y - 1) + YearLength(y - 1)
    else BeforeYear(y + 1) - YearLength(y)
  }

  function BeforeMonth(y: int, m: int): int
    decreases m
  {
    if m <= 1 then 0 else BeforeMonth(y, m - 1) + MonthLength(y, m - 1)
  }

  function CountedDays(y: int, m: int, d: int): int { BeforeYear(y) + BeforeMonth(y, m) + d - 1 }

  // ------------------------------------------------------------- closed forms

  /** Days of the March-based years before year `y`. */
  function MarchYears(y: int): int { 365 * y + y / 4 - y / 100 + y / 400 }

  /** The truncating era is the floor, so every year of the era is in range. */
  lemma {:induction false} EraIsFloor(yy: int)
    ensures TruncDiv(if yy >= 0 then yy else yy - 399, 400) == yy / 400
    ensures 0 <= yy - yy / 400 * 400 < 400
  {
    if yy < 0 {
      var q, r := yy / 400, yy % 400;
      assert yy == q * 400 + r;
      var n := 399 - yy;
      assert n == -q * 400 + (399 - r);
      assert n / 400 == -q;
    }
  }

  lemma {:induction false} EraSplits(yy: int)
    ensures var era := yy / 400; var yoe := yy - era * 400;
      era * 146097 + yoe * 365 + yoe / 4 - yoe / 100 == MarchYears(yy)
  {
    var era := yy / 400;
    var yoe := yy - era * 400;
    assert yy == era * 400 + yoe;
    assert yy / 4 == era * 100 + yoe / 4;
    assert yy / 100 == era * 4 + yoe / 100;
  }

  lemma {:induction false} NextMarchYear(y: int)
    ensures MarchYears(y) - MarchYears(y - 1) == YearLength(y)
  {
    StepDiv(y, 4); StepDiv(y, 100); StepDiv(y, 400);
  }

  lemma {:induction false} StepDiv(y: int, n: int)
    requires n > 1
    ensures y / n - (y - 1) / n == if y % n == 0 then 1 else 0
  {
    var q, r := y / n, y % n;
    assert y == q * n + r;
    if r == 0 { QuotientIs(y - 1, n, q - 1, n - 1); } else { QuotientIs(y - 1, n, q, r - 1); }
  }

  lemma {:induction false} MulGrows(k: int, n: int)
    requires n > 0
    ensures (k >= 1 ==> k * n >= n) && (k <= -1 ==> k * n <= -n)
  {
  }

  lemma {:induction false} QuotientIs(a: int, n: int, q: int, r: int)
    requires n > 0 && a == q * n + r && 0 <= r < n
    ensures a / n == q
  {
    var k := a / n - q;
    assert a == a / n * n + a % n;
    assert k * n == r - a % n by { assert k * n == a / n * n - q * n; }
    MulGrows(k, n);
  }

  lemma {:induction false} BeforeYearIs(y: int)
    ensures BeforeYear(y) == MarchYears(y - 1) + 306 - 719468
    decreases if y >= 1970 then y - 1970 else 1970 - y
  {
    if y > 1970 { BeforeYearIs(y - 1); NextMarchYear(y - 1); }
    if y < 1970 { BeforeYearIs(y + 1); NextMarchYear(y); }
  }

  function DayOfMarchYear(m: int, d: int): int { (153 * (if m > 2 then m - 3 else m + 9) + 2) / 5 + d - 1 }

  lemma {:induction false} Small(x: int)
    requires 0 <= x < U32
    ensures x % U32 == x && (x + U32) % U32 == x
  {
  }

  lemma {:induction false} DoeIs(yy: int, doy: int)
    requires 0 <= doy <= 400
    ensures var era := TruncDiv(if yy >= 0 then yy else yy - 399, 400); var yoe := (yy - era * 400) % U32;
      era * 146097 + (yoe * 365 + yoe / 4 - yoe / 100 + doy) % U32 == MarchYears(yy) + doy
  {
    EraIsFloor(yy);
    EraSplits(yy);
    var yoe := yy - yy / 400 * 400;
    Small(yoe);
    assert 0 <= yoe / 4 - yoe / 100 <= 100;
    Small(yoe * 365 + yoe / 4 - yoe / 100 + doy);
  }

  lemma {:induction false} OracleClosedForm(y: int, m: int, d: int)
    requires Valid(y, m, d)
    ensures OracleDays(y, m, d) == MarchYears(if m <= 2 then y - 1 else y) + DayOfMarchYear(m, d) - 719468
  {
    hide TruncDiv, MarchYears;
    var yy, doy := if m <= 2 then y - 1 else y, DayOfMarchYear(m, d);
    var shifted := if m > 2 then m - 3 else m + 9;
    Small(shifted); Small(153 * shifted); Small(153 * shifted + 2); Small(doy);
    assert (m + (if m > 2 then U32 - 3 else 9)) % U32 == shifted;
    DoeIs(yy, doy);
  }

  lemma {:induction false} TimestampClosedForm(y: int, m: int, d: int)
    requires Valid(y, m, d)
    ensures TimestampDays(y, m, d) == MarchYears(if m <= 2 then y - 1 else y) + DayOfMarchYear(m, d) - 719468
  {
    hide TruncDiv, MarchYears;
    var yy, doy := if m <= 2 then y - 1 else y, DayOfMarchYear(m, d);
    Small(doy);
    DoeIs(yy, doy);
  }

  lemma {:induction false} MonthsBefore(y: int, m: int)
    requires 1 <= m <= 12
    ensures BeforeMonth(y, m) + 306 == DayOfMarchYear(m, 1) + (if m > 2 then YearLength(y) else 0)
    decreases m
  {
    hide Leap;
    if m > 1 { MonthsBefore(y, m - 1); }
  }

  // ----------------------------------------------------------------- theorems

  /** Both source forms count days: they agree with each other and with the recursive count, for every valid date. */
  lemma {:induction false} EraFormulaCountsDays(y: int, m: int, d: int)
    requires Valid(y, m, d)
    ensures OracleDays(y, m, d) == CountedDays(y, m, d) == TimestampDays(y, m, d)
  {
    hide OracleDays, TimestampDays, MarchYears, BeforeYear, BeforeMonth;
    OracleClosedForm(y, m, d);
    TimestampClosedForm(y, m, d);
    BeforeYearIs(y);
    MonthsBefore(y, m);
    if m > 2 { NextMarchYear(y); }
  }

  lemma {:induction false} EpochIsZero()
    ensures OracleDays(1970, 1, 1) == 0 == TimestampDays(1970, 1, 1)
  {
    EraFormulaCountsDays(1970, 1, 1);
  }

  datatype Date = Date(y: int, m: int, d: int)

  /** The next day of the Gregorian calendar. */
  function NextDay(t: Date): Date {
    if t.d < MonthLength(t.y, t.m) then Date(t.y, t.m, t.d + 1)
    else if t.m < 12 then Date(t.y, t.m + 1, 1)
    else Date(t.y + 1, 1, 1)
  }

  lemma {:induction false} WholeYear(y: int)
    ensures BeforeMonth(y, 12) + 31 == YearLength(y) && BeforeYear(y + 1) == BeforeYear(y) + YearLength(y)
  {
    MonthsBefore(y, 12);
    BeforeYearIs(y); BeforeYearIs(y + 1); NextMarchYear(y);
  }

  /** One day later is one more. */
  lemma {:induction false} NextDayIsOneMore(t: Date)
    requires Valid(t.y, t.m, t.d)
    ensures var n := NextDay(t); Valid(n.y, n.m, n.d) && OracleDays(n.y, n.m, n.d) == OracleDays(t.y, t.m, t.d) + 1
  {
    hide OracleDays, TimestampDays, BeforeYear, YearLength, Leap;
    var n := NextDay(t);
    WholeYear(t.y);
    EraFormulaCountsDays(t.y, t.m, t.d);
    EraFormulaCountsDays(n.y, n.m, n.d);
  }

  predicate Earlier(s: Date, t: Date) {
    s.y < t.y || (s.y == t.y && (s.m < t.m || (s.m == t.m && s.d < t.d)))
  }

  lemma {:induction false} YearsGrow(y: int, z: int)
    requires y <= z
    ensures BeforeYear(y) + 365 * (z - y) <= BeforeYear(z)
    decreases z - y
  {
    if y < z { YearsGrow(y, z - 1); WholeYear(z - 1); }
  }

  lemma {:induction false} MonthsGrow(y: int, m: int, n: int)
    requires 1 <= m <= n
    ensures m < n ==> BeforeMonth(y, m) + MonthLength(y, m) <= BeforeMonth(y, n)
    decreases n - m
  {
    if m + 1 < n { MonthsGrow(y, m, n - 1); }
  }

  /** The count preserves the calendar order, hence no two dates share a number. */
  lemma {:induction false} OrderPreserving(s: Date, t: Date)
    requires Valid(s.y, s.m, s.d) && Valid(t.y, t.m, t.d)
    ensures Earlier(s, t) <==> OracleDays(s.y, s.m, s.d) < OracleDays(t.y, t.m, t.d)
    ensures s == t <==> OracleDays(s.y, s.m, s.d) == OracleDays(t.y, t.m, t.d)
  {
    if Earlier(s, t) { EarlierIsLess(s, t); }
    if Earlier(t, s) { EarlierIsLess(t, s); }
  }

  lemma {:induction false} FirstMonth(y: int)
    ensures BeforeMonth(y, 1) == 0
  {
  }

  lemma {:induction false} EarlierIsLess(s: Date, t: Date)
    requires Valid(s.y, s.m, s.d) && Valid(t.y, t.m, t.d) && Earlier(s, t)
    ensures OracleDays(s.y, s.m, s.d) < OracleDays(t.y, t.m, t.d)
  {
    hide OracleDays, TimestampDays, BeforeYear, BeforeMonth, Leap;
    EraFormulaCountsDays(s.y, s.m, s.d);
    EraFormulaCountsDays(t.y, t.m, t.d);
    FirstMonth(t.y);
    WholeYear(s.y);
    MonthsGrow(s.y, s.m, 12);
    MonthsGrow(t.y, 1, t.m);
    if s.y < t.y { YearsGrow(s.y + 1, t.y); }
    else if s.m < t.m { MonthsGrow(s.y, s.m, t.m); }
  }

  /** Seconds since the epoch of a timestamp with an explicit zone. */
  function Seconds(y: int, m: int, d: int, h: int, mi: int, se: int, offset: int): int {
    TimestampDays(y, m, d) * 86400 + h * 3600 + mi * 60 + se - offset
  }

  predicate ValidTime(h: int, mi: int, se: int) { 0 <= h <= 23 && 0 <= mi <= 59 && 0 <= se <= 59 }

  /** Two zoned timestamps with the same offset are the same instant only if all their fields agree. */
  lemma {:induction false} SecondsInjective(
    s: Date, t: Date, h: int, mi: int, se: int, h': int, mi': int, se': int, offset: int)
    requires Valid(s.y, s.m, s.d) && Valid(t.y, t.m, t.d) && ValidTime(h, mi, se) && ValidTime(h', mi', se')
    requires Seconds(s.y, s.m, s.d, h, mi, se, offset) == Seconds(t.y, t.m, t.d, h', mi', se', offset)
    ensures s == t && h == h' && mi == mi' && se == se'
  {
    EraFormulaCountsDays(s.y, s.m, s.d);
    EraFormulaCountsDays(t.y, t.m, t.d);
    OrderPreserving(s, t);
    hide TimestampDays, OracleDays, CountedDays;
    var a, b := TimestampDays(s.y, s.m, s.d), TimestampDays(t.y, t.m, t.d);
    assert (a - b) * 86400 == (h' - h) * 3600 + (mi' - mi) * 60 + (se' - se);
    assert a == b;
  }

  /** The offset is how far the local clock is ahead of UTC: a local time at that offset is the instant of the UTC time
      earlier by it, on the day before where that passes midnight and on the day after for clocks behind UTC. */
  lemma {:induction false} OffsetIsAhead(s: Date, h: int, mi: int, se: int, ahead: int)
    requires Valid(s.y, s.m, s.d) && ValidTime(h, mi, se) && -24 < ahead < 24
    ensures var n := NextDay(s); var local, utc := h + ahead, h;
      && (0 <= local <= 23 ==>
            Seconds(s.y, s.m, s.d, local, mi, se, ahead * 3600) == Seconds(s.y, s.m, s.d, utc, mi, se, 0))
      && (24 <= local ==>
            Seconds(n.y, n.m, n.d, local - 24, mi, se, ahead * 3600) == Seconds(s.y, s.m, s.d, utc, mi, se, 0))
  {
    NextDayIsOneMore(s);
    EraFormulaCountsDays(s.y, s.m, s.d);
    var n := NextDay(s);
    EraFormulaCountsDays(n.y, n.m, n.d);
    hide TimestampDays, OracleDays, CountedDays, NextDay;
  }

  lemma {:induction false} OffsetIsBehind(s: Date, h: int, mi: int, se: int, behind: int)
    requires Valid(s.y, s.m, s.d) && ValidTime(h, mi, se) && 0 <= behind < 24 && h < behind
    ensures var n := NextDay(s);
      Seconds(s.y, s.m, s.d, h + 24 - behind, mi, se, -behind * 3600) == Seconds(n.y, n.m, n.d, h, mi, se, 0)
  {
    NextDayIsOneMore(s);
    EraFormulaCountsDays(s.y, s.m, s.d);
    var n := NextDay(s);
    EraFormulaCountsDays(n.y, n.m, n.d);
    hide TimestampDays, OracleDays, CountedDays, NextDay;
  }

  /** Midnight UTC of the first of January 1970 is second zero, and a second later is one more. */
  lemma {:induction false} SecondsCountFromEpoch(h: int, mi: int, se: int)
    ensures Seconds(1970, 1, 1, h, mi, se, 0) == 3600 * h + 60 * mi + se
  {
    EpochIsZero();
  }
}
