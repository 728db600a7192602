/** Civil-date arithmetic of the chain report (src/eth/report.rs): dates are turned
    into Unix days without a date library. */
module Calendar {
  import opened Common

  /** Division of signed integers as the source language does it: toward zero. */
  function TruncDiv(a: int, b: int): int
    requires b > 0
  {
    if a >= 0 then a / b else -((-a) / b)
  }

  predicate IsLeapYear(y: int) { (y % 4 == 0 && y % 100 != 0) || y % 400 == 0 }

  function DaysInMonth(y: int, m: nat): nat {
    if m == 2 then (if IsLeapYear(y) then 29 else 28)
    else if m == 4 || m == 6 || m == 9 || m == 11 then 30
    else if 1 <= m <= 12 then 31
    else 0
  }

  function Era(y: int): int { TruncDiv(if y >= 0 then y else y - 399, 400) }

  function DaysFromCivil(y: int, m: nat, d: nat): int {
    var y' := if m <= 2 then y - 1 else y;
    var era := Era(y');
    var yoe := y' - era * 400;
    var mp := (m + 9) % 12;
    var doy := (153 * mp + 2) / 5 + d - 1;
    var doe := yoe * 365 + yoe / 4 - yoe / 100 + doy;
    era * 146_097 + doe - 719_468
  }

  datatype Date = Date(y: int, m: nat, d: nat)

  predicate Valid(x: Date) { 1 <= x.m <= 12 && 1 <= x.d <= DaysInMonth(x.y, x.m) }

  function Days(x: Date): int { DaysFromCivil(x.y, x.m, x.d) }

  /** The calendar's own successor. */
  function NextDay(x: Date): Date {
    if x.d < DaysInMonth(x.y, x.m) then x.(d := x.d + 1)
    else if x.m < 12 then Date(x.y, x.m + 1, 1)
    else Date(x.y + 1, 1, 1)
  }

  lemma EraFloors(y: int)
    ensures Era(y) == y / 400 && 0 <= y - Era(y) * 400 < 400
  {
  }

  /** Days from the era origin to March 1 of the year numbered `y`. */
  function MarchFirst(y: int): int {
    var era := y / 400;
    var yoe := y % 400;
    era * 146_097 + yoe * 365 + yoe / 4 - yoe / 100
  }

  function MonthStart(m: nat): int { (153 * ((m + 9) % 12) + 2) / 5 }

  lemma DaysSplit(x: Date)
    ensures Days(x) == MarchFirst(if x.m <= 2 then x.y - 1 else x.y) + MonthStart(x.m) + x.d - 1 - 719_468
  {
    EraFloors(if x.m <= 2 then x.y - 1 else x.y);
  }

  /** The year that starts in March is a leap year exactly when its February is. */
  lemma MarchYear(y: int)
    ensures MarchFirst(y + 1) == MarchFirst(y) + (if IsLeapYear(y + 1) then 366 else 365)
  {
    var era, yoe := y / 400, y % 400;
    if yoe < 399 {
      assert (y + 1) / 400 == era && (y + 1) % 400 == yoe + 1;
      LeapWithinEra(y + 1, era, yoe + 1);
    } else {
      assert (y + 1) / 400 == era + 1 && (y + 1) % 400 == 0;
    }
  }

  lemma Shift4(a: int, b: int)
    ensures (4 * a + b) % 4 == b % 4
  {
  }

  lemma Shift100(a: int, b: int)
    ensures (100 * a + b) % 100 == b % 100
  {
  }

  lemma Shift400(a: int, b: int)
    requires 0 <= b < 400
    ensures (400 * a + b) % 400 == b
  {
  }

  lemma LeapWithinEra(y: int, era: int, yoe: int)
    requires y == 400 * era + yoe && 0 < yoe < 400
    ensures IsLeapYear(y) <==> yoe % 4 == 0 && yoe % 100 != 0
  {
    Shift4(100 * era, yoe);
    Shift100(4 * era, yoe);
    Shift400(era, yoe);
  }

  lemma MonthSteps(y: int, m: nat)
    requires 1 <= m <= 12 && m != 2
    ensures MonthStart(m % 12 + 1) == MonthStart(m) + DaysInMonth(y, m)
  {
    match m
    case 1 =>
    case 3 =>
    case 4 =>
    case 5 =>
    case 6 =>
    case 7 =>
    case 8 =>
    case 9 =>
    case 10 =>
    case 11 =>
    case 12 =>
  }

  lemma NextInMonth(x: Date)
    ensures Days(x.(d := x.d + 1)) == Days(x) + 1
  {
  }

  /** The first day of the month after `x`'s. */
  function MonthAfter(x: Date): Date { Date(if x.m == 12 then x.y + 1 else x.y, x.m % 12 + 1, 1) }

  lemma NextMonth(x: Date)
    requires 1 <= x.m <= 12 && x.m != 2
    ensures Days(MonthAfter(x)) == Days(x) + DaysInMonth(x.y, x.m) + 1 - x.d
  {
    var y := if x.m <= 2 then x.y - 1 else x.y;
    var n := MonthAfter(x);
    assert (if n.m <= 2 then n.y - 1 else n.y) == y;
    calc {
      Days(n);
    == { DaysSplit(n); }
      MarchFirst(y) + MonthStart(n.m) - 719_468;
    == { MonthSteps(x.y, x.m); }
      MarchFirst(y) + MonthStart(x.m) + DaysInMonth(x.y, x.m) - 719_468;
    == { DaysSplit(x); }
      Days(x) + DaysInMonth(x.y, x.m) + 1 - x.d;
    }
  }

  lemma FebruaryEnd(x: Date)
    requires x.m == 2
    ensures Days(MonthAfter(x)) == Days(x) + DaysInMonth(x.y, x.m) + 1 - x.d
  {
    assert MonthAfter(x) == Date(x.y, 3, 1);
    assert MonthStart(2) == 337 && MonthStart(3) == 0;
    FebruaryTail(MarchFirst(x.y - 1), MarchFirst(x.y), x.y) by { MarchYear(x.y - 1); }
    DaysSplit(x);
    DaysSplit(Date(x.y, 3, 1));
  }

  lemma FebruaryTail(a: int, b: int, y: int)
    requires b == a + (if IsLeapYear(y) then 366 else 365)
    ensures b == a + 337 + DaysInMonth(y, 2)
  {
  }

  lemma MonthLength(x: Date)
    requires 1 <= x.m <= 12
    ensures Days(MonthAfter(x)) == Days(x) + DaysInMonth(x.y, x.m) + 1 - x.d
  {
    if x.m == 2 { FebruaryEnd(x); } else { NextMonth(x); }
  }

  /** The conversion counts days: each valid date's successor is the next integer,
      in every year of the proleptic Gregorian calendar. */
  lemma NextDayIsNext(x: Date)
    requires Valid(x)
    ensures Valid(NextDay(x)) && Days(NextDay(x)) == Days(x) + 1
  {
    if x.d < DaysInMonth(x.y, x.m) {
      NextInMonth(x);
    } else {
      assert NextDay(x) == MonthAfter(x);
      MonthLength(x);
    }
  }

  lemma EpochIsZero()
    ensures Days(Date(1970, 1, 1)) == 0
  {
  }

  // ----- order -----

  predicate Before(a: Date, b: Date) {
    a.y < b.y || (a.y == b.y && (a.m < b.m || (a.m == b.m && a.d < b.d)))
  }

  /** The start of month `n`, counting months from year 0. */
  function MonthDate(n: int): Date { Date(n / 12, n % 12 + 1, 1) }

  function MonthIndex(x: Date): int { x.y * 12 + x.m - 1 }

  lemma MonthStep(n: int)
    ensures Days(MonthDate(n)) < Days(MonthDate(n + 1))
  {
    assert MonthAfter(MonthDate(n)) == MonthDate(n + 1);
    MonthLength(MonthDate(n));
  }

  lemma {:induction false} StepsGrow(f: int -> int, n: int, k: nat)
    requires forall i :: f(i) < f(i + 1)
    ensures f(n) + k <= f(n + k)
  {
    if k > 0 {
      StepsGrow(f, n, k - 1);
      assert f(n + k - 1) < f(n + k - 1 + 1);
    }
  }

  lemma MonthsGrow(n: int, k: nat)
    ensures Days(MonthDate(n)) + k <= Days(MonthDate(n + k))
  {
    var f := (i: int) => Days(MonthDate(i));
    forall i ensures f(i) < f(i + 1) { MonthStep(i); }
    StepsGrow(f, n, k);
  }

  lemma {:induction false} DayOfMonth(x: Date, k: nat)
    ensures Days(x.(d := x.d + k)) == Days(x) + k
  {
    if k > 0 {
      DayOfMonth(x, k - 1);
      NextInMonth(x.(d := x.d + k - 1));
    }
  }

  lemma InMonth(x: Date)
    requires Valid(x)
    ensures Days(x) == Days(MonthDate(MonthIndex(x))) + x.d - 1
    ensures Days(x) < Days(MonthDate(MonthIndex(x) + 1))
  {
    assert MonthDate(MonthIndex(x)) == Date(x.y, x.m, 1);
    DayOfMonth(Date(x.y, x.m, 1), x.d - 1);
    assert MonthAfter(x) == MonthDate(MonthIndex(x) + 1);
    MonthLength(x);
  }

  /** Strictly monotone on the dates `parse_time_arg` accepts. */
  lemma DaysMonotone(a: Date, b: Date)
    requires Valid(a) && Valid(b)
    ensures Before(a, b) <==> Days(a) < Days(b)
    ensures a == b <==> Days(a) == Days(b)
  {
    if Before(a, b) { DaysGrow(a, b); }
    if Before(b, a) { DaysGrow(b, a); }
  }

  lemma DaysGrow(a: Date, b: Date)
    requires Valid(a) && Valid(b) && Before(a, b)
    ensures Days(a) < Days(b)
  {
    if a.y == b.y && a.m == b.m {
      DayOfMonth(a, b.d - a.d);
      assert a.(d := a.d + (b.d - a.d)) == b;
    } else {
      MonthsApart(a, b);
    }
  }

  lemma MonthsApart(a: Date, b: Date)
    requires Valid(a) && Valid(b) && MonthIndex(a) < MonthIndex(b)
    ensures Days(a) < Days(b)
  {
    calc {
      Days(a);
    < { InMonth(a); }
      Days(MonthDate(MonthIndex(a) + 1));
    <= { MonthsGrow(MonthIndex(a) + 1, MonthIndex(b) - MonthIndex(a) - 1); }
      Days(MonthDate(MonthIndex(b)));
    <= { InMonth(b); }
      Days(b);
    }
  }

  // ----- times -----

  datatype Time = Time(date: Date, hh: nat, mm: nat, ss: nat)

  predicate ValidTime(t: Time) { Valid(t.date) && t.hh <= 23 && t.mm <= 59 && t.ss <= 59 }

  /** The last step of `parse_time_arg`, on the fields it parsed: rejected fields
      and instants before the epoch are errors. */
  function UnixTime(t: Time): Option<nat> {
    if !ValidTime(t) then None else
      var secs := Days(t.date) * 86_400 + t.hh * 3600 + t.mm * 60 + t.ss;
      if secs < 0 then None else Some(secs)
  }

  function TimeOfDay(t: Time): nat { t.hh * 3600 + t.mm * 60 + t.ss }

  predicate Earlier(a: Time, b: Time) {
    || Before(a.date, b.date)
    || (a.date == b.date && (a.hh < b.hh || (a.hh == b.hh && (a.mm < b.mm || (a.mm == b.mm && a.ss < b.ss)))))
  }

  /** Strictly monotone in (date, time), accepted exactly from the epoch on. */
  lemma UnixTimeMonotone(a: Time, b: Time)
    requires ValidTime(a) && ValidTime(b)
    ensures UnixTime(a).Some? <==> !Before(a.date, Date(1970, 1, 1))
    ensures UnixTime(a).Some? && UnixTime(b).Some? ==> (Earlier(a, b) <==> UnixTime(a).value < UnixTime(b).value)
  {
    EpochIsZero();
    DaysMonotone(a.date, Date(1970, 1, 1));
    DaysMonotone(a.date, b.date);
    assert TimeOfDay(a) < 86_400 && TimeOfDay(b) < 86_400;
  }

  /** The clock's own successor. */
  function NextSecond(t: Time): Time {
    if t.ss < 59 then t.(ss := t.ss + 1)
    else if t.mm < 59 then t.(mm := t.mm + 1, ss := 0)
    else if t.hh < 23 then t.(hh := t.hh + 1, mm := 0, ss := 0)
    else Time(NextDay(t.date), 0, 0, 0)
  }

  /** The timestamp counts the seconds since the epoch. */
  lemma NextSecondIsNext(t: Time)
    requires ValidTime(t) && UnixTime(t).Some?
    ensures ValidTime(NextSecond(t)) && UnixTime(NextSecond(t)) == Some(UnixTime(t).value + 1)
    ensures UnixTime(Time(Date(1970, 1, 1), 0, 0, 0)) == Some(0)
  {
    EpochIsZero();
    if NextSecond(t).date == t.date {
      assert TimeOfDay(NextSecond(t)) == TimeOfDay(t) + 1;
    } else {
      NextDayIsNext(t.date);
      assert TimeOfDay(t) == 86_399;
    }
  }

  // ----- 64-bit arithmetic -----

  const I64_MIN: int := -0x8000_0000_0000_0000
  const I64_MAX: int := 0x7FFF_FFFF_FFFF_FFFF
  const TWO_64: int := 0x1_0000_0000_0000_0000

  /** The value a 64-bit signed result holds when overflow wraps around. */
  function Wrap(n: int): int { (n - I64_MIN) % TWO_64 + I64_MIN }

  /** `n` and its wrapped value differ by a multiple of 2^64. */
  lemma WrapQuotient(n: int) returns (k: int)
    ensures n == Wrap(n) + k * TWO_64
  {
    k := (n - I64_MIN) / TWO_64;
  }

  lemma WrapShift(n: int, k: int)
    ensures Wrap(n + k * TWO_64) == Wrap(n)
  {
    var q := WrapQuotient(n);
    var r := WrapQuotient(n + k * TWO_64);
    var d := q + k - r;
    assert Wrap(n + k * TWO_64) - Wrap(n) == d * TWO_64;
    assert d == 0;
  }

  /** A sum or product of a wrapped value wraps to the same as of the value. */
  lemma WrapLinear(n: int, m: int, c: int)
    ensures Wrap(Wrap(n) * m + c) == Wrap(n * m + c)
  {
    var k := WrapQuotient(n);
    assert n * m + c == Wrap(n) * m + c + (k * m) * TWO_64;
    WrapShift(Wrap(n) * m + c, k * m);
  }

  /** `days_from_civil` and the seconds of `parse_time_arg` with every 64-bit result
      wrapped, as in a build without overflow checks; one with them panics where a
      result does not fit. */
  function CodeDays(x: Date): int {
    var y := if x.m <= 2 then x.y - 1 else x.y;
    var yoe := y - Era(y) * 400;
    var doy := (153 * ((x.m + 9) % 12) + 2) / 5 + x.d - 1;
    var doe := yoe * 365 + yoe / 4 - yoe / 100 + doy;
    Wrap(Wrap(Era(y) * 146_097) + (doe - 719_468))
  }

  function Seconds(t: Time): int { Days(t.date) * 86_400 + TimeOfDay(t) }

  function CodeSeconds(t: Time): int { Wrap(Wrap(CodeDays(t.date) * 86_400) + TimeOfDay(t)) }

  function CodeUnixTime(t: Time): Option<nat> {
    if !ValidTime(t) || CodeSeconds(t) < 0 then None else Some(CodeSeconds(t))
  }

  lemma CodeDaysWraps(x: Date)
    ensures CodeDays(x) == Wrap(Days(x))
  {
    var y := if x.m <= 2 then x.y - 1 else x.y;
    var yoe := y - Era(y) * 400;
    var doy := (153 * ((x.m + 9) % 12) + 2) / 5 + x.d - 1;
    var doe := yoe * 365 + yoe / 4 - yoe / 100 + doy;
    WrapLinear(Era(y) * 146_097, 1, doe - 719_468);
  }

  lemma CodeSecondsWrap(t: Time)
    ensures CodeSeconds(t) == Wrap(Seconds(t))
  {
    CodeDaysWraps(t.date);
    WrapLinear(Days(t.date), 86_400, 0);
    WrapLinear(Days(t.date) * 86_400, 1, TimeOfDay(t));
  }

  lemma WrapInRange(n: int)
    ensures I64_MIN <= Wrap(n) <= I64_MAX
    ensures I64_MIN <= n <= I64_MAX ==> Wrap(n) == n
  {
  }

  /** The code computes the time meant exactly if its seconds fit 64 bits: of all
      instants from `I64_MIN` seconds on, those up to `I64_MAX`. */
  lemma CodeTimeIff(t: Time)
    requires ValidTime(t) && I64_MIN <= Seconds(t)
    ensures CodeUnixTime(t) == UnixTime(t) <==> Seconds(t) <= I64_MAX
  {
    CodeSecondsWrap(t);
    WrapInRange(Seconds(t));
  }

  /** Within that range the code is strictly monotone. */
  lemma CodeTimeMonotone(a: Time, b: Time)
    requires ValidTime(a) && ValidTime(b) && I64_MIN <= Seconds(a) <= I64_MAX && I64_MIN <= Seconds(b) <= I64_MAX
    ensures CodeUnixTime(a).Some? <==> !Before(a.date, Date(1970, 1, 1))
    ensures CodeUnixTime(a).Some? && CodeUnixTime(b).Some? ==>
      (Earlier(a, b) <==> CodeUnixTime(a).value < CodeUnixTime(b).value)
  {
    CodeTimeIff(a);
    CodeTimeIff(b);
    UnixTimeMonotone(a, b);
  }

  /** Of the accepted instants past that range, those within the next 2^63 seconds
      are taken for instants before the epoch and rejected. */
  lemma LateInstantIsRejected(t: Time)
    requires ValidTime(t) && I64_MAX < Seconds(t) < TWO_64
    ensures UnixTime(t).Some? && CodeUnixTime(t).None?
  {
    CodeSecondsWrap(t);
    assert Wrap(Seconds(t)) == Seconds(t) - TWO_64 by { WrapShift(Seconds(t) - TWO_64, 1); }
  }

  /** The first day of the year 300000000000 is such an instant. */
  lemma FarYearIsLate()
    ensures Valid(Date(300_000_000_000, 1, 1)) && I64_MAX < Days(Date(300_000_000_000, 1, 1)) * 86_400 < TWO_64
  {
    assert Era(299_999_999_999) == 749_999_999;
    assert Days(Date(300_000_000_000, 1, 1)) == 109_572_749_280_472;
  }
}
