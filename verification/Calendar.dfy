/**
 Calendar months of the candle engine (src/bars.rs): the civil-day algorithms against the proleptic
 Gregorian calendar of section 3.2.1 of ISO 8601:2004.
 */
module Calendar {
  import opened Ints

  const SECONDS_PER_DAY: nat := 86_400
  const DAYS_PER_ERA: nat := 146_097
  const EPOCH_SHIFT: nat := 719_468
  const I32_MAX: int := 0x7FFF_FFFF

  // ---- The calendar ----

  datatype Date = Date(year: int, month: nat, day: nat)

  predicate Leap(year: int) {
    year % 4 == 0 && (year % 100 != 0 || year % 400 == 0)
  }

  function MonthLength(year: int, month: nat): nat {
    if month == 2 then (if Leap(year) then 29 else 28)
    else if month == 4 || month == 6 || month == 9 || month == 11 then 30
    else 31
  }

  predicate ValidDate(d: Date) {
    1 <= d.month <= 12 && 1 <= d.day <= MonthLength(d.year, d.month)
  }

  function NextDay(d: Date): Date {
    if d.day < MonthLength(d.year, d.month) then d.(day := d.day + 1)
    else if d.month < 12 then Date(d.year, d.month + 1, 1)
    else Date(d.year + 1, 1, 1)
  }

  // ---- The algorithms ----

  /** Integer division of Rust, which rounds towards zero. */
  function TruncDiv(a: int, b: int): int
    requires b > 0
  {
    if a >= 0 then a / b else -((-a) / b)
  }

  /** `x as i32`. */
  function Wrap32(x: int): int {
    (x + 0x8000_0000) % 0x1_0000_0000 - 0x8000_0000
  }

  function Era(z: int): int {
    TruncDiv(if z >= 0 then z else z - 146_096, DAYS_PER_ERA)
  }

  function DayOfEra(z: int): int {
    z - Era(z) * DAYS_PER_ERA
  }

  function YearOfEra(doe: int): int {
    (doe - doe / 1460 + doe / 36524 - doe / 146_096) / 365
  }

  function DayOfYear(doe: int, yoe: int): int {
    doe - (365 * yoe + yoe / 4 - yoe / 100)
  }

  function MonthStartDay(mp: int): int {
    (153 * mp + 2) / 5
  }

  /** The date of a day of a year that starts in March. */
  function FromMarch(y: int, doy: int): (int, int, int) {
    var mp := (5 * doy + 2) / 153;
    var m := if mp < 10 then mp + 3 else mp - 9;
    (if m <= 2 then y + 1 else y, m, doy - MonthStartDay(mp) + 1)
  }

  /** The March-based year of a day number, and the day in it. */
  function YearOf(z: int): int {
    YearOfEra(DayOfEra(z + EPOCH_SHIFT)) + Era(z + EPOCH_SHIFT) * 400
  }

  function DayInYear(z: int): int {
    var doe := DayOfEra(z + EPOCH_SHIFT);
    DayOfYear(doe, YearOfEra(doe))
  }

  /** `civil_from_days` before its year is narrowed to 32 bits. */
  function CivilWide(z: int): (int, int, int) {
    FromMarch(YearOf(z), DayInYear(z))
  }

  function CivilFromDays(z: int): (int, int, int) {
    var c := CivilWide(z);
    (Wrap32(c.0), c.1, c.2)
  }

  function DaysFromMarchYear(y: int, month: int, day: int): int {
    var era := TruncDiv(if y >= 0 then y else y - 399, 400);
    var yoe := y - era * 400;
    var doy := MonthStartDay(if month > 2 then month - 3 else month + 9) + day - 1;
    var doe := yoe * 365 + yoe / 4 - yoe / 100 + doy;
    era * DAYS_PER_ERA + doe - EPOCH_SHIFT
  }

  /** The subtraction on the 32-bit year wraps. */
  function DaysFromCivil(year: int, month: int, day: int): Option<int> {
    if !(1 <= month <= 12) || !(1 <= day <= 31) then None
    else Some(DaysFromMarchYear(if month <= 2 then Wrap32(year - 1) else year, month, day))
  }

  /** `x as u64` for a day count, then the saturating product. */
  function DaysToSeconds(days: int): u64 {
    var unsigned := days % TWO_64;
    if unsigned * SECONDS_PER_DAY <= U64_MAX then unsigned * SECONDS_PER_DAY else U64_MAX
  }

  function CalendarMonthStartUtc(ts: u64): Option<u64> {
    var c := CivilFromDays(ts / SECONDS_PER_DAY);
    match DaysFromCivil(c.0, c.1, 1)
    case None => None
    case Some(days) => Some(DaysToSeconds(days))
  }

  // ---- Years that start in March ----

  /** Days before the March-based year `y`, counted from year 0. */
  function YearDays(y: int): int {
    365 * y + y / 4 - y / 100 + y / 400
  }

  lemma EraSplit(y: int)
    ensures var era := TruncDiv(if y >= 0 then y else y - 399, 400);
            && era == y / 400
            && YearDays(y) == era * DAYS_PER_ERA + 365 * (y % 400) + (y % 400) / 4 - (y % 400) / 100
  {
    var e, r := y / 400, y % 400;
    assert y / 4 == 100 * e + r / 4;
    assert y / 100 == 4 * e + r / 100;
  }

  lemma Next4(y: int)
    ensures (y + 1) / 4 - y / 4 == if (y + 1) % 4 == 0 then 1 else 0
  {
  }

  lemma Next100(y: int)
    ensures (y + 1) / 100 - y / 100 == if (y + 1) % 100 == 0 then 1 else 0
  {
  }

  lemma Next400(y: int)
    ensures (y + 1) / 400 - y / 400 == if (y + 1) % 400 == 0 then 1 else 0
  {
  }

  lemma Of400(k: int)
    ensures (400 * k) % 100 == 0
  {
  }

  lemma Of100(k: int)
    ensures (100 * k) % 4 == 0
  {
  }

  lemma Hundreds(z: int)
    requires z % 400 == 0
    ensures z % 100 == 0
  {
    var k := z / 400;
    assert z == 400 * k;
    Of400(k);
  }

  lemma Fours(z: int)
    requires z % 100 == 0
    ensures z % 4 == 0
  {
    var k := z / 100;
    assert z == 100 * k;
    Of100(k);
  }

  lemma YearLength(y: int)
    ensures YearDays(y + 1) - YearDays(y) == if Leap(y + 1) then 366 else 365
  {
    Next4(y);
    Next100(y);
    Next400(y);
    if (y + 1) % 100 == 0 {
      Fours(y + 1);
    }
    if (y + 1) % 400 == 0 {
      Hundreds(y + 1);
    }
  }

  lemma {:induction false} YearsMonotone(a: int, b: int)
    requires a <= b
    ensures YearDays(a) + 365 * (b - a) <= YearDays(b)
    decreases b - a
  {
    if a < b {
      YearLength(b - 1);
      YearsMonotone(a, b - 1);
    }
  }

  function MarchYear(d: Date): int {
    if d.month <= 2 then d.year - 1 else d.year
  }

  function MarchMonth(month: nat): int {
    if month > 2 then month - 3 else month + 9
  }

  function MarchDay(d: Date): int {
    MonthStartDay(MarchMonth(d.month)) + d.day - 1
  }

  /** Day number of a date, 1970-01-01 being day 0. */
  function Days(d: Date): int {
    YearDays(MarchYear(d)) + MarchDay(d) - EPOCH_SHIFT
  }

  /** The reference counts days as the calendar does. */
  lemma NextDayIsNextNumber(d: Date)
    requires ValidDate(d)
    ensures ValidDate(NextDay(d)) && Days(NextDay(d)) == Days(d) + 1
  {
    if d.day == MonthLength(d.year, d.month) {
      if d.month == 2 {
        AfterFebruary(d);
      } else if d.month == 12 {
        AfterDecember(d);
      } else {
        AfterMonth(d);
      }
    }
  }

  lemma AfterFebruary(d: Date)
    requires d.month == 2 && d.day == MonthLength(d.year, 2)
    ensures Days(Date(d.year, 3, 1)) == Days(d) + 1
  {
    YearLength(d.year - 1);
    assert MonthStartDay(11) == 337 && MonthStartDay(0) == 0;
  }

  lemma AfterDecember(d: Date)
    requires d.month == 12 && d.day == 31
    ensures Days(Date(d.year + 1, 1, 1)) == Days(d) + 1
  {
    assert MonthStartDay(9) == 275 && MonthStartDay(10) == 306;
  }

  lemma AfterMonth(d: Date)
    requires ValidDate(d) && d.month != 2 && d.month < 12 && d.day == MonthLength(d.year, d.month)
    ensures Days(Date(d.year, d.month + 1, 1)) == Days(d) + 1
  {
    MonthStarts(MarchMonth(d.month));
  }

  lemma MonthStarts(mp: int)
    requires 0 <= mp <= 10
    ensures MonthStartDay(mp + 1) - MonthStartDay(mp) == if mp == 1 || mp == 3 || mp == 6 || mp == 8 then 30 else 31
  {
    assert mp == 0 || mp == 1 || mp == 2 || mp == 3 || mp == 4 || mp == 5 || mp == 6 || mp == 7 || mp == 8 || mp == 9 || mp == 10;
  }

  lemma MarchDayInYear(d: Date)
    requires ValidDate(d)
    ensures 0 <= MarchDay(d) < YearDays(MarchYear(d) + 1) - YearDays(MarchYear(d))
  {
    YearLength(MarchYear(d));
    var mp := MarchMonth(d.month);
    assert MonthStartDay(10) == 306 && MonthStartDay(11) == 337 && MonthStartDay(0) == 0;
    if mp < 10 {
      assert 153 * mp <= 153 * 9;
    }
  }

  // ---- From a day number to a date ----

  /** The era's days split into centuries, four-year cycles, years and days. */
  lemma EraDigits(doe: nat) returns (c: nat, q: nat, a: nat, t: nat)
    requires doe < DAYS_PER_ERA
    ensures doe == 36524 * c + 1461 * q + 365 * a + t
    ensures c <= 3 && q <= 24 && a <= 3 && t <= 365
    ensures t == 365 ==> a == 3 && (q == 24 ==> c == 3)
    ensures c < 3 ==> 1461 * q + 365 * a + t < 36524
    ensures YearOfEra(doe) == 100 * c + 4 * q + a
  {
    c := if doe == 146_096 then 3 else doe / 36524;
    var r := doe - 36524 * c;
    assert 0 <= r <= 36524;
    q := r / 1461;
    var s := r - 1461 * q;
    a := if s == 1460 then 3 else s / 365;
    t := s - 365 * a;
    YearDigits(doe, c, q, a, s);
  }

  lemma YearDigits(doe: nat, c: nat, q: nat, a: nat, s: nat)
    requires doe == 36524 * c + 1461 * q + s && doe < DAYS_PER_ERA
    requires c == (if doe == 146_096 then 3 else doe / 36524) && q <= 24 && s <= 1460
    requires a == if s == 1460 then 3 else s / 365
    ensures YearOfEra(doe) == 100 * c + 4 * q + a
  {
    var carry := if 24 * c + q + s >= 1460 then 1 else 0;
    assert doe == 1460 * (25 * c + q) + (24 * c + q + s);
    assert doe / 1460 == 25 * c + q + carry;
    assert doe / 36524 - doe / 146_096 == c;
    assert doe - doe / 1460 + doe / 36524 - doe / 146_096 == 365 * (100 * c + 4 * q) + (s - carry);
    assert (s - carry) / 365 == a;
    assert (365 * (100 * c + 4 * q) + (s - carry)) / 365 == 100 * c + 4 * q + a;
  }

  lemma MonthOfDay(doy: int)
    requires 0 <= doy <= 365
    ensures var mp := (5 * doy + 2) / 153;
            0 <= mp <= 11 && MonthStartDay(mp) <= doy && (mp < 11 ==> doy < MonthStartDay(mp + 1))
  {
  }

  lemma EraOf(z: int)
    ensures Era(z) == z / DAYS_PER_ERA && 0 <= DayOfEra(z) < DAYS_PER_ERA
    ensures Era(z) * DAYS_PER_ERA + DayOfEra(z) == z
  {
  }

  lemma Mod4(k: int)
    ensures (4 * k) % 4 == 0
  {
  }

  lemma Mod100(k: int, r: int)
    requires 0 <= r < 100
    ensures (100 * k + r) % 100 == r
  {
  }

  lemma Mod400(k: int)
    ensures (400 * k) % 400 == 0
  {
  }

  lemma LeapAfter(era: int, c: nat, q: nat)
    requires c <= 3 && q <= 24 && (q == 24 ==> c == 3)
    ensures Leap(100 * c + 4 * q + 4 + era * 400)
  {
    var z := 100 * c + 4 * q + 4 + era * 400;
    Mod4(25 * c + q + 1 + 100 * era);
    assert z == 4 * (25 * c + q + 1 + 100 * era);
    if q == 24 {
      Mod400(era + 1);
      assert z == 400 * (era + 1);
    } else {
      Mod100(4 * era + c, 4 * q + 4);
      assert z == 100 * (4 * era + c) + (4 * q + 4);
    }
  }

  lemma YearDaysOfDigits(era: int, c: nat, q: nat, a: nat)
    requires c <= 3 && q <= 24 && a <= 3
    ensures var yoe := 100 * c + 4 * q + a;
            && yoe / 4 == 25 * c + q && yoe / 100 == c
            && YearDays(yoe + era * 400) == era * DAYS_PER_ERA + 36524 * c + 1461 * q + 365 * a
  {
    var yoe := 100 * c + 4 * q + a;
    var y := yoe + era * 400;
    assert y / 400 == era && y % 400 == yoe;
    EraSplit(y);
  }

  /** The year of the era and the day in it fit the calendar's year lengths. */
  lemma YearOfDay(era: int, doe: nat)
    requires doe < DAYS_PER_ERA
    ensures var y, doy := YearOfEra(doe) + era * 400, DayOfYear(doe, YearOfEra(doe));
            YearDays(y) + doy == era * DAYS_PER_ERA + doe && 0 <= doy < YearDays(y + 1) - YearDays(y)
  {
    var c, q, a, t := EraDigits(doe);
    YearDaysOfDigits(era, c, q, a);
    YearLength(100 * c + 4 * q + a + era * 400);
    if t == 365 {
      LeapAfter(era, c, q);
    }
  }

  lemma SplitDay(z: int)
    ensures YearDays(YearOf(z)) + DayInYear(z) == z + EPOCH_SHIFT
    ensures 0 <= DayInYear(z) < YearDays(YearOf(z) + 1) - YearDays(YearOf(z))
  {
    var shifted := z + EPOCH_SHIFT;
    EraOf(shifted);
    YearOfDay(Era(shifted), DayOfEra(shifted));
  }

  /** A day of a March-based year is a valid date with the expected number. */
  lemma FromMarchIsDate(y: int, doy: int)
    requires 0 <= doy < YearDays(y + 1) - YearDays(y)
    ensures var c := FromMarch(y, doy);
            c.1 >= 0 && c.2 >= 0 && ValidDate(Date(c.0, c.1, c.2))
            && Days(Date(c.0, c.1, c.2)) == YearDays(y) + doy - EPOCH_SHIFT
  {
    YearLength(y);
    MonthOfDay(doy);
    var mp := (5 * doy + 2) / 153;
    if mp < 11 {
      MonthStarts(mp);
    } else {
      assert MonthStartDay(11) == 337;
    }
  }

  /** The date a day number stands for is valid and has that number. */
  lemma CivilIsDate(z: int)
    ensures var c := CivilWide(z);
            c.1 >= 0 && c.2 >= 0 && ValidDate(Date(c.0, c.1, c.2)) && Days(Date(c.0, c.1, c.2)) == z
  {
    SplitDay(z);
    FromMarchIsDate(YearOf(z), DayInYear(z));
  }

  /** The valid date with number `z`; there is exactly one. */
  ghost function Civil(z: int): (d: Date)
    ensures ValidDate(d) && Days(d) == z
  {
    CivilIsDate(z);
    var d :| ValidDate(d) && Days(d) == z;
    d
  }

  /** The algorithm computes the calendar's date. */
  lemma CivilWideIsCivil(z: int)
    ensures CivilWide(z) == (Civil(z).year, Civil(z).month, Civil(z).day)
  {
    CivilIsDate(z);
    var c := CivilWide(z);
    DaysInjective(Date(c.0, c.1, c.2), Civil(z));
  }

  lemma MonthStartsOrdered(a: int, b: int)
    requires 0 <= a < b <= 11
    ensures MonthStartDay(a) + 30 <= MonthStartDay(b)
  {
    assert 153 * b >= 153 * (a + 1);
  }

  /** Dates of an earlier March-based year have smaller numbers. */
  lemma EarlierYear(d: Date, e: Date)
    requires ValidDate(d) && ValidDate(e) && MarchYear(d) < MarchYear(e)
    ensures Days(d) < Days(e)
  {
    MarchDayInYear(d);
    MarchDayInYear(e);
    YearsMonotone(MarchYear(d) + 1, MarchYear(e));
  }

  /** Different valid dates have different numbers. */
  lemma DaysInjective(d: Date, e: Date)
    requires ValidDate(d) && ValidDate(e) && Days(d) == Days(e)
    ensures d == e
  {
    if MarchYear(d) < MarchYear(e) {
      EarlierYear(d, e);
    } else if MarchYear(e) < MarchYear(d) {
      EarlierYear(e, d);
    } else {
      SameMarchDay(d, e);
    }
  }

  lemma SameMarchDay(d: Date, e: Date)
    requires ValidDate(d) && ValidDate(e) && MarchYear(d) == MarchYear(e) && MarchDay(d) == MarchDay(e)
    ensures d == e
  {
    var a, b := MarchMonth(d.month), MarchMonth(e.month);
    if a < b {
      MonthEnds(d, b);
    } else if b < a {
      MonthEnds(e, a);
    }
    assert a == b;
  }

  /** The last day of a month comes before the first day of any later month of the March-based year. */
  lemma MonthEnds(d: Date, later: int)
    requires ValidDate(d) && MarchMonth(d.month) < later <= 11
    ensures MarchDay(d) < MonthStartDay(later)
  {
    var a := MarchMonth(d.month);
    MonthStarts(a);
    if a + 1 < later {
      MonthStartsOrdered(a + 1, later);
    }
  }

  /** Every valid date is found from its number. */
  lemma CivilOfDays(d: Date)
    requires ValidDate(d)
    ensures Civil(Days(d)) == d
  {
    DaysInjective(Civil(Days(d)), d);
  }

  /** The algorithm walks the calendar: day 0 is 1970-01-01 and each number is the next day. */
  lemma CivilIsCalendar(z: int)
    ensures Civil(0) == Date(1970, 1, 1)
    ensures Civil(z + 1) == NextDay(Civil(z))
  {
    assert Days(Date(1970, 1, 1)) == 0;
    CivilOfDays(Date(1970, 1, 1));
    NextDayIsNextNumber(Civil(z));
    CivilOfDays(NextDay(Civil(z)));
  }

  // ---- Narrowing the year ----

  /** The March-based year survives the two 32-bit steps. */
  predicate YearFits(d: Date) {
    -0x8000_0000 <= MarchYear(d) <= I32_MAX
  }

  /** The last day whose March-based year fits, 2147483648-02-29 of the calendar, and its last second. */
  const LAST_FITTING_DAY: nat := 784_351_576_836
  const LAST_CALENDAR_SECOND: nat := 67_767_976_238_716_799

  lemma LimitDays()
    ensures YearDays(I32_MAX + 1) - EPOCH_SHIFT == LAST_FITTING_DAY + 1 && YearDays(0) - EPOCH_SHIFT < 0
  {
  }

  /** A March-based year starts after every day of the years before it. */
  lemma BeforeYear(d: Date, year: int)
    requires ValidDate(d)
    ensures MarchYear(d) < year <==> Days(d) < YearDays(year) - EPOCH_SHIFT
  {
    MarchDayInYear(d);
    if MarchYear(d) < year {
      YearsMonotone(MarchYear(d) + 1, year);
    } else {
      YearsMonotone(year, MarchYear(d));
    }
  }

  /** For days from 1970 on the year fits up to a fixed day. */
  lemma YearFitsIff(z: nat)
    ensures YearFits(Civil(z)) <==> z <= LAST_FITTING_DAY
  {
    LimitDays();
    BeforeYear(Civil(z), I32_MAX + 1);
    BeforeYear(Civil(z), 0);
  }

  lemma NarrowedYear(d: Date)
    requires ValidDate(d)
    ensures (if d.month <= 2 then Wrap32(Wrap32(d.year) - 1) else Wrap32(d.year)) == Wrap32(MarchYear(d))
    ensures Wrap32(MarchYear(d)) == MarchYear(d) <==> YearFits(d)
  {
  }

  /** After narrowing, a date is counted in the wrapped March-based year. */
  lemma NarrowedDays(d: Date)
    requires ValidDate(d)
    ensures DaysFromCivil(Wrap32(d.year), d.month, d.day) ==
            Some(DaysFromMarchYear(Wrap32(MarchYear(d)), d.month, d.day))
  {
    NarrowedYear(d);
  }

  lemma NarrowedCivil(z: int)
    ensures CivilFromDays(z) == (Wrap32(Civil(z).year), Civil(z).month, Civil(z).day)
  {
    CivilWideIsCivil(z);
  }

  /** `days_from_civil` inverts `civil_from_days` exactly when the March-based year fits 32 bits. */
  lemma RoundTripIff(z: int)
    ensures var c := CivilFromDays(z);
            DaysFromCivil(c.0, c.1, c.2) == Some(z) <==> YearFits(Civil(z))
  {
    var d := Civil(z);
    NarrowedCivil(z);
    NarrowedDays(d);
    NarrowedYear(d);
    WrappedDays(d, Wrap32(MarchYear(d)));
  }

  /** Another March-based year puts the same month and day on another number. */
  lemma WrappedDays(d: Date, y: int)
    requires ValidDate(d)
    ensures DaysFromMarchYear(y, d.month, d.day) == YearDays(y) + MarchDay(d) - EPOCH_SHIFT
    ensures DaysFromMarchYear(y, d.month, d.day) == Days(d) <==> y == MarchYear(d)
  {
    EraSplit(y);
    if y < MarchYear(d) {
      YearsMonotone(y, MarchYear(d));
    } else {
      YearsMonotone(MarchYear(d), y);
    }
  }

  // ---- First of the month ----

  /** The first day of the month of a day. */
  ghost function FirstDay(z: int): (f: int)
    ensures f == z - (Civil(z).day - 1) && Civil(f) == Civil(z).(day := 1)
  {
    CivilOfDays(Civil(z).(day := 1));
    Days(Civil(z).(day := 1))
  }

  /** No other day of the month up to `z` is a first day. */
  lemma NoFirstBetween(z: int, x: int)
    requires FirstDay(z) < x <= z
    ensures Civil(x).day != 1
  {
    var d := Civil(z).(day := Civil(z).day - (z - x));
    CivilOfDays(d);
    assert Days(d) == x;
  }

  ghost predicate IsMonthStart(ts: int) {
    ts % SECONDS_PER_DAY == 0 && Civil(ts / SECONDS_PER_DAY).day == 1
  }

  /** Midnight of the first day of the month that contains `ts`. */
  ghost function MonthStart(ts: u64): int {
    SECONDS_PER_DAY * FirstDay(ts / SECONDS_PER_DAY)
  }

  lemma MidnightOf(day: int)
    ensures (SECONDS_PER_DAY * day) % SECONDS_PER_DAY == 0 && (SECONDS_PER_DAY * day) / SECONDS_PER_DAY == day
  {
  }

  /** The month start is the greatest first-of-month instant at or before `ts`. */
  lemma MonthStartIsGreatest(ts: u64, other: int)
    ensures MonthStart(ts) <= ts && IsMonthStart(MonthStart(ts))
    ensures IsMonthStart(other) && other <= ts ==> other <= MonthStart(ts)
  {
    var z, x := ts / SECONDS_PER_DAY, other / SECONDS_PER_DAY;
    MidnightOf(FirstDay(z));
    if IsMonthStart(other) && other <= ts {
      assert x <= z;
      if x > FirstDay(z) {
        NoFirstBetween(z, x);
      }
    }
  }

  /** The epoch itself starts a month, so month starts are never negative. */
  lemma MonthStartNotNegative(ts: u64)
    ensures 0 <= MonthStart(ts) <= U64_MAX
  {
    CivilIsCalendar(0);
    assert IsMonthStart(0);
    MonthStartIsGreatest(ts, 0);
  }

  /** Month starts do not move backwards, and a month start is its own. */
  lemma MonthStartMonotone(ts: u64, later: u64)
    requires ts <= later
    ensures MonthStart(ts) <= MonthStart(later)
    ensures 0 <= MonthStart(ts) <= U64_MAX && MonthStart(MonthStart(ts)) == MonthStart(ts)
  {
    MonthStartNotNegative(ts);
    MonthStartIsGreatest(ts, 0);
    MonthStartIsGreatest(later, MonthStart(ts));
    MonthStartIsGreatest(MonthStart(ts), MonthStart(ts));
  }

  lemma SecondsDistinguish(days: int, actual: int)
    requires 0 <= actual * SECONDS_PER_DAY <= U64_MAX && -TWO_63 <= days < TWO_63
    ensures DaysToSeconds(days) == actual * SECONDS_PER_DAY <==> days == actual
  {
    assert U64_MAX % SECONDS_PER_DAY != 0;
  }

  /** The narrowed March-based year gives a day count far inside 64 bits. */
  lemma WrappedRange(d: Date)
    requires ValidDate(d)
    ensures -TWO_63 <= DaysFromMarchYear(Wrap32(MarchYear(d)), d.month, 1) < TWO_63
  {
    var y := Wrap32(MarchYear(d));
    WrappedDays(d.(day := 1), y);
    MarchDayInYear(d.(day := 1));
    YearLength(MarchYear(d));
    assert -0x8000_0000 <= y <= I32_MAX;
  }

  lemma LastSecond(ts: u64)
    ensures ts / SECONDS_PER_DAY <= LAST_FITTING_DAY <==> ts <= LAST_CALENDAR_SECOND
  {
  }

  /** The first of the month of `z`, counted in the narrowed year. */
  ghost function NarrowedFirst(z: int): int {
    var d := Civil(z).(day := 1);
    DaysFromMarchYear(Wrap32(MarchYear(d)), d.month, 1)
  }

  lemma CodeMonthStart(ts: u64)
    ensures CalendarMonthStartUtc(ts) == Some(DaysToSeconds(NarrowedFirst(ts / SECONDS_PER_DAY)))
  {
    NarrowedCivil(ts / SECONDS_PER_DAY);
    NarrowedDays(Civil(ts / SECONDS_PER_DAY).(day := 1));
  }

  lemma NarrowedFirstIff(z: int)
    ensures NarrowedFirst(z) == FirstDay(z) <==> YearFits(Civil(z))
    ensures -TWO_63 <= NarrowedFirst(z) < TWO_63
  {
    var d := Civil(z).(day := 1);
    NarrowedYear(d);
    WrappedRange(d);
    WrappedDays(d, Wrap32(MarchYear(d)));
  }

  /** The code returns the month start exactly up to the last second of the last year that fits 32 bits. */
  lemma CalendarMonthStartIff(ts: u64)
    ensures CalendarMonthStartUtc(ts) == Some(MonthStart(ts)) <==> ts <= LAST_CALENDAR_SECOND
  {
    var z := ts / SECONDS_PER_DAY;
    CodeMonthStart(ts);
    NarrowedFirstIff(z);
    YearFitsIff(z);
    LastSecond(ts);
    MonthStartNotNegative(ts);
    SecondsDistinguish(NarrowedFirst(z), FirstDay(z));
  }
}
