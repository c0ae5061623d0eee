/**
 Days since the Unix epoch as Gregorian dates, and their canonical text: section 5.7 and appendix C of
 RFC 3339.
 */
module Calendar {
  import opened DiscoveryDomain

  const MAX_SIGNED_64: int := 0x7FFF_FFFF_FFFF_FFFF
  const DAYS_TO_EPOCH: int := 719_468
  const DAYS_PER_ERA: int := 146_097

  datatype Date = Date(year: int, month: int, day: int)

  // ----- The calendar, independently of the conversion -----

  predicate IsLeap(year: int) {
    year % 400 == 0 || (year % 4 == 0 && year % 100 != 0)
  }

  /** 0 for what is no month. */
  function DaysInMonth(year: int, month: int): nat {
    if month in {1, 3, 5, 7, 8, 10, 12} then 31
    else if month in {4, 6, 9, 11} then 30
    else if month == 2 then (if IsLeap(year) then 29 else 28)
    else 0
  }

  predicate IsDate(d: Date) {
    1 <= d.month <= 12 && 1 <= d.day <= DaysInMonth(d.year, d.month)
  }

  /** The next day of the calendar. */
  function NextDay(d: Date): Date {
    if d.day < DaysInMonth(d.year, d.month) then d.(day := d.day + 1)
    else if d.month < 12 then Date(d.year, d.month + 1, 1)
    else Date(d.year + 1, 1, 1)
  }

  predicate Earlier(a: Date, b: Date) {
    a.year < b.year || (a.year == b.year && (a.month < b.month || (a.month == b.month && a.day < b.day)))
  }

  lemma NextDayIsLater(d: Date)
    requires IsDate(d)
    ensures IsDate(NextDay(d)) && Earlier(d, NextDay(d))
  {
  }

  // ----- The conversion -----

  function YearOfEra(dayOfEra: int): int {
    (dayOfEra - dayOfEra / 1_460 + dayOfEra / 36_524 - dayOfEra / 146_096) / 365
  }

  function MonthPrime(dayOfYear: int): int {
    (5 * dayOfYear + 2) / 153
  }

  function MonthStart(monthPrime: int): int {
    (153 * monthPrime + 2) / 5
  }

  /** The date in a year that starts on the first of March. */
  function MarchDate(year: int, dayOfYear: int): Date {
    var monthPrime := MonthPrime(dayOfYear);
    var day := dayOfYear - MonthStart(monthPrime) + 1;
    var month := if monthPrime < 10 then monthPrime + 3 else monthPrime - 9;
    Date(if month <= 2 then year + 1 else year, month, day)
  }

  function YearDays(year: int): int {
    365 * year + year / 4 - year / 100
  }

  /** Fails only where shifting the epoch leaves the 64-bit range. */
  function CivilFromDays(days: int): Option<Date> {
    if days + DAYS_TO_EPOCH > MAX_SIGNED_64 then None
    else
      var shifted := days + DAYS_TO_EPOCH;
      var era, dayOfEra := shifted / DAYS_PER_ERA, shifted % DAYS_PER_ERA;
      var yearOfEra := YearOfEra(dayOfEra);
      Some(MarchDate(yearOfEra + era * 400, dayOfEra - YearDays(yearOfEra)))
  }

  // ----- Years -----

  /** The first day of a year within its era, counting years from March. */
  function YearStart(year: int): int {
    365 * year + year / 4 - year / 100 + year / 400
  }

  lemma FourthsStep(n: int)
    ensures (n + 1) / 4 == n / 4 + (if (n + 1) % 4 == 0 then 1 else 0)
  {
  }

  lemma HundredthsStep(n: int)
    ensures (n + 1) / 100 == n / 100 + (if (n + 1) % 100 == 0 then 1 else 0)
    ensures (n + 1) % 100 == 0 ==> (n + 1) % 4 == 0
  {
  }

  lemma FourHundredthsStep(n: int)
    ensures (n + 1) / 400 == n / 400 + (if (n + 1) % 400 == 0 then 1 else 0)
    ensures (n + 1) % 400 == 0 ==> (n + 1) % 100 == 0
  {
  }

  lemma YearLength(year: int)
    ensures YearStart(year + 1) - YearStart(year) == if IsLeap(year + 1) then 366 else 365
  {
    FourthsStep(year);
    HundredthsStep(year);
    FourHundredthsStep(year);
  }

  lemma {:induction false} YearsAscend(a: int, b: int)
    requires a < b
    ensures YearStart(a) + 365 <= YearStart(b)
    decreases b - a
  {
    YearLength(b - 1);
    if a < b - 1 {
      YearsAscend(a, b - 1);
    }
  }

  /** A day of the era by century, four-year cycle, year and day. */
  predicate Splits(dayOfEra: int, century: int, cycle: int, rest: int, day: int) {
    && dayOfEra == 36_524 * century + 1_461 * cycle + 365 * rest + day
    && 0 <= century <= 3 && 0 <= cycle <= 24 && 0 <= rest <= 3 && 0 <= day <= 365
    && (day == 365 ==> rest == 3)
    && (cycle == 24 && rest == 3 && day == 365 ==> century == 3)
  }

  lemma SplitDay(dayOfEra: int) returns (century: int, cycle: int, rest: int, day: int)
    requires 0 <= dayOfEra < DAYS_PER_ERA
    ensures Splits(dayOfEra, century, cycle, rest, day)
  {
    century := if dayOfEra / 36_524 < 3 then dayOfEra / 36_524 else 3;
    var inCentury := dayOfEra - 36_524 * century;
    assert 0 <= inCentury <= 36_524 && (inCentury == 36_524 ==> century == 3);
    cycle := inCentury / 1_461;
    var inCycle := inCentury - 1_461 * cycle;
    assert 0 <= inCycle <= 1_460 && cycle <= 24;
    rest := if inCycle / 365 < 3 then inCycle / 365 else 3;
    day := inCycle - 365 * rest;
  }

  lemma SplitYear(century: int, cycle: int, rest: int)
    requires 0 <= century <= 3 && 0 <= cycle <= 24 && 0 <= rest <= 3
    ensures var year := 100 * century + 4 * cycle + rest;
            && 0 <= year <= 399 && year / 4 == 25 * century + cycle && year / 100 == century && year / 400 == 0
            && YearStart(year) == 36_524 * century + 1_461 * cycle + 365 * rest
  {
  }

  lemma SplitFormula(dayOfEra: int, century: int, cycle: int, rest: int, day: int)
    requires 0 <= dayOfEra < DAYS_PER_ERA && Splits(dayOfEra, century, cycle, rest, day)
    ensures YearOfEra(dayOfEra) == 100 * century + 4 * cycle + rest
  {
    var carried := if 24 * century + cycle + 365 * rest + day >= 1_460 then 1 else 0;
    assert dayOfEra == 1_460 * (25 * century + cycle) + (24 * century + cycle + 365 * rest + day);
    assert dayOfEra / 1_460 == 25 * century + cycle + carried;
    assert dayOfEra / 36_524 - dayOfEra / 146_096 == century;
    var year := 100 * century + 4 * cycle + rest;
    assert 0 <= day - carried <= 364;
    assert dayOfEra - dayOfEra / 1_460 + dayOfEra / 36_524 - dayOfEra / 146_096 == 365 * year + (day - carried);
  }

  /** Only leap years end in a day 365. */
  lemma SplitLeapYear(century: int, cycle: int)
    requires 0 <= century <= 3 && 0 <= cycle <= 24 && (cycle == 24 ==> century == 3)
    ensures IsLeap(100 * century + 4 * cycle + 3 + 1)
  {
  }

  /** The division formula finds the year a day of the era falls into. */
  lemma YearOfEraIsYear(dayOfEra: int)
    requires 0 <= dayOfEra < DAYS_PER_ERA
    ensures 0 <= YearOfEra(dayOfEra) <= 399
    ensures YearStart(YearOfEra(dayOfEra)) <= dayOfEra < YearStart(YearOfEra(dayOfEra) + 1)
  {
    hide YearOfEra, YearStart, IsLeap;
    var century, cycle, rest, day := SplitDay(dayOfEra);
    SplitYear(century, cycle, rest);
    SplitFormula(dayOfEra, century, cycle, rest, day);
    YearLength(100 * century + 4 * cycle + rest);
    if day == 365 {
      SplitLeapYear(century, cycle);
    }
  }

  lemma YearIsUnique(dayOfEra: int, a: int, b: int)
    requires YearStart(a) <= dayOfEra < YearStart(a + 1) && YearStart(b) <= dayOfEra < YearStart(b + 1)
    ensures a == b
  {
  }

  // ----- Months -----

  /** The twelve months from March on, and where the days fall. */
  lemma MonthOfDay(dayOfYear: int)
    requires 0 <= dayOfYear <= 365
    ensures 0 <= MonthPrime(dayOfYear) <= 11
    ensures MonthStart(MonthPrime(dayOfYear)) <= dayOfYear
    ensures MonthPrime(dayOfYear) < 11 ==> dayOfYear < MonthStart(MonthPrime(dayOfYear) + 1)
  {
  }

  lemma MonthIsUnique(dayOfYear: int, monthPrime: int)
    requires 0 <= dayOfYear <= 365 && 0 <= monthPrime <= 11
    requires MonthStart(monthPrime) <= dayOfYear
    requires monthPrime < 11 ==> dayOfYear < MonthStart(monthPrime + 1)
    ensures MonthPrime(dayOfYear) == monthPrime
  {
  }

  /** Every month but the last, February, is as long as the calendar says. */
  lemma MonthLength(year: int, monthPrime: int)
    requires 0 <= monthPrime <= 10
    ensures var month := if monthPrime < 10 then monthPrime + 3 else monthPrime - 9;
            MonthStart(monthPrime + 1) - MonthStart(monthPrime) == DaysInMonth(year, month)
  {
  }

  lemma MarchDateIsDate(year: int, dayOfYear: int)
    requires 0 <= dayOfYear < YearStart(year + 1) - YearStart(year)
    ensures IsDate(MarchDate(year, dayOfYear))
  {
    YearLength(year);
    MonthOfDay(dayOfYear);
    var monthPrime := MonthPrime(dayOfYear);
    if monthPrime < 11 {
      MonthLength(if monthPrime < 10 then year else year + 1, monthPrime);
    }
  }

  /** Within a year, the next day has the next date. */
  lemma NextInYear(year: int, dayOfYear: int)
    requires 0 <= dayOfYear && dayOfYear + 1 < YearStart(year + 1) - YearStart(year)
    ensures MarchDate(year, dayOfYear + 1) == NextDay(MarchDate(year, dayOfYear))
  {
    hide YearStart, IsLeap, MonthPrime;
    YearLength(year);
    MonthOfDay(dayOfYear);
    var monthPrime := MonthPrime(dayOfYear);
    if monthPrime < 11 {
      MonthLength(if monthPrime < 10 then year else year + 1, monthPrime);
      if dayOfYear + 1 < MonthStart(monthPrime + 1) {
        MonthIsUnique(dayOfYear + 1, monthPrime);
      } else {
        MonthIsUnique(dayOfYear + 1, monthPrime + 1);
      }
    } else {
      MonthIsUnique(dayOfYear + 1, 11);
    }
  }

  lemma FirstAndLastMonth()
    ensures MonthPrime(0) == 0 && MonthPrime(364) == 11 && MonthPrime(365) == 11
    ensures MonthStart(0) == 0 && MonthStart(11) == 337
  {
  }

  lemma YearEnds(year: int)
    ensures MarchDate(year, 0) == Date(year, 3, 1)
    ensures MarchDate(year, 364) == Date(year + 1, 2, 28) && MarchDate(year, 365) == Date(year + 1, 2, 29)
  {
    hide MonthPrime, MonthStart;
    FirstAndLastMonth();
  }

  /** The last day of a March year is the last of February. */
  lemma NextYear(year: int)
    ensures MarchDate(year + 1, 0) == NextDay(MarchDate(year, YearStart(year + 1) - YearStart(year) - 1))
  {
    hide YearStart, IsLeap, MarchDate;
    YearLength(year);
    YearEnds(year);
    YearEnds(year + 1);
  }

  // ----- Days -----

  lemma EraShift(year: int, era: int)
    ensures YearStart(year + 400 * era) == YearStart(year) + DAYS_PER_ERA * era
  {
    assert (year + 400 * era) / 4 == year / 4 + 100 * era;
    assert (year + 400 * era) / 100 == year / 100 + 4 * era;
    assert (year + 400 * era) / 400 == year / 400 + era;
  }

  lemma FirstEra(year: int)
    requires 0 <= year <= 399
    ensures YearStart(year) == YearDays(year)
  {
  }

  /** The conversion finds the March year that contains the day, and the day within it. */
  lemma ConversionIsYearAndDay(days: int) returns (year: int)
    requires days + DAYS_TO_EPOCH <= MAX_SIGNED_64
    ensures YearStart(year) <= days + DAYS_TO_EPOCH < YearStart(year + 1)
    ensures CivilFromDays(days) == Some(MarchDate(year, days + DAYS_TO_EPOCH - YearStart(year)))
  {
    hide YearOfEra, MarchDate, YearStart, YearDays;
    var shifted := days + DAYS_TO_EPOCH;
    var era, dayOfEra := shifted / DAYS_PER_ERA, shifted % DAYS_PER_ERA;
    var yearOfEra := YearOfEra(dayOfEra);
    YearOfEraIsYear(dayOfEra);
    EraShift(yearOfEra, era);
    EraShift(yearOfEra + 1, era);
    FirstEra(yearOfEra);
    year := yearOfEra + era * 400;
    assert year + 1 == yearOfEra + 1 + 400 * era;
  }

  /** Day 0 is the first of January 1970. */
  lemma EpochIsDayZero()
    ensures CivilFromDays(0) == Some(Date(1970, 1, 1))
  {
    var year := ConversionIsYearAndDay(0);
    YearIsUnique(DAYS_TO_EPOCH, year, 1969);
  }

  /** Every accepted day is a date, and the next day is the next date. */
  lemma NextDayIsNextDate(days: int)
    requires days + 1 + DAYS_TO_EPOCH <= MAX_SIGNED_64
    ensures CivilFromDays(days).Some? && IsDate(CivilFromDays(days).value)
    ensures CivilFromDays(days + 1) == Some(NextDay(CivilFromDays(days).value))
  {
    hide CivilFromDays, MarchDate, NextDay, YearStart, IsDate;
    var shifted := days + DAYS_TO_EPOCH;
    var year := ConversionIsYearAndDay(days);
    var next := ConversionIsYearAndDay(days + 1);
    MarchDateIsDate(year, shifted - YearStart(year));
    if shifted + 1 < YearStart(year + 1) {
      YearIsUnique(shifted + 1, year, next);
      NextInYear(year, shifted - YearStart(year));
    } else {
      YearsAscend(year + 1, year + 2);
      YearIsUnique(shifted + 1, year + 1, next);
      NextYear(year);
    }
  }

  lemma AcceptedIsDate(days: int)
    requires days + DAYS_TO_EPOCH <= MAX_SIGNED_64
    ensures CivilFromDays(days).Some? && IsDate(CivilFromDays(days).value)
  {
    hide CivilFromDays, MarchDate, YearStart, IsDate;
    var year := ConversionIsYearAndDay(days);
    MarchDateIsDate(year, days + DAYS_TO_EPOCH - YearStart(year));
  }

  lemma {:induction false} LaterDaysLaterDates(a: int, b: int)
    requires a < b && b + DAYS_TO_EPOCH <= MAX_SIGNED_64
    ensures CivilFromDays(a).Some? && CivilFromDays(b).Some?
    ensures Earlier(CivilFromDays(a).value, CivilFromDays(b).value)
    decreases b - a
  {
    hide CivilFromDays;
    NextDayIsNextDate(b - 1);
    NextDayIsLater(CivilFromDays(b - 1).value);
    if a < b - 1 {
      LaterDaysLaterDates(a, b - 1);
    }
  }

  /** No two days have the same date. */
  lemma ConversionIsInjective(a: int, b: int)
    requires a + DAYS_TO_EPOCH <= MAX_SIGNED_64 && b + DAYS_TO_EPOCH <= MAX_SIGNED_64
    requires CivilFromDays(a) == CivilFromDays(b)
    ensures a == b
  {
    if a < b {
      LaterDaysLaterDates(a, b);
    } else if b < a {
      LaterDaysLaterDates(b, a);
    }
  }

  // ----- Text -----

  predicate IsDigit(c: char) { '0' <= c <= '9' }

  function Digit(n: nat): char
    requires n < 10
  {
    '0' + n as char
  }

  function Decimal(n: nat): (r: string)
    ensures r != "" && forall i | 0 <= i < |r| :: IsDigit(r[i])
  {
    if n < 10 then [Digit(n)] else Decimal(n / 10) + [Digit(n % 10)]
  }

  function Zeros(n: nat): (r: string)
    ensures |r| == n && forall i | 0 <= i < n :: r[i] == '0'
  {
    if n == 0 then "" else "0" + Zeros(n - 1)
  }

  /** At least `width` digits. */
  function Padded(n: nat, width: nat): (r: string)
    ensures |r| >= width && forall i | 0 <= i < |r| :: IsDigit(r[i])
  {
    if |Decimal(n)| < width then Zeros(width - |Decimal(n)|) + Decimal(n) else Decimal(n)
  }

  function Number(s: string): nat
    requires forall i | 0 <= i < |s| :: IsDigit(s[i])
  {
    if s == "" then 0
    else
      assert IsDigit(s[|s| - 1]);
      Number(s[..|s| - 1]) * 10 + (s[|s| - 1] as int - '0' as int)
  }

  function PowerOfTen(n: nat): nat {
    if n == 0 then 1 else 10 * PowerOfTen(n - 1)
  }

  /** A number takes at most `width` digits exactly if it is below the power of ten. */
  lemma {:induction false} DecimalWidth(n: nat, width: nat)
    requires width > 0
    ensures |Decimal(n)| <= width <==> n < PowerOfTen(width)
    decreases width
  {
    if width == 1 {
      assert PowerOfTen(1) == 10;
    } else if n >= 10 {
      DecimalWidth(n / 10, width - 1);
    } else {
      TenIsPower(width);
    }
  }

  lemma {:induction false} TenIsPower(width: nat)
    requires width > 0
    ensures PowerOfTen(width) >= 10
  {
    if width > 1 {
      TenIsPower(width - 1);
    }
  }

  lemma {:induction false} NumberOfDecimal(n: nat)
    ensures Number(Decimal(n)) == n
  {
    if n < 10 {
      assert Decimal(n)[..0] == "";
    } else {
      NumberOfDecimal(n / 10);
      assert Decimal(n)[..|Decimal(n)| - 1] == Decimal(n / 10);
    }
  }

  lemma {:induction false} LeadingZeros(zeros: nat, digits: string)
    requires forall i | 0 <= i < |digits| :: IsDigit(digits[i])
    ensures Number(Zeros(zeros) + digits) == Number(digits)
    decreases |digits|, zeros
  {
    var all := Zeros(zeros) + digits;
    if digits == "" {
      assert all == Zeros(zeros);
      NumberOfZeros(zeros);
    } else {
      var front := digits[..|digits| - 1];
      LeadingZeros(zeros, front);
      assert all[..|all| - 1] == Zeros(zeros) + front;
    }
  }

  lemma {:induction false} NumberOfZeros(zeros: nat)
    ensures Number(Zeros(zeros)) == 0
  {
    if zeros > 0 {
      var all := Zeros(zeros);
      NumberOfZeros(zeros - 1);
      assert all[..zeros - 1] == Zeros(zeros - 1);
    }
  }

  /** Padding fits its width exactly for numbers that are small enough, and reads back as the number. */
  lemma PaddedReadsBack(n: nat, width: nat)
    requires width > 0
    ensures |Padded(n, width)| == width <==> n < PowerOfTen(width)
    ensures Number(Padded(n, width)) == n
  {
    DecimalWidth(n, width);
    NumberOfDecimal(n);
    if |Decimal(n)| < width {
      LeadingZeros(width - |Decimal(n)|, Decimal(n));
    }
  }

  // ----- Timestamps -----

  datatype Clock = Clock(seconds: nat, nanoseconds: nat)

  function TimestampOf(date: Date, secondsOfDay: nat, nanoseconds: nat): string
    requires 0 <= date.year && 0 <= date.month && 0 <= date.day
  {
    Padded(date.year, 4) + "-" + Padded(date.month, 2) + "-" + Padded(date.day, 2) + "T"
    + Padded(secondsOfDay / 3_600, 2) + ":" + Padded(secondsOfDay % 3_600 / 60, 2) + ":"
    + Padded(secondsOfDay % 60, 2) + "." + Padded(nanoseconds, 9) + "Z"
  }

  /** The text of a clock reading at or after the epoch. */
  function CurrentTimestamp(clock: Clock): Option<string> {
    var date := CivilFromDays(clock.seconds / 86_400);
    if date.None? || date.value.year < 0 || date.value.month < 0 || date.value.day < 0 then None
    else Some(TimestampOf(date.value, clock.seconds % 86_400, clock.nanoseconds))
  }

  const LENGTH: nat := 30

  predicate HasShape(value: string) {
    && |value| == LENGTH
    && value[4] == '-' && value[7] == '-' && value[10] == 'T' && value[13] == ':' && value[16] == ':'
    && value[19] == '.' && value[29] == 'Z'
    && (forall i | 0 <= i < LENGTH && i !in {4, 7, 10, 13, 16, 19, 29} :: IsDigit(value[i]))
  }

  /** The canonical form: 30 characters, and numbers that name a date and a time of day. */
  predicate IsCanonical(value: string) {
    && HasShape(value)
    && var year, month, day := Number(value[0..4]), Number(value[5..7]), Number(value[8..10]);
       && year != 0 && 0 < day <= DaysInMonth(year, month)
       && Number(value[11..13]) <= 23 && Number(value[14..16]) <= 59 && Number(value[17..19]) <= 59
  }

  /** Where the pieces of a timestamp with a four-digit year lie. */
  lemma Pieces(a: string, b: string, c: string, d: string, e: string, f: string, g: string)
    requires |a| == 4 && |b| == |c| == |d| == |e| == |f| == 2 && |g| == 9
    ensures var v := a + "-" + b + "-" + c + "T" + d + ":" + e + ":" + f + "." + g + "Z";
            && |v| == LENGTH && v[0..4] == a && v[5..7] == b && v[8..10] == c && v[11..13] == d
            && v[14..16] == e && v[17..19] == f && v[20..29] == g
            && v[4] == '-' && v[7] == '-' && v[10] == 'T' && v[13] == ':' && v[16] == ':'
            && v[19] == '.' && v[29] == 'Z'
  {
  }

  lemma PiecesHaveShape(v: string)
    requires |v| == LENGTH
    requires v[4] == '-' && v[7] == '-' && v[10] == 'T' && v[13] == ':' && v[16] == ':' && v[19] == '.' && v[29] == 'Z'
    requires forall i | 0 <= i < 4 :: IsDigit(v[0..4][i])
    requires forall i | 0 <= i < 2 ::
               IsDigit(v[5..7][i]) && IsDigit(v[8..10][i]) && IsDigit(v[11..13][i])
               && IsDigit(v[14..16][i]) && IsDigit(v[17..19][i])
    requires forall i | 0 <= i < 9 :: IsDigit(v[20..29][i])
    ensures HasShape(v)
  {
    forall i | 0 <= i < LENGTH && i !in {4, 7, 10, 13, 16, 19, 29} ensures IsDigit(v[i]) {
      if i < 4 {
        assert IsDigit(v[0..4][i]);
      } else if i < 7 {
        assert IsDigit(v[5..7][i - 5]);
      } else if i < 10 {
        assert IsDigit(v[8..10][i - 8]);
      } else if i < 13 {
        assert IsDigit(v[11..13][i - 11]);
      } else if i < 16 {
        assert IsDigit(v[14..16][i - 14]);
      } else if i < 19 {
        assert IsDigit(v[17..19][i - 17]);
      } else {
        assert IsDigit(v[20..29][i - 20]);
      }
    }
  }

  lemma SmallPowers()
    ensures PowerOfTen(2) == 100 && PowerOfTen(4) == 10_000 && PowerOfTen(9) == 1_000_000_000
  {
  }

  /** Hours, minutes and seconds make up the second of the day again. */
  lemma TimeOfDay(secondsOfDay: nat)
    ensures 3_600 * (secondsOfDay / 3_600) + 60 * (secondsOfDay % 3_600 / 60) + secondsOfDay % 60 == secondsOfDay
  {
  }

  /** A date in the first ten thousand years prints to canonical text that reads back as that date and time. */
  lemma PrintedIsCanonical(date: Date, secondsOfDay: nat, nanoseconds: nat)
    requires IsDate(date) && 1 <= date.year <= 9_999 && secondsOfDay < 86_400 && nanoseconds < 1_000_000_000
    ensures IsCanonical(TimestampOf(date, secondsOfDay, nanoseconds))
    ensures var v := TimestampOf(date, secondsOfDay, nanoseconds);
            && Number(v[0..4]) == date.year && Number(v[5..7]) == date.month && Number(v[8..10]) == date.day
            && 3_600 * Number(v[11..13]) + 60 * Number(v[14..16]) + Number(v[17..19]) == secondsOfDay
            && Number(v[20..29]) == nanoseconds
  {
    hide Padded, Number, PowerOfTen;
    SmallPowers();
    TimeOfDay(secondsOfDay);
    var hour, minute, second := secondsOfDay / 3_600, secondsOfDay % 3_600 / 60, secondsOfDay % 60;
    PaddedReadsBack(date.year, 4);
    PaddedReadsBack(date.month, 2);
    PaddedReadsBack(date.day, 2);
    PaddedReadsBack(hour, 2);
    PaddedReadsBack(minute, 2);
    PaddedReadsBack(second, 2);
    PaddedReadsBack(nanoseconds, 9);
    Pieces(
      Padded(date.year, 4), Padded(date.month, 2), Padded(date.day, 2), Padded(hour, 2), Padded(minute, 2),
      Padded(second, 2), Padded(nanoseconds, 9));
    PiecesHaveShape(TimestampOf(date, secondsOfDay, nanoseconds));
  }

  /** A later year makes the text too long. */
  lemma LongYearIsNotCanonical(date: Date, secondsOfDay: nat, nanoseconds: nat)
    requires IsDate(date) && date.year > 9_999
    ensures !IsCanonical(TimestampOf(date, secondsOfDay, nanoseconds))
  {
    hide Padded, Number, PowerOfTen;
    SmallPowers();
    PaddedReadsBack(date.year, 4);
  }

  /** The first second after the year 9999, and its day. */
  const FIRST_LONG_SECOND: nat := 253_402_300_800
  const FIRST_LONG_DAY: nat := 2_932_897

  lemma FirstLongDay()
    ensures CivilFromDays(FIRST_LONG_DAY) == Some(Date(10_000, 1, 1))
  {
    hide CivilFromDays;
    var year := ConversionIsYearAndDay(FIRST_LONG_DAY);
    YearIsUnique(FIRST_LONG_DAY + DAYS_TO_EPOCH, year, 9_999);
  }

  lemma LastShortDay()
    ensures CivilFromDays(FIRST_LONG_DAY - 1) == Some(Date(9_999, 12, 31))
  {
    hide CivilFromDays;
    var year := ConversionIsYearAndDay(FIRST_LONG_DAY - 1);
    YearIsUnique(FIRST_LONG_DAY - 1 + DAYS_TO_EPOCH, year, 9_999);
  }

  /** The days whose year has four digits are those before the first of January 10000. */
  lemma ShortYearsEnd(days: nat)
    requires days + DAYS_TO_EPOCH <= MAX_SIGNED_64
    ensures CivilFromDays(days).Some? && (CivilFromDays(days).value.year <= 9_999 <==> days < FIRST_LONG_DAY)
  {
    hide CivilFromDays;
    AcceptedIsDate(days);
    FirstLongDay();
    LastShortDay();
    if days < FIRST_LONG_DAY - 1 {
      LaterDaysLaterDates(days, FIRST_LONG_DAY - 1);
    } else if days > FIRST_LONG_DAY {
      LaterDaysLaterDates(FIRST_LONG_DAY, days);
    }
  }

  /** The text names the day, the time of day and the nanosecond of the reading. */
  predicate ReadsAs(value: string, clock: Clock)
    requires IsCanonical(value)
  {
    && CivilFromDays(clock.seconds / 86_400)
       == Some(Date(Number(value[0..4]), Number(value[5..7]), Number(value[8..10])))
    && 3_600 * Number(value[11..13]) + 60 * Number(value[14..16]) + Number(value[17..19]) == clock.seconds % 86_400
    && Number(value[20..29]) == clock.nanoseconds
  }

  /** What the clock writes passes validation, and names the reading, exactly up to the last second of the year 9999. */
  lemma TimestampsPassValidation(clock: Clock)
    requires clock.nanoseconds < 1_000_000_000
    ensures CurrentTimestamp(clock).Some? <==> clock.seconds / 86_400 + DAYS_TO_EPOCH <= MAX_SIGNED_64
    ensures CurrentTimestamp(clock).Some? ==>
              var v := CurrentTimestamp(clock).value;
              && (IsCanonical(v) <==> clock.seconds < FIRST_LONG_SECOND)
              && (IsCanonical(v) ==> ReadsAs(v, clock))
  {
    hide TimestampOf, IsCanonical, Number;
    var days := clock.seconds / 86_400;
    if days + DAYS_TO_EPOCH <= MAX_SIGNED_64 {
      YearsOfClock(days);
      ShortYearsEnd(days);
      var date := CivilFromDays(days).value;
      if date.year <= 9_999 {
        PrintedIsCanonical(date, clock.seconds % 86_400, clock.nanoseconds);
      } else {
        LongYearIsNotCanonical(date, clock.seconds % 86_400, clock.nanoseconds);
      }
    }
  }

  lemma ShortIsWritten(clock: Clock)
    requires clock.seconds < FIRST_LONG_SECOND
    ensures clock.seconds / 86_400 + DAYS_TO_EPOCH <= MAX_SIGNED_64
  {
  }

  /** Different readings have different texts. */
  lemma TimestampsAreDistinct(a: Clock, b: Clock)
    requires a.nanoseconds < 1_000_000_000 && b.nanoseconds < 1_000_000_000
    requires a.seconds < FIRST_LONG_SECOND && b.seconds < FIRST_LONG_SECOND
    requires CurrentTimestamp(a) == CurrentTimestamp(b)
    ensures a == b
  {
    hide CurrentTimestamp, IsCanonical, CivilFromDays, Number;
    ShortIsWritten(a);
    TimestampsPassValidation(a);
    TimestampsPassValidation(b);
    ConversionIsInjective(a.seconds / 86_400, b.seconds / 86_400);
  }

  /** The first reading whose text its own validation refuses. */
  lemma LongYearIsRefused()
    ensures var clock := Clock(FIRST_LONG_SECOND, 0);
            CurrentTimestamp(clock).Some? && !IsCanonical(CurrentTimestamp(clock).value)
  {
    hide IsCanonical, CurrentTimestamp;
    TimestampsPassValidation(Clock(FIRST_LONG_SECOND, 0));
  }

  lemma YearsOfClock(days: nat)
    requires days + DAYS_TO_EPOCH <= MAX_SIGNED_64
    ensures CivilFromDays(days).Some? && IsDate(CivilFromDays(days).value) && CivilFromDays(days).value.year >= 1970
  {
    hide CivilFromDays;
    AcceptedIsDate(days);
    EpochIsDayZero();
    if days > 0 {
      LaterDaysLaterDates(0, days);
    }
  }
}
