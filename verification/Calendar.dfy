/** The dates of daily log files (common/logger/writer.rs). */
module Calendar {
  import opened Common
  import opened Indexing

  datatype Date = Date(year: nat, month: nat, day: nat)

  /** The conversion of a day number, counted from 1970-01-01, by eras of 400 years that begin on 1 March. */
  function DaysToYmd(days: nat): Date {
    var z := days + 719468;
    var era := z / 146097;
    var doe := z - era * 146097;
    var yoe := (doe - doe / 1460 + doe / 36524 - doe / 146096) / 365;
    var y := yoe + era * 400;
    var doy := doe - (365 * yoe + yoe / 4 - yoe / 100);
    var mp := (5 * doy + 2) / 153;
    var d := doy - (153 * mp + 2) / 5 + 1;
    var m := if mp < 10 then mp + 3 else mp - 9;
    Date(if m <= 2 then y + 1 else y, m, d)
  }

  // ---------------------------------------------------------------- the calendar itself

  predicate Leap(year: nat) { year % 4 == 0 && (year % 100 != 0 || year % 400 == 0) }

  function MonthLength(year: nat, month: nat): nat {
    if month == 2 then (if Leap(year) then 29 else 28)
    else if month == 4 || month == 6 || month == 9 || month == 11 then 30
    else 31
  }

  predicate Valid(date: Date) { 1 <= date.month <= 12 && 1 <= date.day <= MonthLength(date.year, date.month) }

  function NextDay(date: Date): Date {
    if date.day < MonthLength(date.year, date.month) then date.(day := date.day + 1)
    else if date.month < 12 then Date(date.year, date.month + 1, 1)
    else Date(date.year + 1, 1, 1)
  }

  /** The date of a day, by counting on from 1970-01-01. */
  function DateOf(days: nat): Date {
    if days == 0 then Date(1970, 1, 1) else NextDay(DateOf(days - 1))
  }

  function YearLength(year: nat): nat { if Leap(year) then 366 else 365 }

  function DaysBeforeYear(year: nat): nat {
    if year <= 1970 then 0 else DaysBeforeYear(year - 1) + YearLength(year - 1)
  }

  function DaysBeforeMonth(year: nat, month: nat): nat {
    if month <= 1 then 0 else DaysBeforeMonth(year, month - 1) + MonthLength(year, month - 1)
  }

  /** The ordinary day count: whole years, whole months, then days. */
  function DayCount(date: Date): int {
    DaysBeforeYear(date.year) + DaysBeforeMonth(date.year, date.month) + date.day - 1
  }

  // ---------------------------------------------------------------- the era arithmetic

  /** The March year a date falls in, and the day of that year. */
  function MarchYear(date: Date): int { if date.month <= 2 then date.year - 1 else date.year }

  function MarchMonth(date: Date): int { if date.month <= 2 then date.month + 9 else date.month - 3 }

  function MarchDay(date: Date): int { (153 * MarchMonth(date) + 2) / 5 + date.day - 1 }

  function YearStart(yoe: int): int { 365 * yoe + yoe / 4 - yoe / 100 }

  /** Days from the start of era 0 to the start of a March year, and to a date. */
  function EraStart(y: int): int { y / 400 * 146097 + YearStart(y % 400) }

  function EraDays(date: Date): int { EraStart(MarchYear(date)) + MarchDay(date) }

  /** The conversion takes day `doe` of the era to its year `yoe`. */
  ghost predicate IsYearOf(doe: int, yoe: int) {
    forall w :: Look(w) ==> 0 <= doe < 146097 && (doe - doe / 1460 + doe / 36524 - doe / 146096) / 365 == yoe
  }

  /** The year of the era is recovered from the day of the era. */
  lemma YearOfEra(yoe: int, doy: int)
    requires 0 <= yoe < 400 && 0 <= doy <= 365
    requires doy == 365 ==> (yoe + 1) % 4 == 0 && ((yoe + 1) % 100 != 0 || yoe == 399)
    ensures IsYearOf(YearStart(yoe) + doy, yoe)
  {
    CenturyOfDay(yoe, doy);
    YearOfDay(yoe / 100, yoe / 4, yoe % 4, doy);
  }

  lemma CenturyOfDay(yoe: int, doy: int)
    requires 0 <= yoe < 400 && 0 <= doy <= 365
    requires doy == 365 ==> (yoe + 1) % 4 == 0 && ((yoe + 1) % 100 != 0 || yoe == 399)
    ensures var doe := YearStart(yoe) + doy;
            0 <= doe < 146097 && doe / 36524 - doe / 146096 == yoe / 100
  {
    var doe, q := YearStart(yoe) + doy, yoe % 100;
    assert doe == 36524 * (yoe / 100) + 365 * q + q / 4 + doy;
    if doe == 146096 { assert yoe == 399; }
  }

  lemma YearOfDay(century: int, quad: int, s: int, doy: int)
    requires 0 <= century <= quad < 100 && 0 <= s < 4 && 0 <= doy <= 365 && (doy == 365 ==> s == 3)
    ensures var doe := 1460 * quad + 365 * s + quad - century + doy; (doe - doe / 1460 + century) / 365 == 4 * quad + s
  {
    var doe := 1460 * quad + 365 * s + quad - century + doy;
    var late := if 365 * s + quad - century + doy >= 1460 then 1 else 0;
    assert doe / 1460 == quad + late;
  }

  /** The month and day are recovered from the day of the March year. */
  lemma MonthOfYear(date: Date)
    requires Valid(date)
    ensures 0 <= MarchDay(date) <= 365
    ensures MarchDay(date) == 365 ==> date.month == 2 && date.day == 29
    ensures (5 * MarchDay(date) + 2) / 153 == MarchMonth(date)
  {
    var m := date.month;
    if m == 1 {} else if m == 2 {} else if m == 3 {} else if m == 4 {} else if m == 5 {} else if m == 6 {
    } else if m == 7 {} else if m == 8 {} else if m == 9 {} else if m == 10 {} else if m == 11 {} else {}
  }

  lemma ConversionByParts(days: nat, era: nat, yoe: nat, doy: nat, mp: nat, d: nat)
    requires yoe < 400 && mp < 12
    requires days + 719468 == era * 146097 + (YearStart(yoe) + doy) && IsYearOf(YearStart(yoe) + doy, yoe)
    requires (5 * doy + 2) / 153 == mp && doy == (153 * mp + 2) / 5 + d - 1
    ensures var y := era * 400 + yoe;
            DaysToYmd(days) == if mp < 10 then Date(y, mp + 3, d) else Date(y + 1, mp - 9, d)
  {
    assert Look(0);
    assert (days + 719468) / 146097 == era;
  }

  /** Whether a year is a leap year depends on its place in the era. */
  lemma EraShift(era: nat, v: nat)
    ensures Leap(400 * era + v) <==> Leap(v)
  {
    ModShift(100 * era, v, 4);
    ModShift(4 * era, v, 100);
    ModShift(era, v, 400);
  }

  lemma ModShift(q: nat, v: nat, d: nat)
    requires d > 0
    ensures (q * d + v) % d == v % d
  {
    if q > 0 {
      assert q * d == (q - 1) * d + d;
      ModShift(q - 1, v, d);
      ModStep((q - 1) * d + v, d);
    }
  }

  lemma ModStep(x: nat, d: nat)
    requires d > 0
    ensures (x + d) % d == x % d
  {
    assert x + d == d * (x / d + 1) + x % d;
    DivUnique(x + d, d, x / d + 1, x % d);
  }

  lemma LeapInEra(y: nat)
    requires Leap(y + 1)
    ensures var yoe := y % 400; (yoe + 1) % 4 == 0 && ((yoe + 1) % 100 != 0 || yoe == 399)
  {
    EraShift(y / 400, y % 400 + 1);
  }

  /** The conversion inverts the count of days by eras. */
  lemma ConversionInvertsEraDays(date: Date, days: nat)
    requires Valid(date) && date.year >= 1 && EraDays(date) == days + 719468
    ensures DaysToYmd(days) == date
  {
    var y, doy := MarchYear(date), MarchDay(date);
    MonthOfYear(date);
    if doy == 365 { LeapInEra(y); }
    YearOfEra(y % 400, doy);
    ConversionFromMarch(days, y, doy, MarchMonth(date), date.day);
  }

  lemma ConversionFromMarch(days: nat, y: nat, doy: nat, mp: nat, d: nat)
    requires mp < 12 && days + 719468 == EraStart(y) + doy
    requires IsYearOf(YearStart(y % 400) + doy, y % 400)
    requires (5 * doy + 2) / 153 == mp && doy == (153 * mp + 2) / 5 + d - 1
    ensures DaysToYmd(days) == if mp < 10 then Date(y, mp + 3, d) else Date(y + 1, mp - 9, d)
  {
    ConversionByParts(days, y / 400, y % 400, doy, mp, d);
  }

  lemma YearStep(y: nat)
    ensures EraStart(y + 1) == EraStart(y) + 365 + if Leap(y + 1) then 1 else 0
  {
    var era, yoe := y / 400, y % 400;
    EraShift(era, yoe + 1);
    if yoe == 399 {
      DivUnique(y + 1, 400, era + 1, 0);
    } else {
      DivUnique(y + 1, 400, era, yoe + 1);
      YearStartStep(yoe);
    }
  }

  lemma YearStartStep(yoe: nat)
    requires yoe < 399
    ensures YearStart(yoe + 1) == YearStart(yoe) + 365 + if Leap(yoe + 1) then 1 else 0
  {
  }

  /** Counting by eras goes up by one from each day to the next. */
  lemma EraDaysNext(date: Date)
    requires Valid(date) && date.year >= 1
    ensures Valid(NextDay(date)) && EraDays(NextDay(date)) == EraDays(date) + 1
  {
    if date.month == 2 {
      FebruaryNext(date);
      YearStep(MarchYear(date));
    } else {
      MarchDayNext(date);
    }
    EraSum(MarchYear(date), MarchDay(date), MarchYear(NextDay(date)), MarchDay(NextDay(date)));
  }

  lemma EraSum(y: nat, d: int, y': nat, d': int)
    requires (y' == y && d' == d + 1) || (y' == y + 1 && d' == 0 && EraStart(y + 1) == EraStart(y) + d + 1)
    ensures EraStart(y') + d' == EraStart(y) + d + 1
  {
  }

  lemma FebruaryNext(date: Date)
    requires Valid(date) && date.month == 2 && date.year >= 1
    ensures Valid(NextDay(date))
    ensures if date.day == MonthLength(date.year, 2)
            then MarchYear(NextDay(date)) == MarchYear(date) + 1 && MarchDay(NextDay(date)) == 0 &&
                 MarchDay(date) == 364 + if Leap(date.year) then 1 else 0
            else MarchYear(NextDay(date)) == MarchYear(date) && MarchDay(NextDay(date)) == MarchDay(date) + 1
  {
  }

  lemma MarchDayNext(date: Date)
    requires Valid(date) && date.month != 2
    ensures MarchYear(NextDay(date)) == MarchYear(date) && MarchDay(NextDay(date)) == MarchDay(date) + 1
  {
    var m := date.month;
    if m == 1 {} else if m == 3 {} else if m == 4 {} else if m == 5 {} else if m == 6 {} else if m == 7 {
    } else if m == 8 {} else if m == 9 {} else if m == 10 {} else if m == 11 {} else {}
  }

  // ---------------------------------------------------------------- what the conversion computes

  lemma {:induction false} CountedDates(days: nat)
    ensures Valid(DateOf(days)) && DateOf(days).year >= 1970 && EraDays(DateOf(days)) == days + 719468
  {
    if days > 0 {
      CountedDates(days - 1);
      EraDaysNext(DateOf(days - 1));
    } else {
      assert EraDays(Date(1970, 1, 1)) == 719468;
    }
  }

  /** Every day number converts to the date reached by counting on from 1970-01-01: a valid date, and consecutive
      numbers give consecutive dates. */
  lemma ConversionIsCalendar(days: nat)
    ensures DaysToYmd(days) == DateOf(days)
    ensures Valid(DaysToYmd(days)) && DaysToYmd(days + 1) == NextDay(DaysToYmd(days))
  {
    CountedDates(days);
    ConversionInvertsEraDays(DateOf(days), days);
    CountedDates(days + 1);
    ConversionInvertsEraDays(DateOf(days + 1), days + 1);
  }

  lemma CountNext(date: Date)
    requires Valid(date) && date.year >= 1970
    ensures Valid(NextDay(date)) && DayCount(NextDay(date)) == DayCount(date) + 1
  {
    if date.day == MonthLength(date.year, date.month) && date.month == 12 { WholeYear(date.year); }
  }

  lemma WholeYear(year: nat)
    ensures DaysBeforeMonth(year, 12) + MonthLength(year, 12) == YearLength(year)
  {
    var before := DaysBeforeMonth(year, 3);
    assert before == 31 + MonthLength(year, 2) by { assert DaysBeforeMonth(year, 2) == 31 + DaysBeforeMonth(year, 1); }
    assert DaysBeforeMonth(year, 5) == before + 61 by { assert DaysBeforeMonth(year, 4) == before + 31; }
    assert DaysBeforeMonth(year, 7) == before + 122 by { assert DaysBeforeMonth(year, 6) == before + 92; }
    assert DaysBeforeMonth(year, 9) == before + 184 by { assert DaysBeforeMonth(year, 8) == before + 153; }
    assert DaysBeforeMonth(year, 11) == before + 245 by { assert DaysBeforeMonth(year, 10) == before + 214; }
  }

  lemma {:induction false} CountOfDate(days: nat)
    ensures DayCount(DateOf(days)) == days
  {
    if days > 0 {
      CountOfDate(days - 1);
      CountedDates(days - 1);
      CountNext(DateOf(days - 1));
    } else {
      assert DayCount(Date(1970, 1, 1)) == 0;
    }
  }

  function PreviousDay(date: Date): Date
    requires date.year > 0
  {
    if date.day > 1 then date.(day := date.day - 1)
    else if date.month > 1 then Date(date.year, date.month - 1, MonthLength(date.year, date.month - 1))
    else Date(date.year - 1, 12, 31)
  }

  lemma {:induction false} DateOfCount(date: Date)
    requires Valid(date) && date.year >= 1970
    ensures DayCount(date) >= 0 && DateOf(DayCount(date)) == date
    decreases date.year, date.month, date.day
  {
    if date == Date(1970, 1, 1) {
      assert DayCount(date) == 0;
    } else {
      var previous := PreviousDay(date);
      assert Valid(previous) && previous.year >= 1970 && NextDay(previous) == date;
      DateOfCount(previous);
      CountNext(previous);
    }
  }

  /** The conversion and the ordinary day count undo each other. */
  lemma ConversionInvertsCount(days: nat, date: Date)
    ensures Valid(DaysToYmd(days)) && DaysToYmd(days).year >= 1970 && DayCount(DaysToYmd(days)) == days
    ensures Valid(date) && date.year >= 1970 ==> DayCount(date) >= 0 && DaysToYmd(DayCount(date)) == date
  {
    ConversionIsCalendar(days);
    CountedDates(days);
    CountOfDate(days);
    if Valid(date) && date.year >= 1970 {
      DateOfCount(date);
      ConversionIsCalendar(DayCount(date));
    }
  }

  // ---------------------------------------------------------------- names sort by date

  predicate LexLess(a: string, b: string) {
    b != [] && (a == [] || a[0] < b[0] || (a[0] == b[0] && LexLess(a[1..], b[1..])))
  }

  function Digit(k: nat): char
    requires k < 10
  {
    '0' + k as char
  }

  /** Decimal digits, padded with zeros to at least `width`. */
  function Digits(n: nat, width: nat): string
    decreases n + width
  {
    if n < 10 && width <= 1 then [Digit(n)]
    else Digits(n / 10, if width > 0 then width - 1 else 0) + [Digit(n % 10)]
  }

  function Format(date: Date): string {
    Digits(date.year, 4) + ("-" + (Digits(date.month, 2) + ("-" + Digits(date.day, 2))))
  }

  /** The name of the log file of a date, and of a day number. */
  function NameOf(stem: string, date: Date): string { stem + ("-" + (Format(date) + ".log")) }

  function LogName(stem: string, days: nat): string { NameOf(stem, DaysToYmd(days)) }

  function Pow10(w: nat): nat { if w == 0 then 1 else 10 * Pow10(w - 1) }

  lemma {:induction false} LexPrefix(p: string, a: string, b: string)
    ensures LexLess(p + a, p + b) <==> LexLess(a, b)
  {
    if p == [] {
      assert p + a == a && p + b == b;
    } else {
      LexPrefix(p[1..], a, b);
      assert (p + a)[1..] == p[1..] + a && (p + b)[1..] == p[1..] + b;
    }
  }

  /** Numbers of one width sort like their padded digits, whatever follows. */
  lemma {:induction false} DigitsSort(a: nat, b: nat, width: nat, x: string, y: string)
    requires width > 0 && a < b < Pow10(width)
    ensures LexLess(Digits(a, width) + x, Digits(b, width) + y)
    decreases width
  {
    if width > 1 {
      var pa, pb := Digits(a / 10, width - 1), Digits(b / 10, width - 1);
      var sa, sb := [Digit(a % 10)] + x, [Digit(b % 10)] + y;
      assert Digits(a, width) + x == pa + sa && Digits(b, width) + y == pb + sb;
      if a / 10 < b / 10 {
        DigitsSort(a / 10, b / 10, width - 1, sa, sb);
      } else {
        LexPrefix(pa, sa, sb);
      }
    }
  }

  /** Earlier in the calendar. */
  predicate Before(a: Date, b: Date) {
    a.year < b.year || (a.year == b.year && (a.month < b.month || (a.month == b.month && a.day < b.day)))
  }

  lemma FormatSorts(a: Date, b: Date, x: string)
    requires Valid(a) && Valid(b) && b.year <= 9999 && Before(a, b)
    ensures LexLess(Format(a) + x, Format(b) + x)
  {
    var da, db := Digits(a.day, 2) + x, Digits(b.day, 2) + x;
    var ma, mb := Digits(a.month, 2) + ("-" + da), Digits(b.month, 2) + ("-" + db);
    assert Format(a) + x == Digits(a.year, 4) + ("-" + ma);
    assert Format(b) + x == Digits(b.year, 4) + ("-" + mb);
    if a.year < b.year {
      DigitsSort(a.year, b.year, 4, "-" + ma, "-" + mb);
    } else {
      LexPrefix(Digits(a.year, 4), "-" + ma, "-" + mb);
      LexPrefix("-", ma, mb);
      if a.month < b.month {
        DigitsSort(a.month, b.month, 2, "-" + da, "-" + db);
      } else {
        LexPrefix(Digits(a.month, 2), "-" + da, "-" + db);
        LexPrefix("-", da, db);
        DigitsSort(a.day, b.day, 2, x, x);
      }
    }
  }

  lemma {:induction false} LaterIsAfter(i: nat, j: nat)
    requires i < j
    ensures Before(DateOf(i), DateOf(j))
    decreases j
  {
    CountedDates(j - 1);
    NextIsAfter(DateOf(j - 1));
    if i < j - 1 { LaterIsAfter(i, j - 1); }
  }

  lemma NextIsAfter(date: Date)
    requires Valid(date)
    ensures Before(date, NextDay(date))
  {
  }

  lemma {:induction false} LexAntisymmetric(a: string, b: string)
    ensures !(LexLess(a, b) && LexLess(b, a))
  {
    if a != [] && b != [] { LexAntisymmetric(a[1..], b[1..]); }
  }

  /** Up to the year 9999 the names of log files sort exactly as their days do. */
  lemma NamesSortByDay(stem: string, i: nat, j: nat)
    requires DaysToYmd(i).year <= 9999 && DaysToYmd(j).year <= 9999
    ensures LexLess(LogName(stem, i), LogName(stem, j)) <==> i < j
  {
    if i < j {
      EarlierSortsFirst(stem, i, j);
    } else if j < i {
      EarlierSortsFirst(stem, j, i);
    }
    LexAntisymmetric(LogName(stem, i), LogName(stem, j));
  }

  lemma EarlierSortsFirst(stem: string, i: nat, j: nat)
    requires i < j && DaysToYmd(j).year <= 9999
    ensures LexLess(LogName(stem, i), LogName(stem, j))
  {
    ConversionIsCalendar(i);
    ConversionIsCalendar(j);
    LaterIsAfter(i, j);
    NamesSort(stem, DateOf(i), DateOf(j));
  }

  lemma NamesSort(stem: string, a: Date, b: Date)
    requires Valid(a) && Valid(b) && b.year <= 9999 && Before(a, b)
    ensures LexLess(NameOf(stem, a), NameOf(stem, b))
  {
    FormatSorts(a, b, ".log");
    LexPrefix("-", Format(a) + ".log", Format(b) + ".log");
    LexPrefix(stem, "-" + (Format(a) + ".log"), "-" + (Format(b) + ".log"));
  }

  /** The name of the last day of 9999 sorts after that of the next. */
  lemma NinesSortLast(stem: string, date: Date)
    requires Valid(date) && date.year == 9999 && NextDay(date).year == 10000
    ensures LexLess(NameOf(stem, NextDay(date)), NameOf(stem, date))
  {
    var a, b := Format(NextDay(date)) + ".log", Format(date) + ".log";
    FirstDigit(10000, '1');
    FirstDigit(9999, '9');
    assert a[0] == '1' && b[0] == '9';
    LexPrefix("-", a, b);
    LexPrefix(stem, "-" + a, "-" + b);
  }

  /** Every valid date from 1970 on is reached. */
  lemma Reached(date: Date) returns (days: nat)
    requires Valid(date) && date.year >= 1970
    ensures DateOf(days) == date && DateOf(days + 1) == NextDay(date)
  {
    DateOfCount(date);
    days := DayCount(date);
  }

  lemma FirstDigit(year: nat, digit: char)
    requires (year == 10000 && digit == '1') || (year == 9999 && digit == '9')
    ensures Digits(year, 4) != [] && Digits(year, 4)[0] == digit
  {
    var two := Digits(year / 100, 2);
    assert year / 10 / 10 == year / 100 && year / 100 / 10 / 10 == year / 10000;
    assert Digits(year, 4) == (two + [Digit(year / 10 % 10)]) + [Digit(year % 10)];
    assert two == (if year == 10000 then Digits(1, 0) + [Digit(0)] + [Digit(0)] else Digits(9, 1) + [Digit(9)]);
  }

  predicate SortedUntil(stem: string, n: nat) {
    forall i, j | 0 <= i < j <= n :: LexLess(LogName(stem, i), LogName(stem, j))
  }

  /** The names of all days up to `n` sort by day if and only if day `n` is in the year 9999 or earlier. */
  lemma NamesSortUntil9999(stem: string, n: nat)
    ensures SortedUntil(stem, n) <==> DaysToYmd(n).year <= 9999
  {
    if DaysToYmd(n).year <= 9999 {
      forall i, j | 0 <= i < j <= n ensures LexLess(LogName(stem, i), LogName(stem, j)) {
        YearsGrow(j, n);
        EarlierSortsFirst(stem, i, j);
      }
    } else {
      UnsortedFrom10000(stem, n);
    }
  }

  lemma UnsortedFrom10000(stem: string, n: nat)
    requires DaysToYmd(n).year > 9999
    ensures !SortedUntil(stem, n)
  {
    var last := Date(9999, 12, 31);
    var days := Reached(last);
    ConversionIsCalendar(days);
    NinesSortLast(stem, last);
    LexAntisymmetric(LogName(stem, days), LogName(stem, days + 1));
    if n <= days { YearsGrow(n, days); }
    assert !LexLess(LogName(stem, days), LogName(stem, days + 1));
  }

  lemma YearsGrow(i: nat, j: nat)
    requires i <= j
    ensures DaysToYmd(i).year <= DaysToYmd(j).year
  {
    ConversionIsCalendar(i);
    ConversionIsCalendar(j);
    if i < j { LaterIsAfter(i, j); }
  }

  // ---------------------------------------------------------------- cleaning up

  function InsertName(name: string, sorted: seq<string>): seq<string> {
    if sorted == [] || !LexLess(sorted[0], name) then [name] + sorted
    else [sorted[0]] + InsertName(name, sorted[1..])
  }

  function SortNames(names: seq<string>): seq<string> {
    if names == [] then [] else InsertName(names[0], SortNames(names[1..]))
  }

  ghost predicate NamesSorted(names: seq<string>) {
    forall i, j :: 0 <= i < j < |names| ==> !LexLess(names[j], names[i])
  }

  lemma {:induction false} LexTransitive(a: string, b: string, c: string)
    requires !LexLess(b, a) && !LexLess(c, b)
    ensures !LexLess(c, a)
  {
    if a != [] && c != [] && b != [] && a[0] == b[0] == c[0] { LexTransitive(a[1..], b[1..], c[1..]); }
  }

  lemma {:induction false} InsertNameKeeps(name: string, sorted: seq<string>)
    ensures multiset(InsertName(name, sorted)) == multiset(sorted) + multiset{name}
  {
    if sorted != [] && LexLess(sorted[0], name) {
      InsertNameKeeps(name, sorted[1..]);
      assert sorted == [sorted[0]] + sorted[1..];
    }
  }

  lemma {:induction false} InsertNameSorts(name: string, sorted: seq<string>)
    requires NamesSorted(sorted)
    ensures NamesSorted(InsertName(name, sorted))
  {
    if sorted == [] {
    } else if !LexLess(sorted[0], name) {
      forall k | 0 <= k < |sorted| ensures !LexLess(sorted[k], name) {
        LexAntisymmetric(sorted[0], sorted[0]);
        LexTransitive(name, sorted[0], sorted[k]);
      }
    } else {
      var rest := InsertName(name, sorted[1..]);
      InsertNameSorts(name, sorted[1..]);
      LexAntisymmetric(sorted[0], name);
      InsertNameKeeps(name, sorted[1..]);
      forall k | 0 <= k < |rest| ensures !LexLess(rest[k], sorted[0]) {
        assert rest[k] in multiset(rest);
        assert rest[k] == name || rest[k] in sorted[1..];
      }
    }
  }

  lemma {:induction false} SortNamesSorts(names: seq<string>)
    ensures NamesSorted(SortNames(names)) && multiset(SortNames(names)) == multiset(names)
  {
    if names != [] {
      SortNamesSorts(names[1..]);
      InsertNameSorts(names[0], SortNames(names[1..]));
      InsertNameKeeps(names[0], SortNames(names[1..]));
      assert names == [names[0]] + names[1..];
    }
  }

  /** The cleanup deletes all but `maxFiles` of the names and keeps the most recent days. */
  method CleanupOldFiles(stem: string, names: seq<string>, maxFiles: nat)
    returns (deleted: seq<string>, kept: seq<string>)
    ensures multiset(deleted) + multiset(kept) == multiset(names)
    ensures |kept| == if |names| <= maxFiles then |names| else maxFiles
    ensures forall gone, stays |
              && LogName(stem, gone) in deleted && LogName(stem, stays) in kept
              && DaysToYmd(gone).year <= 9999 && DaysToYmd(stays).year <= 9999 :: gone <= stays
  {
    if |names| <= maxFiles {
      deleted, kept := [], names;
      return;
    }
    var sorted := SortNames(names);
    SortNamesSorts(names);
    assert |multiset(sorted)| == |multiset(names)|;
    var toDelete := |names| - maxFiles;
    deleted, kept := sorted[..toDelete], sorted[toDelete..];
    assert sorted == deleted + kept;
    forall gone, stays |
      && LogName(stem, gone) in deleted && LogName(stem, stays) in kept
      && DaysToYmd(gone).year <= 9999 && DaysToYmd(stays).year <= 9999
      ensures gone <= stays
    {
      NamesSortByDay(stem, stays, gone);
    }
  }
}
