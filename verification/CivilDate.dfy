/** Turning days since 1970-01-01 into a date, against the Gregorian calendar as section 5.7 and
    appendix C of RFC 3339 state it.  The reference counts days the other way; both round trips hold
    for every integer day. */
module CivilDate {
  datatype Date = Date(year: int, month: int, day: int)

  // ---- The calendar -----------------------------------------------------------------------------

  predicate IsLeap(y: int) {
    y % 4 == 0 && (y % 100 != 0 || y % 400 == 0)
  }

  function DaysInMonth(y: int, m: int): int {
    if m == 2 then (if IsLeap(y) then 29 else 28)
    else if m == 4 || m == 6 || m == 9 || m == 11 then 30
    else 31
  }

  predicate IsDate(d: Date) {
    1 <= d.month <= 12 && 1 <= d.day <= DaysInMonth(d.year, d.month)
  }

  /** The next day on the calendar. */
  function Successor(d: Date): Date {
    if d.day < DaysInMonth(d.year, d.month) then d.(day := d.day + 1)
    else if d.month < 12 then Date(d.year, d.month + 1, 1)
    else Date(d.year + 1, 1, 1)
  }

  // ---- The algorithm --------------------------------------------------------------------------------

  /** Rust's `/`: towards zero. */
  function Quotient(a: int, b: int): int
    requires b > 0
  {
    if a >= 0 then a / b else -(-a / b)
  }

  function CivilFromDays(days: int): Date {
    var shifted := days + 719468;
    var era := Quotient(if shifted >= 0 then shifted else shifted - 146096, 146097);
    CivilInEra(era, shifted - era * 146097)
  }

  function YearInEra(dayOfEra: int): int {
    Quotient(dayOfEra - Quotient(dayOfEra, 1460) + Quotient(dayOfEra, 36524)
             - Quotient(dayOfEra, 146096), 365)
  }

  /** The rest of the computation, from the 400-year era and the day within it. */
  function CivilInEra(era: int, dayOfEra: int): Date {
    var yearOfEra := YearInEra(dayOfEra);
    var year := yearOfEra + era * 400;
    var dayOfYear := dayOfEra - (365 * yearOfEra + Quotient(yearOfEra, 4) - Quotient(yearOfEra, 100));
    var monthPrime := Quotient(5 * dayOfYear + 2, 153);
    var day := dayOfYear - Quotient(153 * monthPrime + 2, 5) + 1;
    var month := if monthPrime < 10 then monthPrime + 3 else monthPrime - 9;
    Date(if month <= 2 then year + 1 else year, month, day)
  }

  // ---- Counting days the other way --------------------------------------------------------------------

  /** Days from 1970-01-01 to the first of March of year y. */
  function MarchFirst(y: int): int {
    365 * y + y / 4 - y / 100 + y / 400 - 719468
  }

  /** Days from the first of March to the first of month m, counting March as month 0. */
  function DaysBefore(monthPrime: int): int {
    (153 * monthPrime + 2) / 5
  }

  function DaysFromCivil(d: Date): int {
    if d.month > 2 then MarchFirst(d.year) + DaysBefore(d.month - 3) + d.day - 1
    else MarchFirst(d.year - 1) + DaysBefore(d.month + 9) + d.day - 1
  }

  /** Dividing by n, the quotient goes up by one at each multiple of n. */
  lemma QuotientSteps(x: int)
    ensures (x + 1) / 4 == x / 4 + if (x + 1) % 4 == 0 then 1 else 0
    ensures (x + 1) / 100 == x / 100 + if (x + 1) % 100 == 0 then 1 else 0
    ensures (x + 1) / 400 == x / 400 + if (x + 1) % 400 == 0 then 1 else 0
  {
  }

  lemma MultiplesOf100(x: int)
    ensures x % 100 == 0 ==> x % 4 == 0
  {
    assert x == 100 * (x / 100) + x % 100;
  }

  lemma MultiplesOf400(x: int)
    ensures x % 400 == 0 ==> x % 100 == 0
  {
    assert x == 400 * (x / 400) + x % 400;
  }

  /** From one first of March to the next there are 365 days, or 366 around a leap day. */
  lemma MarchYears(y: int)
    ensures MarchFirst(y + 1) - MarchFirst(y) == if IsLeap(y + 1) then 366 else 365
  {
    QuotientSteps(y);
    MultiplesOf100(y + 1);
    MultiplesOf400(y + 1);
  }

  /** Every month but the last one of the March year is as long as the day counts say. */
  lemma MonthLengths(y: int, m: int)
    requires 1 <= m <= 12 && m != 2
    ensures var mp := if m > 2 then m - 3 else m + 9;
            DaysBefore(mp + 1) - DaysBefore(mp) == DaysInMonth(y, m)
  {
  }

  /** Counting days respects the calendar: the next date is the next day. */
  lemma SuccessorIsNextDay(d: Date)
    requires IsDate(d)
    ensures IsDate(Successor(d)) && DaysFromCivil(Successor(d)) == DaysFromCivil(d) + 1
  {
    if d.day == DaysInMonth(d.year, d.month) {
      if d.month == 2 {
        MarchYears(d.year - 1);
      } else {
        MonthLengths(d.year, d.month);
      }
    }
  }

  lemma {:induction false} MarchFirstGrows(y: int, z: int)
    requires y < z
    ensures MarchFirst(y) + 365 <= MarchFirst(z)
    decreases z - y
  {
    MarchYears(y);
    if y + 1 < z {
      MarchFirstGrows(y + 1, z);
    }
  }

  /** The year that starts in March, its month counted from March, and the day within that year. */
  function MarchYear(d: Date): int {
    if d.month > 2 then d.year else d.year - 1
  }

  function MonthPrime(d: Date): int {
    if d.month > 2 then d.month - 3 else d.month + 9
  }

  lemma DaysByMarchYear(d: Date)
    ensures DaysFromCivil(d) == MarchFirst(MarchYear(d)) + DaysBefore(MonthPrime(d)) + d.day - 1
  {
  }

  lemma DayOfMarchYear(d: Date)
    requires IsDate(d)
    ensures var mp := MonthPrime(d);
            0 <= mp < 12 && (mp < 11 ==> d.day <= DaysBefore(mp + 1) - DaysBefore(mp))
    ensures var y := MarchYear(d); MarchFirst(y) <= DaysFromCivil(d) < MarchFirst(y + 1)
  {
    MarchYears(MarchYear(d));
    if d.month != 2 {
      MonthLengths(d.year, d.month);
    }
  }

  lemma DaysBeforeGrows(a: int, b: int)
    requires a <= b
    ensures DaysBefore(a) <= DaysBefore(b)
  {
  }

  /** An earlier year, counted from March, has only earlier days. */
  lemma EarlierYear(a: Date, b: Date)
    requires IsDate(a) && IsDate(b) && MarchYear(a) < MarchYear(b)
    ensures DaysFromCivil(a) < DaysFromCivil(b)
  {
    DayOfMarchYear(a);
    DayOfMarchYear(b);
    if MarchYear(a) + 1 < MarchYear(b) {
      MarchFirstGrows(MarchYear(a) + 1, MarchYear(b));
    }
  }

  /** An earlier month of the same year has only earlier days. */
  lemma EarlierMonth(a: Date, b: Date)
    requires IsDate(a) && IsDate(b) && MarchYear(a) == MarchYear(b) && MonthPrime(a) < MonthPrime(b)
    ensures DaysFromCivil(a) < DaysFromCivil(b)
  {
    DayOfMarchYear(a);
    DayOfMarchYear(b);
    DaysBeforeGrows(MonthPrime(a) + 1, MonthPrime(b));
    DaysByMarchYear(a);
    DaysByMarchYear(b);
  }

  /** Different dates are different days. */
  lemma DaysFromCivilInjective(a: Date, b: Date)
    requires IsDate(a) && IsDate(b) && DaysFromCivil(a) == DaysFromCivil(b)
    ensures a == b
  {
    if MarchYear(a) != MarchYear(b) {
      if MarchYear(a) < MarchYear(b) { EarlierYear(a, b); } else { EarlierYear(b, a); }
    } else if MonthPrime(a) != MonthPrime(b) {
      if MonthPrime(a) < MonthPrime(b) { EarlierMonth(a, b); } else { EarlierMonth(b, a); }
    }
  }

  lemma NextDateIsSuccessor(a: Date, b: Date)
    requires IsDate(a) && IsDate(b) && DaysFromCivil(b) == DaysFromCivil(a) + 1
    ensures b == Successor(a)
  {
    SuccessorIsNextDay(a);
    DaysFromCivilInjective(b, Successor(a));
  }

  // ---- The algorithm is right ----------------------------------------------------------------------------

  /** A day of a 400-year era lies in century c, four-year cycle q, year y and at day `day`. */
  lemma SplitEra(doe: int) returns (c: int, q: int, y: int, day: int)
    requires 0 <= doe < 146097
    ensures 0 <= c < 4 && 0 <= q < 25 && 0 <= y < 4 && 0 <= day <= 365
    ensures doe == 36524 * c + 1461 * q + 365 * y + day
    ensures day == 365 ==> y == 3 && (q == 24 ==> c == 3)
  {
    c := if doe == 146096 then 3 else doe / 36524;
    var doc := doe - 36524 * c;
    q := doc / 1461;
    var doq := doc - 1461 * q;
    y := if doq == 1460 then 3 else doq / 365;
    day := doq - 365 * y;
  }

  /** Every 1460 days a year has a day too many. */
  lemma LongYearsIn(c: int, q: int, y: int, day: int)
    requires 0 <= c < 4 && 0 <= q < 25 && 0 <= y < 4 && 0 <= day <= 365
    ensures var doe := 36524 * c + 1461 * q + 365 * y + day; var rest := 24 * c + q + 365 * y + day;
            doe / 1460 == 25 * c + q + if rest < 1460 then 0 else 1
  {
    var rest := 24 * c + q + 365 * y + day;
    assert 36524 * c + 1461 * q + 365 * y + day == 1460 * (25 * c + q) + rest;
  }

  lemma CenturiesIn(c: int, q: int, y: int, day: int)
    requires 0 <= c < 4 && 0 <= q < 25 && 0 <= y < 4 && 0 <= day <= 365
    requires day == 365 ==> y == 3 && (q == 24 ==> c == 3)
    ensures var doe := 36524 * c + 1461 * q + 365 * y + day;
            0 <= doe < 146097 && doe / 36524 - doe / 146096 == c
  {
  }

  /** The correction terms of the algorithm find the year of the era. */
  lemma YearOfEra(c: int, q: int, y: int, day: int)
    requires 0 <= c < 4 && 0 <= q < 25 && 0 <= y < 4 && 0 <= day <= 365
    requires day == 365 ==> y == 3 && (q == 24 ==> c == 3)
    ensures var doe := 36524 * c + 1461 * q + 365 * y + day;
            0 <= doe < 146097 && YearInEra(doe) == 100 * c + 4 * q + y
  {
    LongYearsIn(c, q, y, day);
    CenturiesIn(c, q, y, day);
  }

  lemma DayOfYear(c: int, q: int, y: int, day: int)
    requires 0 <= c < 4 && 0 <= q < 25 && 0 <= y < 4 && 0 <= day <= 365
    ensures var yoe := 100 * c + 4 * q + y; var doe := 36524 * c + 1461 * q + 365 * y + day;
            doe - (365 * yoe + yoe / 4 - yoe / 100) == day
  {
    var yoe := 100 * c + 4 * q + y;
    assert yoe / 4 == 25 * c + q && yoe / 100 == c;
  }

  lemma EraOf(days: int) returns (era: int, doe: int)
    ensures 0 <= doe < 146097 && days + 719468 == era * 146097 + doe
    ensures var shifted := days + 719468;
            era == Quotient(if shifted >= 0 then shifted else shifted - 146096, 146097)
  {
    var shifted := days + 719468;
    era := Quotient(if shifted >= 0 then shifted else shifted - 146096, 146097);
    doe := shifted - era * 146097;
  }

  /** Month and day are valid and count back to the same day of the March year. */
  lemma MonthAndDay(day: int)
    requires 0 <= day <= 365
    ensures var mp := (5 * day + 2) / 153;
            && 0 <= mp < 12 && DaysBefore(mp) <= day
            && (day < DaysBefore(mp + 1) || mp == 11)
  {
  }

  /** The date of a day of the year that starts in March. */
  function MarchDate(year: int, day: int): Date {
    var mp := (5 * day + 2) / 153; var month := if mp < 10 then mp + 3 else mp - 9;
    Date(if month <= 2 then year + 1 else year, month, day - DaysBefore(mp) + 1)
  }

  lemma CivilParts(era: int, c: int, q: int, y: int, day: int)
    requires 0 <= c < 4 && 0 <= q < 25 && 0 <= y < 4 && 0 <= day <= 365
    requires day == 365 ==> y == 3 && (q == 24 ==> c == 3)
    ensures CivilInEra(era, 36524 * c + 1461 * q + 365 * y + day) == MarchDate(400 * era + 100 * c + 4 * q + y, day)
  {
    YearOfEra(c, q, y, day);
    DayOfYear(c, q, y, day);
    MonthAndDay(day);
  }

  lemma YearQuotients(era: int, c: int, q: int, y: int)
    requires 0 <= c < 4 && 0 <= q < 25 && 0 <= y < 4
    ensures var year := 400 * era + 100 * c + 4 * q + y;
            year / 400 == era && year / 100 == 4 * era + c && year / 4 == 100 * era + 25 * c + q
  {
  }

  lemma Wraps4(k: int, r: int)
    requires 0 < r <= 4
    ensures (4 * k + r) % 4 == 0 <==> r == 4
  {
  }

  lemma Wraps100(k: int, r: int)
    requires 0 < r <= 100
    ensures (100 * k + r) % 100 == 0 <==> r == 100
  {
  }

  lemma Wraps400(k: int, r: int)
    requires 0 < r <= 400
    ensures (400 * k + r) % 400 == 0 <==> r == 400
  {
  }

  lemma YearRemainders(era: int, c: int, q: int, y: int)
    requires 0 <= c < 4 && 0 <= q < 25 && 0 <= y < 4
    ensures var next := 400 * era + 100 * c + 4 * q + y + 1;
            && (next % 4 == 0 <==> y == 3)
            && (next % 100 == 0 <==> y == 3 && q == 24)
            && (next % 400 == 0 <==> y == 3 && q == 24 && c == 3)
  {
    Wraps4(100 * era + 25 * c + q, y + 1);
    Wraps100(4 * era + c, 4 * q + y + 1);
    Wraps400(era, 100 * c + 4 * q + y + 1);
  }

  /** A March year has a day 365 exactly when it ends with a leap day. */
  lemma LongYear(era: int, c: int, q: int, y: int)
    requires 0 <= c < 4 && 0 <= q < 25 && 0 <= y < 4
    ensures var year := 400 * era + 100 * c + 4 * q + y;
            && (y == 3 && (q == 24 ==> c == 3) <==> IsLeap(year + 1))
            && MarchFirst(year) + 719468 == era * 146097 + 36524 * c + 1461 * q + 365 * y
  {
    YearQuotients(era, c, q, y);
    YearRemainders(era, c, q, y);
  }

  /** A day of a March year that is no longer than it should be makes a date. */
  lemma DateInYear(year: int, day: int)
    requires 0 <= day <= 365 && (day == 365 ==> IsLeap(year + 1))
    ensures IsDate(MarchDate(year, day)) && DaysFromCivil(MarchDate(year, day)) == MarchFirst(year) + day
  {
    MonthAndDay(day);
  }

  lemma MarchDateIsRight(era: int, c: int, q: int, y: int, day: int)
    requires 0 <= c < 4 && 0 <= q < 25 && 0 <= y < 4 && 0 <= day <= 365
    requires day == 365 ==> y == 3 && (q == 24 ==> c == 3)
    ensures var d := MarchDate(400 * era + 100 * c + 4 * q + y, day);
            IsDate(d) && DaysFromCivil(d) + 719468 == era * 146097 + 36524 * c + 1461 * q + 365 * y + day
  {
    LongYear(era, c, q, y);
    DateInYear(400 * era + 100 * c + 4 * q + y, day);
  }

  lemma CivilInEraIsRight(era: int, doe: int)
    requires 0 <= doe < 146097
    ensures var d := CivilInEra(era, doe);
            IsDate(d) && DaysFromCivil(d) == era * 146097 + doe - 719468
  {
    var c, q, y, day := SplitEra(doe);
    MarchDateIsRight(era, c, q, y, day);
    CivilParts(era, c, q, y, day);
  }

  /** For every day, the result is a valid date, and counting its days gives the day back. */
  lemma CivilIsRight(days: int)
    ensures IsDate(CivilFromDays(days)) && DaysFromCivil(CivilFromDays(days)) == days
  {
    var era, doe := EraOf(days);
    CivilInEraIsRight(era, doe);
  }

  /** Every day is a valid date, and the date of the next day is the next one on the calendar. */
  lemma CivilFollowsTheCalendar(days: int)
    ensures IsDate(CivilFromDays(days))
    ensures CivilFromDays(days + 1) == Successor(CivilFromDays(days))
  {
    CivilIsRight(days);
    CivilIsRight(days + 1);
    NextDateIsSuccessor(CivilFromDays(days), CivilFromDays(days + 1));
  }

  /** Day 0 is 1970-01-01. */
  lemma CivilStartsAtTheEpoch(days: int)
    ensures days == 0 <==> CivilFromDays(days) == Date(1970, 1, 1)
  {
    var epoch := Date(1970, 1, 1);
    assert IsDate(epoch) && DaysFromCivil(epoch) == 0;
    CivilIsRight(days);
    if days == 0 {
      DaysFromCivilInjective(CivilFromDays(days), epoch);
    }
  }

  /** The other round trip: every date is found from its day. */
  lemma CivilInvertsDays(d: Date)
    requires IsDate(d)
    ensures CivilFromDays(DaysFromCivil(d)) == d
  {
    CivilIsRight(DaysFromCivil(d));
    DaysFromCivilInjective(CivilFromDays(DaysFromCivil(d)), d);
  }

  // ---- The time of day -----------------------------------------------------------------------------------

  datatype Timestamp = Timestamp(date: Date, hour: int, minute: int, second: int)

  /** The fields of `iso8601_from_unix_seconds`, before they are printed. */
  function TimestampFromSeconds(seconds: int): Timestamp {
    var days := seconds / 86400;
    var ofDay := seconds % 86400;
    Timestamp(CivilFromDays(days), ofDay / 3600, ofDay % 3600 / 60, ofDay % 60)
  }

  lemma ClockIsRight(ofDay: nat)
    requires ofDay < 86400
    ensures 3600 * (ofDay / 3600) + 60 * (ofDay % 3600 / 60) + ofDay % 60 == ofDay
    ensures ofDay / 3600 < 24 && ofDay % 3600 / 60 < 60
  {
    var h, r := ofDay / 3600, ofDay % 3600;
    assert ofDay == 60 * (60 * h + r / 60) + r % 60;
  }

  /** Every second has its own timestamp, with all fields in range, and none is skipped. */
  lemma TimestampIsRight(seconds: int)
    ensures var t := TimestampFromSeconds(seconds);
            && IsDate(t.date) && 0 <= t.hour < 24 && 0 <= t.minute < 60 && 0 <= t.second < 60
            && seconds == 86400 * DaysFromCivil(t.date) + 3600 * t.hour + 60 * t.minute + t.second
  {
    CivilIsRight(seconds / 86400);
    ClockIsRight(seconds % 86400);
  }
}
