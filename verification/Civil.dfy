/** The proleptic Gregorian calendar by day numbers (core.cpp, `civil`, `days_from_civil`). */
module Civil {

  /** Integer division as C++ does it: towards zero. */
  function Truncated(a: int, b: int): int
    requires b > 0
  {
    if a >= 0 then a / b else -((-a) / b)
  }

  datatype Date = Date(year: int, month: int, day: int)

  // The code.

  function CivilOf(days: int): Date {
    var z := days + 719468;
    var era := EraOfDay(z);
    CivilInEra(era, z - era * 146097)
  }

  function EraOfDay(z: int): int {
    Truncated(if z >= 0 then z else z - 146096, 146097)
  }

  /** The date of a day of an era. */
  function CivilInEra(era: int, doe: int): Date {
    var yoe := YearInEra(doe);
    DateInYear(era, yoe, doe - (365 * yoe + Truncated(yoe, 4) - Truncated(yoe, 100)))
  }

  function YearInEra(doe: int): int {
    Truncated(doe - Truncated(doe, 1460) + Truncated(doe, 36524) - Truncated(doe, 146096), 365)
  }

  function DateInYear(era: int, yoe: int, doy: int): Date {
    var mp := Truncated(5 * doy + 2, 153);
    var month := if mp < 10 then mp + 3 else mp - 9;
    Date(yoe + era * 400 + (if month <= 2 then 1 else 0), month, doy - Truncated(153 * mp + 2, 5) + 1)
  }

  function DaysFromCivil(date: Date): int {
    var y := if date.month <= 2 then date.year - 1 else date.year;
    var era := Truncated(if y >= 0 then y else y - 399, 400);
    var yoe := y - era * 400;
    var doy := Truncated(153 * (if date.month > 2 then date.month - 3 else date.month + 9) + 2, 5) + date.day - 1;
    var doe := yoe * 365 + Truncated(yoe, 4) - Truncated(yoe, 100) + doy;
    era * 146097 + doe - 719468
  }

  // The calendar.

  predicate IsLeap(year: int) {
    year % 4 == 0 && (year % 100 != 0 || year % 400 == 0)
  }

  function DaysInMonth(year: int, month: int): int {
    if month == 2 then (if IsLeap(year) then 29 else 28)
    else if month == 4 || month == 6 || month == 9 || month == 11 then 30
    else 31
  }

  predicate IsDate(date: Date) {
    1 <= date.month <= 12 && 1 <= date.day <= DaysInMonth(date.year, date.month)
  }

  /** The day after: the definition of the calendar that owes nothing to the formulas. */
  function NextDay(date: Date): Date {
    if date.day < DaysInMonth(date.year, date.month) then date.(day := date.day + 1)
    else if date.month < 12 then Date(date.year, date.month + 1, 1)
    else Date(date.year + 1, 1, 1)
  }

  // Eras of 400 years that start on the first of March.

  lemma FloorOfShifted(z: int, size: int)
    requires size > 0
    ensures Truncated(if z >= 0 then z else z - (size - 1), size) == z / size
  {
    if z < 0 {
      var q, r := z / size, z % size;
      assert z == size * q + r;
      var a := -(z - (size - 1));
      assert a == size * -q + (size - 1 - r);
      QuotientIs(a, size, -q, size - 1 - r);
    }
  }

  lemma QuotientIs(a: int, size: int, q: int, r: int)
    requires size > 0 && a == size * q + r && 0 <= r < size
    ensures a / size == q
  {
    var d := a / size - q;
    assert a == size * (a / size) + a % size;
    assert size * d == r - a % size;
    assert d >= 1 ==> size * d >= size;
    assert d <= -1 ==> size * d <= -size;
  }

  /** Days before year y of the era, counted from the first of March. */
  function YearStart(y: int): int {
    365 * y + y / 4 - y / 100
  }

  /** A year of the era ends with the February of the next civil year. */
  predicate LongYear(y: int) {
    y % 4 == 3 && (y % 100 != 99 || y == 399)
  }

  predicate InYear(y: int, doy: int) {
    0 <= y < 400 && 0 <= doy < (if LongYear(y) then 366 else 365)
  }

  lemma DayOfEra(y: int, doy: int)
    requires InYear(y, doy)
    ensures 0 <= YearStart(y) + doy < 146097
  {
  }

  /** The year of the era, recovered from the day. */
  function YearOf(doe: int): int {
    (doe - doe / 1460 + doe / 36524 - doe / 146096) / 365
  }

  lemma YearOfDay(y: int, doy: int)
    requires InYear(y, doy)
    ensures YearOf(YearStart(y) + doy) == y
  {
    var c, q, r := y / 100, y % 100 / 4, y % 4;
    assert y == 100 * c + 4 * q + r && y / 4 == 25 * c + q;
    assert 0 <= c <= 3 && 0 <= q <= 24 && 0 <= r <= 3;
    assert LongYear(y) <==> r == 3 && (q < 24 || c == 3);
    ParsedYear(c, q, r, doy);
  }

  lemma ParsedYear(c: int, q: int, r: int, doy: int)
    requires 0 <= c <= 3 && 0 <= q <= 24 && 0 <= r <= 3
    requires 0 <= doy < (if r == 3 && (q < 24 || c == 3) then 366 else 365)
    ensures YearOf(36524 * c + 1461 * q + 365 * r + doy) == 100 * c + 4 * q + r
  {
    var doe := 36524 * c + 1461 * q + 365 * r + doy;
    var e := if 24 * c + q + 365 * r + doy >= 1460 then 1 else 0;
    assert doe / 36524 - doe / 146096 == c;
    assert doe / 1460 == 25 * c + q + e;
    assert 0 <= doy - e <= 364;
  }

  /** The year found by counting up. */
  lemma {:induction false} SearchYear(doe: int, low: int) returns (y: int)
    requires 0 <= low < 400 && YearStart(low) <= doe < 146097
    ensures InYear(y, doe - YearStart(y))
    decreases 400 - low
  {
    if InYear(low, doe - YearStart(low)) {
      y := low;
    } else {
      YearLength(low);
      y := SearchYear(doe, low + 1);
    }
  }

  lemma YearLength(y: int)
    requires 0 <= y < 399
    ensures YearStart(y + 1) == YearStart(y) + (if LongYear(y) then 366 else 365)
    ensures YearStart(399) + 366 == 146097
  {
  }

  /** Days before month mp of a year that starts in March. */
  function MonthStart(mp: int): int {
    (153 * mp + 2) / 5
  }

  function MonthLength(mp: int): int {
    if mp == 1 || mp == 3 || mp == 6 || mp == 8 then 30 else if mp == 11 then 29 else 31
  }

  lemma MonthOfDay(mp: int, day: int)
    requires 0 <= mp < 12 && 1 <= day <= MonthLength(mp)
    ensures (5 * (MonthStart(mp) + day - 1) + 2) / 153 == mp
    ensures 0 <= MonthStart(mp) + day - 1 < 366
  {
    var cases := [0, 1, 2, 3, 4, 5, 6, 7, 8, 9, 10, 11];
    assert cases[mp] == mp;
  }

  lemma DayInMonth(doy: int)
    requires 0 <= doy < 366
    ensures 0 <= (5 * doy + 2) / 153 < 12
    ensures 1 <= doy - MonthStart((5 * doy + 2) / 153) + 1 <= MonthLength((5 * doy + 2) / 153)
  {
  }

  // The formulas in the calendar's terms.

  function YearDays(y: int): int {
    if LongYear(y) then 366 else 365
  }

  /** Where a civil date stands: its era, year of the era and day of that year. */
  datatype Place = Place(era: int, year: int, doy: int)

  predicate IsPlace(p: Place) {
    InYear(p.year, p.doy)
  }

  function DaysOfPlace(p: Place): int {
    p.era * 146097 + YearStart(p.year) + p.doy - 719468
  }

  function DateOfPlace(p: Place): Date {
    var mp := (5 * p.doy + 2) / 153;
    var month := if mp < 10 then mp + 3 else mp - 9;
    Date(p.year + p.era * 400 + (if month <= 2 then 1 else 0), month, p.doy - MonthStart(mp) + 1)
  }

  function PlaceOfDate(date: Date): Place {
    var y := if date.month <= 2 then date.year - 1 else date.year;
    var mp := if date.month > 2 then date.month - 3 else date.month + 9;
    Place(y / 400, y % 400, MonthStart(mp) + date.day - 1)
  }

  lemma EraOf(era: int, doe: int, size: int)
    requires size > 0 && 0 <= doe < size
    ensures (era * size + doe) / size == era
  {
    QuotientIs(era * size + doe, size, era, doe);
  }

  lemma YearInEraIs(y: int, doy: int)
    requires InYear(y, doy)
    ensures YearInEra(YearStart(y) + doy) == y
  {
    DayOfEra(y, doy);
    YearOfDay(y, doy);
    YearTerm(YearStart(y) + doy);
  }

  lemma YearTerm(doe: int)
    requires 0 <= doe
    ensures YearInEra(doe) == YearOf(doe)
  {
    assert doe - doe / 1460 + doe / 36524 - doe / 146096 >= 0;
  }

  lemma CivilInEraIs(era: int, y: int, doy: int)
    requires InYear(y, doy)
    ensures CivilInEra(era, YearStart(y) + doy) == DateInYear(era, y, doy)
  {
    YearInEraIs(y, doy);
  }

  lemma DateInYearIs(era: int, y: int, doy: int)
    requires InYear(y, doy)
    ensures DateInYear(era, y, doy) == DateOfPlace(Place(era, y, doy))
  {
    DayInMonth(doy);
  }

  lemma EraOfDayIs(z: int, era: int, doe: int)
    requires z == era * 146097 + doe && 0 <= doe < 146097
    ensures EraOfDay(z) == era
  {
    FloorOfShifted(z, 146097);
    EraOf(era, doe, 146097);
  }

  lemma CivilSplits(days: int, era: int, doe: int)
    requires days + 719468 == era * 146097 + doe && 0 <= doe < 146097
    ensures CivilOf(days) == CivilInEra(era, doe)
  {
    EraOfDayIs(days + 719468, era, doe);
  }

  lemma PlaceSplits(p: Place)
    requires IsPlace(p)
    ensures CivilOf(DaysOfPlace(p)) == CivilInEra(p.era, YearStart(p.year) + p.doy)
  {
    DayOfEra(p.year, p.doy);
    CivilSplits(DaysOfPlace(p), p.era, YearStart(p.year) + p.doy);
  }

  lemma InEraIsPlace(p: Place)
    requires IsPlace(p)
    ensures CivilInEra(p.era, YearStart(p.year) + p.doy) == DateOfPlace(p)
  {
    CivilInEraIs(p.era, p.year, p.doy);
    DateInYearIs(p.era, p.year, p.doy);
  }

  /** `civil` reads the place of its day number. */
  lemma CivilIsPlace(p: Place)
    requires IsPlace(p)
    ensures CivilOf(DaysOfPlace(p)) == DateOfPlace(p)
  {
    PlaceSplits(p);
    InEraIsPlace(p);
  }

  /** `days_from_civil` computes the day number of the date's place. */
  lemma DaysArePlace(date: Date)
    requires 1 <= date.month <= 12 && date.day >= 1
    ensures DaysFromCivil(date) == DaysOfPlace(PlaceOfDate(date))
  {
    var y := if date.month <= 2 then date.year - 1 else date.year;
    FloorOfShifted(y, 400);
    assert y == 400 * (y / 400) + y % 400;
  }

  /** Every day number has a place. */
  lemma DayHasPlace(days: int) returns (p: Place)
    ensures IsPlace(p) && DaysOfPlace(p) == days
  {
    var z := days + 719468;
    var doe := z % 146097;
    var year := SearchYear(doe, 0);
    p := Place(z / 146097, year, doe - YearStart(year));
  }

  lemma RemainderIs(a: int, size: int, q: int, r: int)
    requires size > 0 && a == size * q + r && 0 <= r < size
    ensures a % size == r
  {
    QuotientIs(a, size, q, r);
  }

  lemma LeapOfPlace(era: int, y: int)
    requires 0 <= y < 400
    ensures IsLeap(400 * era + y + 1) <==> LongYear(y)
  {
    var year := 400 * era + y + 1;
    RemainderIs(year, 4, 100 * era + (y + 1) / 4, (y + 1) % 4);
    RemainderIs(year, 100, 4 * era + (y + 1) / 100, (y + 1) % 100);
    if y == 399 {
      RemainderIs(year, 400, era + 1, 0);
    } else {
      RemainderIs(year, 400, era, y + 1);
    }
  }

  /** The date of a place is a date, and has that place. */
  lemma PlaceRoundTrip(p: Place)
    requires IsPlace(p)
    ensures IsDate(DateOfPlace(p)) && PlaceOfDate(DateOfPlace(p)) == p
  {
    DayInMonth(p.doy);
    LeapOfPlace(p.era, p.year);
    EraOf(p.era, p.year, 400);
    var y := p.year + p.era * 400;
    assert y % 400 == p.year;
  }

  /** The place of a date is a place, and has that date. */
  lemma DateRoundTrip(date: Date)
    requires IsDate(date)
    ensures IsPlace(PlaceOfDate(date)) && DateOfPlace(PlaceOfDate(date)) == date
  {
    var y := if date.month <= 2 then date.year - 1 else date.year;
    var mp := if date.month > 2 then date.month - 3 else date.month + 9;
    LeapOfPlace(y / 400, y % 400);
    assert y == 400 * (y / 400) + y % 400;
    MonthOfDay(mp, date.day);
  }

  /** `civil` undoes `days_from_civil` on every date of the proleptic calendar. */
  lemma DateSurvives(date: Date)
    requires IsDate(date)
    ensures CivilOf(DaysFromCivil(date)) == date
  {
    DateRoundTrip(date);
    DaysArePlace(date);
    CivilIsPlace(PlaceOfDate(date));
  }

  /** `days_from_civil` undoes `civil` on every day number, negative ones included, and every day is a date. */
  lemma DaySurvives(days: int)
    ensures IsDate(CivilOf(days)) && DaysFromCivil(CivilOf(days)) == days
  {
    var p := DayHasPlace(days);
    CivilIsPlace(p);
    PlaceRoundTrip(p);
    DaysArePlace(CivilOf(days));
  }

  /** The next date has the next number. */
  lemma NextDayIsNext(date: Date)
    requires IsDate(date)
    ensures IsDate(NextDay(date)) && DaysFromCivil(NextDay(date)) == DaysFromCivil(date) + 1
  {
    DaysArePlace(date);
    DaysArePlace(NextDay(date));
    NextPlace(date);
  }

  lemma NextPlace(date: Date)
    requires IsDate(date)
    ensures DaysOfPlace(PlaceOfDate(NextDay(date))) == DaysOfPlace(PlaceOfDate(date)) + 1
  {
    if date.day < DaysInMonth(date.year, date.month) {
      assert PlaceOfDate(NextDay(date)) == PlaceOfDate(date).(doy := PlaceOfDate(date).doy + 1);
    } else if date.month == 2 {
      LastOfFebruary(date);
    } else {
      NextMonth(date);
    }
  }

  lemma LastOfFebruary(date: Date)
    requires IsDate(date) && date.month == 2 && date.day == DaysInMonth(date.year, 2)
    ensures DaysOfPlace(PlaceOfDate(Date(date.year, 3, 1))) == DaysOfPlace(PlaceOfDate(date)) + 1
  {
    var y := date.year - 1;
    assert y == 400 * (y / 400) + y % 400;
    LeapOfPlace(y / 400, y % 400);
    EndOfFebruary(y, date.year);
  }

  /** The months that do not end a year of the era. */
  lemma NextMonth(date: Date)
    requires IsDate(date) && date.month != 2 && date.day == DaysInMonth(date.year, date.month)
    ensures DaysOfPlace(PlaceOfDate(NextDay(date))) == DaysOfPlace(PlaceOfDate(date)) + 1
  {
    var mp := if date.month > 2 then date.month - 3 else date.month + 9;
    assert MonthStart(mp + 1) == MonthStart(mp) + MonthLength(mp);
    assert PlaceOfDate(NextDay(date)) == PlaceOfDate(date).(doy := PlaceOfDate(date).doy + 1);
  }

  /** From the last of February to the first of March: the next year of the era, or the next era. */
  lemma EndOfFebruary(y: int, year: int)
    requires y == year - 1
    ensures DaysOfPlace(PlaceOfDate(Date(year, 3, 1)))
         == DaysOfPlace(Place(y / 400, y % 400, YearDays(y % 400) - 1)) + 1
  {
    if y % 400 == 399 {
      assert year == 400 * (y / 400 + 1) + 0;
      QuotientIs(year, 400, y / 400 + 1, 0);
      YearLength(0);
    } else {
      QuotientIs(year, 400, y / 400, y % 400 + 1);
      YearLength(y % 400);
    }
  }

  /** The first of January 1970 moved by a number of days in the calendar. */
  function After(days: nat): Date {
    if days == 0 then Date(1970, 1, 1) else NextDay(After(days - 1))
  }

  /** Two functions that undo each other step together. */
  lemma Steps(civil: int -> Date, number: Date -> int, days: int)
    requires IsDate(civil(days)) && number(civil(days)) == days
    requires forall date :: IsDate(date) ==> civil(number(date)) == date
    requires forall date :: IsDate(date) ==> IsDate(NextDay(date)) && number(NextDay(date)) == number(date) + 1
    ensures civil(days + 1) == NextDay(civil(days))
  {
    var next := NextDay(civil(days));
    assert civil(number(next)) == next;
  }

  /** Day numbers step as the calendar does, before 1970 too. */
  lemma CivilSteps(days: int)
    ensures CivilOf(days + 1) == NextDay(CivilOf(days))
  {
    DaySurvives(days);
    forall date | IsDate(date) ensures CivilOf(DaysFromCivil(date)) == date {
      DateSurvives(date);
    }
    forall date | IsDate(date)
      ensures IsDate(NextDay(date)) && DaysFromCivil(NextDay(date)) == DaysFromCivil(date) + 1
    {
      NextDayIsNext(date);
    }
    Steps(CivilOf, DaysFromCivil, days);
  }

  lemma EpochNumber()
    ensures DaysFromCivil(Date(1970, 1, 1)) == 0
  {
  }

  lemma Epoch()
    ensures CivilOf(0) == Date(1970, 1, 1)
  {
    EpochNumber();
    DateSurvives(Date(1970, 1, 1));
  }

  /** Whatever starts there and steps a day at a time counts the days. */
  lemma {:induction false} StepsCount(civil: int -> Date, days: nat)
    requires civil(0) == Date(1970, 1, 1) && forall d :: civil(d + 1) == NextDay(civil(d))
    ensures civil(days) == After(days)
  {
    if days > 0 {
      StepsCount(civil, days - 1);
      assert civil(days - 1 + 1) == NextDay(civil(days - 1));
    }
  }

  /** So `civil` counts calendar days from the first of January 1970. */
  lemma CivilCountsDays(days: nat)
    ensures CivilOf(days) == After(days)
  {
    Epoch();
    forall d ensures CivilOf(d + 1) == NextDay(CivilOf(d)) {
      CivilSteps(d);
    }
    StepsCount(CivilOf, days);
  }
}
