// What a written cron expression means for the search, in terms of the documented forms of
// its fields and of a calendar in which Sunday is day 0.
module CronMeaning {
  import opened Wrappers
  import opened Text
  import opened Cron

  // ---------------------------------------------------------------- the calendar

  function NextDay(t: DateTime): DateTime {
    if t.day < DaysInMonth(t.year, t.month) then t.(day := t.day + 1)
    else if t.month < 12 then t.(month := t.month + 1, day := 1)
    else t.(year := t.year + 1, month := 1, day := 1)
  }

  // The lengths of the months, written out.
  lemma MonthLengths(year: int, month: int)
    requires 1 <= month <= 12 && month != 2
    ensures DaysInMonth(year, month) == if month == 4 || month == 6 || month == 9 || month == 11 then 30 else 31
  {
  }

  lemma February(year: int)
    ensures DaysInMonth(year, 2) ==
            if year % 400 == 0 then 29 else if year % 100 == 0 then 28 else if year % 4 == 0 then 29 else 28
  {
    FourDivides(year);
  }

  lemma FourDivides(year: int)
    ensures year % 400 == 0 ==> year % 4 == 0 && year % 100 == 0
  {
    if year % 400 == 0 {
      var k := year / 400;
      assert year == 4 * (100 * k) && year == 100 * (4 * k);
    }
  }

  lemma {:induction false} DaysBefore(year: int, month: int)
    requires 1 <= month <= 12
    ensures var leap := if IsLeap(year) then 1 else 0;
            DaysBeforeMonth(year, month) ==
            match month
            case 1 => 0 case 2 => 31 case 3 => 59 + leap case 4 => 90 + leap case 5 => 120 + leap
            case 6 => 151 + leap case 7 => 181 + leap case 8 => 212 + leap case 9 => 243 + leap
            case 10 => 273 + leap case 11 => 304 + leap case _ => 334 + leap
  {
    if month > 1 {
      DaysBefore(year, month - 1);
    }
  }

  lemma YearLength(year: int)
    ensures DaysBeforeMonth(year, 12) + 31 == if IsLeap(year) then 366 else 365
  {
    DaysBefore(year, 12);
  }

  // Leap days up to the end of a year.
  lemma LeapDays(year: int)
    requires year >= 1
    ensures year / 4 - year / 100 + year / 400
         == (year - 1) / 4 - (year - 1) / 100 + (year - 1) / 400 + if IsLeap(year) then 1 else 0
  {
    StepDivides(year, 4);
    StepDivides(year, 100);
    StepDivides(year, 400);
    FourDivides(year);
    HundredDivides(year);
  }

  lemma HundredDivides(year: int)
    ensures year % 100 == 0 ==> year % 4 == 0
  {
    if year % 100 == 0 {
      var k := year / 100;
      assert year == 4 * (25 * k);
    }
  }

  lemma StepDivides(n: int, d: int)
    requires n >= 1 && (d == 4 || d == 100 || d == 400)
    ensures n / d == (n - 1) / d + if n % d == 0 then 1 else 0
  {
    if d == 4 {
    } else if d == 100 {
    } else {
    }
  }

  // Days are numbered without gaps, over the ends of months and years,
  lemma NextDayIsNext(t: DateTime)
    requires Valid(t)
    ensures Ordinal(NextDay(t)) == Ordinal(t) + 1
  {
    if t.day == DaysInMonth(t.year, t.month) && t.month == 12 {
      YearLength(t.year);
      LeapDays(t.year);
      assert DaysBeforeMonth(t.year + 1, 1) == 0;
    }
  }

  // so weekdays follow each other, and 6 January 2025 is a Monday.
  lemma WeekdaysFollow(t: DateTime)
    requires Valid(t)
    ensures Weekday(NextDay(t)) == (Weekday(t) + 1) % 7
    ensures Weekday(DateTime(2025, 1, 6, t.hour, t.minute, t.second, t.microsecond)) == 0
  {
    NextDayIsNext(t);
    var monday := DateTime(2025, 1, 6, t.hour, t.minute, t.second, t.microsecond);
    assert DaysBeforeMonth(2025, 1) == 0;
    assert Ordinal(monday) == 2024 * 365 + 506 - 20 + 5 + 6;
  }

  // ---------------------------------------------------------------- written expressions

  datatype Written = Written(
    minute: seq<Part>, hour: seq<Part>, dayOfMonth: seq<Part>, month: seq<Part>, dayOfWeek: seq<Part>)

  predicate WellWritten(w: Written) {
    GoodField(w.minute) && GoodField(w.hour) && GoodField(w.dayOfMonth) && GoodField(w.month) && GoodField(w.dayOfWeek)
  }

  predicate GoodField(parts: seq<Part>) {
    parts != [] && forall p :: p in parts && p.Every? ==> p.step > 0
  }

  function FieldTexts(w: Written): seq<string>
    requires WellWritten(w)
  {
    [PrintField(w.minute), PrintField(w.hour), PrintField(w.dayOfMonth), PrintField(w.month), PrintField(w.dayOfWeek)]
  }

  function ExpressionText(w: Written): string
    requires WellWritten(w)
  {
    JoinWords(FieldTexts(w))
  }

  predicate Covered(parts: seq<Part>, min: int, max: int, v: int) {
    exists p :: p in parts && Covers(p, min, max, v)
  }

  // Sunday is 0.
  function FromSunday(t: DateTime): int {
    (Weekday(t) + 1) % 7
  }

  // The expression accepts the minute: all five fields cover it, and 7 also means Sunday.
  predicate Accepts(w: Written, t: DateTime) {
    && Covered(w.minute, 0, 59, t.minute) && Covered(w.hour, 0, 23, t.hour)
    && Covered(w.dayOfMonth, 1, 31, t.day) && Covered(w.month, 1, 12, t.month)
    && CoversDay(w.dayOfWeek, t)
  }

  predicate CoversDay(parts: seq<Part>, t: DateTime) {
    Covered(parts, 0, 6, FromSunday(t)) || (FromSunday(t) == 0 && Covered(parts, 0, 6, 7))
  }

  lemma PartWord(p: Part)
    ensures PrintPart(p) != "" && forall i :: 0 <= i < |PrintPart(p)| ==> !IsSpace(PrintPart(p)[i])
  {
  }

  lemma {:induction false} FieldWord(parts: seq<Part>)
    requires parts != []
    ensures Word(PrintField(parts))
    decreases |parts|
  {
    PartWord(parts[0]);
    if |parts| > 1 {
      FieldWord(parts[1..]);
      WordsJoined(PrintPart(parts[0]), ",");
      WordsJoined(PrintPart(parts[0]) + ",", PrintField(parts[1..]));
    }
  }

  lemma WordsJoined(a: string, b: string)
    requires Word(a) && Word(b)
    ensures Word(a + b)
  {
  }

  lemma TextWords(w: Written)
    requires WellWritten(w)
    ensures Words(ExpressionText(w)) == FieldTexts(w)
  {
    FieldWord(w.minute);
    FieldWord(w.hour);
    FieldWord(w.dayOfMonth);
    FieldWord(w.month);
    FieldWord(w.dayOfWeek);
    WordsOfJoined(FieldTexts(w));
  }

  // The parsed fields hold what the written ones cover.
  lemma FieldIs(values: set<int>, parts: seq<Part>, min: int, max: int, v: int)
    requires GoodField(parts) && Holds(values, PrintField(parts), min, max)
    ensures v in values <==> Covered(parts, min, max, v)
  {
    FieldMeans(parts, min, max);
  }

  lemma DayIs(values: set<int>, parts: seq<Part>, t: DateTime)
    requires GoodField(parts) && Holds(values, PrintField(parts), 0, 6)
    ensures Weekday(t) in ConvertedDays(values) <==> CoversDay(parts, t)
  {
    FieldIs(values, parts, 0, 6, FromSunday(t));
    FieldIs(values, parts, 0, 6, 7);
    WeekdayMatches(t, values);
  }

  lemma MatchesAccepts(w: Written, c: CronExpression, t: DateTime)
    requires WellWritten(w) && Filled(FieldTexts(w), c)
    ensures Matches(c, t) <==> Accepts(w, t)
  {
    FieldIs(c.minute, w.minute, 0, 59, t.minute);
    FieldIs(c.hour, w.hour, 0, 23, t.hour);
    FieldIs(c.dayOfMonth, w.dayOfMonth, 1, 31, t.day);
    FieldIs(c.month, w.month, 1, 12, t.month);
    DayIs(c.dayOfWeek, w.dayOfWeek, t);
  }

  // A negative step is accepted and covers nothing,
  lemma NegativeStep(step: nat, min: int, max: int, v: int)
    requires step > 0
    ensures ValidField("*/-" + NatToString(step), min, max) && !Denotes("*/-" + NatToString(step), min, max, v)
  {
    var field, number := "*/-" + NatToString(step), "-" + NatToString(step);
    SplitPlain(field, ',');
    assert field[2..] == number && "" + (number + "") == number;
    PyIntSigned("", "-", step, "");
    assert Meaning(field, min, max) == Some(Span(min, max, 0 - step));
  }

  // and a zero step is refused.
  lemma ZeroStep(min: int, max: int)
    ensures !ValidField("*/0", min, max)
  {
    SplitPlain("*/0", ',');
    PyIntOfNat(0);
    assert "*/0"[2..] == NatToString(0) && "*/0" in Split("*/0", ',');
    assert Meaning("*/0", min, max) == None;
  }

  // The first later minute of the month that the expression accepts.
  ghost predicate FirstAccepted(w: Written, after: DateTime, next: DateTime) {
    && LaterMinute(after, next) && Accepts(w, next)
    && forall u :: LaterMinute(after, u) && Accepts(w, u) ==> Instant(next) <= Instant(u)
  }

  ghost predicate NoneAccepted(w: Written, after: DateTime) {
    forall u :: LaterMinute(after, u) ==> !Accepts(w, u)
  }

  // The search for a written expression.
  lemma SearchMeans(w: Written, c: CronExpression, after: DateTime)
    requires WellWritten(w) && Filled(FieldTexts(w), c) && Valid(after)
    ensures match NextRunAfter(c, after)
            case Ok(next) => FirstAccepted(w, after, next)
            case Err(e) => e == DayOutOfRange && NoneAccepted(w, after)
  {
    NextRunFailsExactly(c, after);
    forall u ensures Matches(c, u) <==> Accepts(w, u) {
      MatchesAccepts(w, c, u);
    }
    if NextRunAfter(c, after).Ok? {
      NextRunIsLeast(c, after);
    }
  }

  // A written expression is accepted, and its next run is the first later minute of the month
  // that it means; there is none if and only if the search raises.
  method NextRunOf(expression: string, after: DateTime, ghost w: Written) returns (r: Result<DateTime, CronError>)
    requires WellWritten(w) && expression == ExpressionText(w) && Valid(after)
    ensures match r
            case Ok(next) => FirstAccepted(w, after, next)
            case Err(e) => e == DayOutOfRange && NoneAccepted(w, after)
  {
    TextWords(w);
    AllFieldsValid(w);
    var parsed := Parse(expression);
    r := NextRun(parsed.value, after);
    SearchMeans(w, parsed.value, after);
  }

  lemma AllFieldsValid(w: Written)
    requires WellWritten(w)
    ensures forall i :: 0 <= i < 5 ==> ValidField(FieldTexts(w)[i], FIELD_RANGES[i].0, FIELD_RANGES[i].1)
  {
    FieldMeans(w.minute, 0, 59);
    FieldMeans(w.hour, 0, 23);
    FieldMeans(w.dayOfMonth, 1, 31);
    FieldMeans(w.month, 1, 12);
    FieldMeans(w.dayOfWeek, 0, 6);
    assert FIELD_RANGES[0] == (0, 59) && FIELD_RANGES[1] == (0, 23) && FIELD_RANGES[2] == (1, 31);
    assert FIELD_RANGES[3] == (1, 12) && FIELD_RANGES[4] == (0, 6);
  }

  // ---------------------------------------------------------------- the order of times

  // Microseconds since the beginning of the calendar.
  function Moment(t: DateTime): int {
    (Ordinal(t) * 86400 + t.hour * 3600 + t.minute * 60 + t.second) * 1_000_000 + t.microsecond
  }

  lemma {:induction false} MonthsBefore(year: int, m: int, n: int)
    requires 1 <= m < n <= 12
    ensures DaysBeforeMonth(year, m) + DaysInMonth(year, m) <= DaysBeforeMonth(year, n)
    decreases n - m
  {
    if n > m + 1 {
      MonthsBefore(year, m, n - 1);
    }
  }

  lemma {:induction false} YearsBefore(a: int, b: int)
    requires 1 <= a < b
    ensures YearStart(a) + (if IsLeap(a) then 366 else 365) <= YearStart(b)
    decreases b - a
  {
    LeapDays(b - 1);
    if b > a + 1 {
      YearsBefore(a, b - 1);
    }
  }

  // Days before the first of January.
  function YearStart(year: int): int {
    var past := year - 1;
    past * 365 + past / 4 - past / 100 + past / 400
  }

  lemma WithinYear(t: DateTime)
    requires Valid(t)
    ensures YearStart(t.year) < Ordinal(t) <= YearStart(t.year) + if IsLeap(t.year) then 366 else 365
    ensures 0 <= DaysBeforeMonth(t.year, t.month)
  {
    YearLength(t.year);
    if t.month < 12 {
      MonthsBefore(t.year, t.month, 12);
    }
    if t.month > 1 {
      MonthsBefore(t.year, 1, t.month);
    }
  }

  lemma EarlierMonthIsEarlier(t: DateTime, u: DateTime)
    requires Valid(t) && Valid(u) && (t.year < u.year || (t.year == u.year && t.month < u.month))
    ensures Ordinal(t) < Ordinal(u)
  {
    WithinYear(t);
    WithinYear(u);
    if t.year < u.year {
      YearsBefore(t.year, u.year);
    } else {
      MonthsBefore(t.year, t.month, u.month);
    }
  }

  // The scheduler's comparison is that of the moments themselves, over months and years.
  lemma DueIsLater(t: DateTime, u: DateTime)
    requires Valid(t) && Valid(u)
    ensures NotBefore(t, u) <==> Moment(t) >= Moment(u)
  {
    if SameMonth(t, u) {
      SameMonthMoments(t, u);
    } else if t.year < u.year || (t.year == u.year && t.month < u.month) {
      EarlierMonthIsEarlier(t, u);
      EarlierDayIsEarlier(t, u);
    } else {
      EarlierMonthIsEarlier(u, t);
      EarlierDayIsEarlier(u, t);
    }
  }

  lemma SameMonthMoments(t: DateTime, u: DateTime)
    requires Valid(t) && Valid(u) && SameMonth(t, u)
    ensures Moment(t) - Moment(u) == Instant(t) - Instant(u)
  {
    assert Ordinal(t) - Ordinal(u) == t.day - u.day;
  }

  lemma EarlierDayIsEarlier(t: DateTime, u: DateTime)
    requires Valid(t) && Valid(u) && Ordinal(t) < Ordinal(u)
    ensures Moment(t) < Moment(u)
  {
  }
}
