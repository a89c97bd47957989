// Cron expressions: parsing, matching, and the minute-by-minute search for the next run,
// which never leaves the current month; and the scheduler check that relies on it.
module Cron {
  import opened Wrappers
  import opened Text

  // ---------------------------------------------------------------- calendar

  datatype DateTime =
    DateTime(year: int, month: int, day: int, hour: int, minute: int, second: int, microsecond: int)

  predicate IsLeap(year: int) {
    year % 4 == 0 && (year % 100 != 0 || year % 400 == 0)
  }

  function DaysInMonth(year: int, month: int): (n: int)
    ensures 28 <= n <= 31
  {
    if month == 2 then if IsLeap(year) then 29 else 28
    else if month in {4, 6, 9, 11} then 30
    else 31
  }

  predicate Valid(t: DateTime) {
    && 1 <= t.year <= 9999 && 1 <= t.month <= 12 && 1 <= t.day <= DaysInMonth(t.year, t.month)
    && 0 <= t.hour < 24 && 0 <= t.minute < 60 && 0 <= t.second < 60 && 0 <= t.microsecond < 1_000_000
  }

  function DaysBeforeMonth(year: int, month: int): int {
    if month <= 1 then 0 else DaysBeforeMonth(year, month - 1) + DaysInMonth(year, month - 1)
  }

  // Days since the first day of year 1, which is day 1.
  function Ordinal(t: DateTime): int {
    var past := t.year - 1;
    past * 365 + past / 4 - past / 100 + past / 400 + DaysBeforeMonth(t.year, t.month) + t.day
  }

  // Monday is 0.
  function Weekday(t: DateTime): (w: int)
    ensures 0 <= w < 7
  {
    (Ordinal(t) + 6) % 7
  }

  // The minutes of a month, counted from its first midnight.
  function Clock(t: DateTime): int {
    ((t.day - 1) * 24 + t.hour) * 60 + t.minute
  }

  function MonthMinutes(t: DateTime): (n: int)
    ensures 40320 <= n <= 44640
  {
    DaysInMonth(t.year, t.month) * 1440
  }

  // That minute of the month of t.
  function AtMinute(t: DateTime, n: int): DateTime {
    DateTime(t.year, t.month, n / 1440 + 1, n / 60 % 24, n % 60, 0, 0)
  }

  // Microseconds since the start of the month.
  function Instant(t: DateTime): int {
    (Clock(t) * 60 + t.second) * 1_000_000 + t.microsecond
  }

  // Minutes of a month and valid times with zero seconds are the same thing.
  lemma ClockRoundTrip(t: DateTime, n: int)
    requires Valid(t)
    ensures 0 <= Clock(t) < MonthMinutes(t)
    ensures AtMinute(t, Clock(t)) == t.(second := 0, microsecond := 0)
    ensures 0 <= n < MonthMinutes(t) ==> Valid(AtMinute(t, n)) && Clock(AtMinute(t, n)) == n
  {
    var hours := (t.day - 1) * 24 + t.hour;
    assert Clock(t) == hours * 60 + t.minute && Clock(t) / 60 == hours && Clock(t) % 60 == t.minute;
    assert hours / 24 == t.day - 1 && hours % 24 == t.hour;
    HoursAndDays(Clock(t));
    HoursAndDays(n);
  }

  lemma HoursAndDays(n: int)
    ensures n / 60 / 24 == n / 1440 && n / 60 == n / 1440 * 24 + n / 60 % 24 && n == n / 60 * 60 + n % 60
  {
  }

  // ---------------------------------------------------------------- parsing

  datatype CronError = WrongFieldCount | BadField | DayOutOfRange | NoMatchingTime

  // What one comma-separated part stands for; None is the ValueError.
  datatype PartMeaning = Span(lo: int, hi: int, step: int)

  function Meaning(part: string, min: int, max: int): Option<PartMeaning> {
    if part == "*" then Some(Span(min, max, 1))
    else if "*/" <= part then
      match PyInt(part[2..])
      case None => None
      case Some(step) => if step == 0 then None else Some(Span(min, max, step))
    else if '-' in part then
      var ends := Split(part, '-');
      if |ends| != 2 then None
      else
        match (PyInt(ends[0]), PyInt(ends[1]))
        case (Some(start), Some(end)) => Some(Span(start, end, 1))
        case _ => None
    else
      match PyInt(part)
      case None => None
      case Some(n) => Some(Span(n, n, 1))
  }

  // A descending range from a smaller to a larger bound is empty.
  predicate Within(v: int, m: PartMeaning) {
    m.step > 0 && m.lo <= v <= m.hi && (v - m.lo) % m.step == 0
  }

  predicate Denotes(field: string, min: int, max: int, v: int) {
    exists part :: part in Split(field, ',') && Meaning(part, min, max).Some? && Within(v, Meaning(part, min, max).value)
  }

  predicate ValidField(field: string, min: int, max: int) {
    forall part :: part in Split(field, ',') ==> Meaning(part, min, max).Some?
  }

  // set(range(lo, hi + 1, step)), for lo <= hi when the step is negative
  function RangeSet(m: PartMeaning): (r: set<int>)
    ensures forall v :: v in r <==> Within(v, m)
  {
    set v | m.lo <= v <= m.hi && Within(v, m)
  }

  method ParseField(field: string, min: int, max: int) returns (r: Result<set<int>, CronError>)
    requires min <= max
    ensures r.Err? <==> !ValidField(field, min, max)
    ensures r.Err? ==> r.error == BadField
    ensures r.Ok? ==> forall v :: v in r.value <==> Denotes(field, min, max, v)
  {
    var values: set<int> := {};
    var parts := Split(field, ',');
    for i := 0 to |parts|
      invariant forall k :: 0 <= k < i ==> Meaning(parts[k], min, max).Some?
      invariant forall v :: v in values <==>
                  exists k :: 0 <= k < i && Within(v, Meaning(parts[k], min, max).value)
    {
      var part := parts[i];
      assert part in Split(field, ',');
      var meaning := Span(min, max, 1);
      if part == "*" {
      } else if "*/" <= part {
        var step := PyInt(part[2..]);
        if step.None? || step.value == 0 {
          return Err(BadField);
        }
        meaning := Span(min, max, step.value);
      } else if '-' in part {
        var ends := Split(part, '-');
        if |ends| != 2 {
          return Err(BadField);
        }
        var start, end := PyInt(ends[0]), PyInt(ends[1]);
        if start.None? || end.None? {
          return Err(BadField);
        }
        meaning := Span(start.value, end.value, 1);
      } else {
        var n := PyInt(part);
        if n.None? {
          return Err(BadField);
        }
        meaning := Span(n.value, n.value, 1);
      }
      assert Meaning(part, min, max) == Some(meaning);
      values := values + RangeSet(meaning);
    }
    r := Ok(values);
  }

  // ---------------------------------------------------------------- what is written is what is meant

  // The four documented forms of a part.
  datatype Part = Any | Every(step: nat) | Range(first: nat, last: nat) | Exactly(n: nat)

  function PrintPart(p: Part): string {
    match p
    case Any => "*"
    case Every(step) => "*/" + NatToString(step)
    case Range(first, last) => NatToString(first) + "-" + NatToString(last)
    case Exactly(n) => NatToString(n)
  }

  function PrintField(parts: seq<Part>): string
    requires parts != []
  {
    if |parts| == 1 then PrintPart(parts[0]) else PrintPart(parts[0]) + "," + PrintField(parts[1..])
  }

  predicate Covers(p: Part, min: int, max: int, v: int) {
    match p
    case Any => min <= v <= max
    case Every(step) => step > 0 && min <= v <= max && (v - min) % step == 0
    case Range(first, last) => first <= v <= last
    case Exactly(n) => v == n
  }

  lemma PartMeans(p: Part, min: int, max: int)
    requires p.Every? ==> p.step > 0
    ensures Meaning(PrintPart(p), min, max).Some?
    ensures forall v :: Within(v, Meaning(PrintPart(p), min, max).value) <==> Covers(p, min, max, v)
  {
    var s := PrintPart(p);
    match p
    case Any =>
    case Every(step) => PyIntOfNat(step); assert s[2..] == NatToString(step);
    case Range(first, last) =>
      PyIntOfNat(first);
      PyIntOfNat(last);
      SplitAfter(NatToString(first), '-', NatToString(last));
      SplitPlain(NatToString(last), '-');
      assert s[|NatToString(first)|] == '-' && s[0] == NatToString(first)[0];
    case Exactly(n) => PyIntOfNat(n); assert IsDigit(s[0]);
  }

  lemma PartPlain(p: Part)
    ensures ',' !in PrintPart(p)
  {
  }

  lemma {:induction false} SplitField(parts: seq<Part>)
    requires parts != []
    ensures |Split(PrintField(parts), ',')| == |parts|
    ensures forall i :: 0 <= i < |parts| ==> Split(PrintField(parts), ',')[i] == PrintPart(parts[i])
  {
    PartPlain(parts[0]);
    if |parts| == 1 {
      SplitPlain(PrintPart(parts[0]), ',');
    } else {
      SplitField(parts[1..]);
      SplitAfter(PrintPart(parts[0]), ',', PrintField(parts[1..]));
    }
  }

  // A printed field is valid and stands for exactly the values its parts cover.
  lemma FieldMeans(parts: seq<Part>, min: int, max: int)
    requires parts != [] && forall p :: p in parts && p.Every? ==> p.step > 0
    ensures ValidField(PrintField(parts), min, max)
    ensures forall v :: Denotes(PrintField(parts), min, max, v) <==> exists p :: p in parts && Covers(p, min, max, v)
  {
    var texts := Split(PrintField(parts), ',');
    SplitField(parts);
    forall i | 0 <= i < |parts|
      ensures Meaning(texts[i], min, max).Some?
      ensures forall v :: Within(v, Meaning(texts[i], min, max).value) <==> Covers(parts[i], min, max, v)
    {
      PartMeans(parts[i], min, max);
    }
    forall v ensures Denotes(PrintField(parts), min, max, v) <==> exists p :: p in parts && Covers(p, min, max, v) {
      if p :| p in parts && Covers(p, min, max, v) {
        var i :| 0 <= i < |parts| && parts[i] == p;
        assert texts[i] in texts;
      }
    }
  }

  // str.split() without arguments
  function Words(s: string): seq<string> {
    WordsFrom(s, "")
  }

  function WordsFrom(s: string, word: string): seq<string> {
    if s == "" then if word == "" then [] else [word]
    else if IsSpace(s[0]) then (if word == "" then [] else [word]) + WordsFrom(s[1..], "")
    else WordsFrom(s[1..], word + [s[0]])
  }

  predicate Word(s: string) {
    s != "" && forall i :: 0 <= i < |s| ==> !IsSpace(s[i])
  }

  function JoinWords(words: seq<string>): string {
    if words == [] then "" else words[0] + " " + JoinWords(words[1..])
  }

  lemma {:induction false} WordsFromWord(s: string, word: string, rest: string)
    requires forall i :: 0 <= i < |s| ==> !IsSpace(s[i])
    requires word + s != ""
    ensures WordsFrom(s + " " + rest, word) == [word + s] + Words(rest)
  {
    var t := s + " " + rest;
    if s == "" {
      assert t[1..] == rest && word + s == word;
    } else {
      assert t[1..] == s[1..] + " " + rest && word + [s[0]] + s[1..] == word + s;
      WordsFromWord(s[1..], word + [s[0]], rest);
    }
  }

  lemma {:induction false} BlanksSkipped(blank: string, rest: string)
    requires Blank(blank)
    ensures Words(blank + rest) == Words(rest)
  {
    if blank == "" {
      assert blank + rest == rest;
    } else {
      assert (blank + rest)[1..] == blank[1..] + rest;
      BlanksSkipped(blank[1..], rest);
    }
  }

  // Any white space separates words, and more of it does not matter.
  lemma {:induction false} BlanksSeparate(word: string, blank: string, rest: string)
    requires Word(word) && Blank(blank) && blank != ""
    ensures Words(word + (blank + rest)) == [word] + Words(rest)
  {
    WordRead(word, "", blank + rest);
    assert (blank + rest)[1..] == blank[1..] + rest;
    BlanksSkipped(blank[1..], rest);
    assert "" + word == word;
  }

  lemma {:induction false} WordRead(s: string, word: string, rest: string)
    requires forall i :: 0 <= i < |s| ==> !IsSpace(s[i])
    ensures WordsFrom(s + rest, word) == WordsFrom(rest, word + s)
  {
    if s == "" {
      assert s + rest == rest && word + s == word;
    } else {
      assert (s + rest)[1..] == s[1..] + rest && word + [s[0]] + s[1..] == word + s;
      WordRead(s[1..], word + [s[0]], rest);
    }
  }

  // Words joined by blanks are found again.
  lemma {:induction false} WordsOfJoined(words: seq<string>)
    requires forall i :: 0 <= i < |words| ==> Word(words[i])
    ensures Words(JoinWords(words)) == words
  {
    if words != [] {
      WordsFromWord(words[0], "", JoinWords(words[1..]));
      WordsOfJoined(words[1..]);
      assert "" + words[0] == words[0] && [words[0]] + words[1..] == words;
    }
  }

  datatype CronExpression = CronExpression(
    minute: set<int>, hour: set<int>, dayOfMonth: set<int>, month: set<int>, dayOfWeek: set<int>)

  const FIELD_RANGES: seq<(int, int)> := [(0, 59), (0, 23), (1, 31), (1, 12), (0, 6)]

  // Each field holds what its word denotes.
  ghost predicate Filled(words: seq<string>, c: CronExpression)
    requires |words| == 5
  {
    && Holds(c.minute, words[0], 0, 59) && Holds(c.hour, words[1], 0, 23) && Holds(c.dayOfMonth, words[2], 1, 31)
    && Holds(c.month, words[3], 1, 12) && Holds(c.dayOfWeek, words[4], 0, 6)
  }

  ghost predicate Holds(values: set<int>, field: string, min: int, max: int) {
    forall v :: v in values <==> Denotes(field, min, max, v)
  }

  method Parse(expression: string) returns (r: Result<CronExpression, CronError>)
    ensures var words := Words(expression);
            r == Err(WrongFieldCount) <==> |words| != 5
    ensures var words := Words(expression);
            |words| == 5 ==>
              (r.Ok? <==> forall i :: 0 <= i < 5 ==> ValidField(words[i], FIELD_RANGES[i].0, FIELD_RANGES[i].1))
    ensures r.Ok? ==> |Words(expression)| == 5 && Filled(Words(expression), r.value)
  {
    var parts := Words(expression);
    if |parts| != 5 {
      return Err(WrongFieldCount);
    }
    var fields: seq<set<int>> := [];
    for i := 0 to 5
      invariant |fields| == i
      invariant forall k :: 0 <= k < i ==> ValidField(parts[k], FIELD_RANGES[k].0, FIELD_RANGES[k].1)
      invariant forall k, v :: 0 <= k < i ==>
                  (v in fields[k] <==> Denotes(parts[k], FIELD_RANGES[k].0, FIELD_RANGES[k].1, v))
    {
      var field := ParseField(parts[i], FIELD_RANGES[i].0, FIELD_RANGES[i].1);
      if field.Err? {
        return Err(field.error);
      }
      fields := fields + [field.value];
    }
    assert FIELD_RANGES[0] == (0, 59) && FIELD_RANGES[1] == (0, 23) && FIELD_RANGES[2] == (1, 31);
    assert FIELD_RANGES[3] == (1, 12) && FIELD_RANGES[4] == (0, 6);
    r := Ok(CronExpression(fields[0], fields[1], fields[2], fields[3], fields[4]));
  }

  // ---------------------------------------------------------------- matching

  // Cron counts from Sunday, the calendar from Monday.
  function ConvertedDays(cronDays: set<int>): set<int> {
    set d | d in cronDays :: if d == 0 then 6 else d - 1
  }

  lemma SomeMember<T>(s: set<T>) returns (x: T)
    requires s != {}
    ensures x in s
  {
    x :| x in s;
  }

  method ConvertWeekday(cronDays: set<int>) returns (days: set<int>)
    ensures days == ConvertedDays(cronDays)
  {
    days := {};
    var left := cronDays;
    while left != {}
      invariant left <= cronDays && days == ConvertedDays(cronDays - left)
      decreases |left|
    {
      ghost var some := SomeMember(left);
      var day :| day in left;
      var rest := left - {day};
      assert cronDays - rest == (cronDays - left) + {day};
      ConvertOne(cronDays - left, day);
      days := days + {if day == 0 then 6 else day - 1};
      left := rest;
    }
    assert cronDays - {} == cronDays;
  }

  lemma ConvertOne(days: set<int>, d: int)
    ensures ConvertedDays(days + {d}) == ConvertedDays(days) + {if d == 0 then 6 else d - 1}
  {
  }

  // A day matches the field just when its number counted from Sunday is listed; 7 also means Sunday.
  lemma WeekdayMatches(t: DateTime, cronDays: set<int>)
    ensures Weekday(t) in ConvertedDays(cronDays) <==>
              (Weekday(t) + 1) % 7 in cronDays || (Weekday(t) == 6 && 7 in cronDays)
  {
    var w := Weekday(t);
    assert forall d :: d in cronDays && (if d == 0 then 6 else d - 1) == w ==> d == w + 1 || (d == 0 && w == 6);
    if w + 1 in cronDays {
      assert (if w + 1 == 0 then 6 else w + 1 - 1) == w;
    }
  }

  predicate Matches(c: CronExpression, t: DateTime) {
    t.minute in c.minute && t.hour in c.hour && t.day in c.dayOfMonth && t.month in c.month
    && Weekday(t) in ConvertedDays(c.dayOfWeek)
  }

  // ---------------------------------------------------------------- the search

  // The first matching minute of the month of t, from n on.
  function FirstMatch(c: CronExpression, t: DateTime, n: int): (r: Option<int>)
    decreases MonthMinutes(t) - n
  {
    if n >= MonthMinutes(t) then None
    else if Matches(c, AtMinute(t, n)) then Some(n)
    else FirstMatch(c, t, n + 1)
  }

  function SearchFrom(c: CronExpression, t: DateTime, n: int): Result<DateTime, CronError> {
    match FirstMatch(c, t, n)
    case None => Err(DayOutOfRange)
    case Some(m) => Ok(AtMinute(t, m))
  }

  function NextRunAfter(c: CronExpression, after: DateTime): Result<DateTime, CronError> {
    SearchFrom(c, after, Clock(after) + 1)
  }

  const MINUTES_IN_A_YEAR := 525600

  // One turn of the loop: None is the ValueError of a day past the end of the month.
  function NextMinute(t: DateTime): Option<DateTime> {
    var s := t.(minute := (t.minute + 1) % 60);
    if s.minute != 0 then Some(s)
    else
      var u := s.(hour := (s.hour + 1) % 24);
      if u.hour != 0 then Some(u)
      else if u.day + 1 > DaysInMonth(u.year, u.month) then None
      else Some(u.(day := u.day + 1))
  }

  lemma NextMinuteIs(t: DateTime, n: int)
    requires Valid(t) && 0 <= n < MonthMinutes(t)
    ensures NextMinute(AtMinute(t, n)) == if n + 1 < MonthMinutes(t) then Some(AtMinute(t, n + 1)) else None
  {
    HoursAndDays(n);
    HoursAndDays(n + 1);
  }

  lemma SearchStep(c: CronExpression, t: DateTime, n: int)
    requires Valid(t) && 0 <= n < MonthMinutes(t)
    ensures SearchFrom(c, t, n + 1)
            == match NextMinute(AtMinute(t, n))
               case None => Err(DayOutOfRange)
               case Some(u) => if Matches(c, u) then Ok(u) else SearchFrom(c, t, n + 2)
    ensures NextMinute(AtMinute(t, n)).Some? ==> n + 1 < MonthMinutes(t) && NextMinute(AtMinute(t, n)).value == AtMinute(t, n + 1)
  {
    NextMinuteIs(t, n);
  }

  // Minute 0 carries into the hour, hour 0 into the day.
  method AdvanceMinute(t: DateTime) returns (r: Option<DateTime>)
    ensures r == NextMinute(t)
  {
    var current := t.(minute := (t.minute + 1) % 60);
    if current.minute == 0 {
      current := current.(hour := (current.hour + 1) % 24);
      if current.hour == 0 {
        if current.day + 1 > DaysInMonth(current.year, current.month) {
          return None;
        }
        current := current.(day := current.day + 1);
      }
    }
    r := Some(current);
  }

  method NextRun(c: CronExpression, after: DateTime) returns (r: Result<DateTime, CronError>)
    requires Valid(after)
    ensures r == NextRunAfter(c, after)
  {
    ClockRoundTrip(after, 0);
    ghost var start := Clock(after);
    var current := after.(second := 0, microsecond := 0);
    for i := 0 to MINUTES_IN_A_YEAR
      invariant 0 <= start + i < MonthMinutes(after)
      invariant current == AtMinute(after, start + i)
      invariant SearchFrom(c, after, start + i + 1) == NextRunAfter(c, after)
    {
      SearchStep(c, after, start + i);
      var advanced := AdvanceMinute(current);
      if advanced.None? {
        return Err(DayOutOfRange);
      }
      current := advanced.value;
      if Matches(c, current) {
        return Ok(current);
      }
    }
    // The bound is never reached: a month has fewer minutes than a year.
    assert false;
    r := Err(NoMatchingTime);
  }

  lemma {:induction false} FirstMatchIsLeast(c: CronExpression, t: DateTime, n: int)
    ensures FirstMatch(c, t, n).Some? ==>
              var m := FirstMatch(c, t, n).value;
              n <= m < MonthMinutes(t) && Matches(c, AtMinute(t, m)) && forall k :: n <= k < m ==> !Matches(c, AtMinute(t, k))
    ensures FirstMatch(c, t, n).None? ==> forall k :: n <= k < MonthMinutes(t) ==> !Matches(c, AtMinute(t, k))
    decreases MonthMinutes(t) - n
  {
    if n < MonthMinutes(t) && !Matches(c, AtMinute(t, n)) {
      FirstMatchIsLeast(c, t, n + 1);
    }
  }

  predicate SameMonth(t: DateTime, u: DateTime) {
    t.year == u.year && t.month == u.month
  }

  // A whole minute after t in the same month.
  predicate LaterMinute(t: DateTime, u: DateTime) {
    Valid(u) && SameMonth(t, u) && u.second == 0 && u.microsecond == 0 && Instant(t) < Instant(u)
  }

  // The result matches, is strictly later, lies in the same month, and no whole minute in
  // between matches.
  lemma NextRunIsLeast(c: CronExpression, after: DateTime)
    requires Valid(after) && NextRunAfter(c, after).Ok?
    ensures var next := NextRunAfter(c, after).value;
            && LaterMinute(after, next) && Matches(c, next)
            && forall u :: LaterMinute(after, u) && Matches(c, u) ==> Instant(next) <= Instant(u)
  {
    var m := FirstMatch(c, after, Clock(after) + 1).value;
    FirstMatchIsLeast(c, after, Clock(after) + 1);
    ClockRoundTrip(after, m);
    forall u | LaterMinute(after, u) && Matches(c, u)
      ensures Instant(AtMinute(after, m)) <= Instant(u)
    {
      LaterMinuteIs(after, u);
    }
  }

  lemma LaterMinuteIs(t: DateTime, u: DateTime)
    requires Valid(t) && LaterMinute(t, u)
    ensures Clock(t) < Clock(u) < MonthMinutes(t) && u == AtMinute(t, Clock(u))
  {
    ClockRoundTrip(u, 0);
    ClockRoundTrip(t, 0);
  }

  // The search fails if and only if no later minute of the month matches, so it fails for
  // every expression whose next match lies in a later month.
  lemma NextRunFailsExactly(c: CronExpression, after: DateTime)
    requires Valid(after)
    ensures NextRunAfter(c, after).Err? <==> forall u :: LaterMinute(after, u) ==> !Matches(c, u)
  {
    FirstMatchIsLeast(c, after, Clock(after) + 1);
    if NextRunAfter(c, after).Ok? {
      NextRunIsLeast(c, after);
    } else {
      forall u | LaterMinute(after, u) ensures !Matches(c, u) {
        LaterMinuteIs(after, u);
      }
    }
  }

  // ---------------------------------------------------------------- the scheduler

  predicate NotBefore(t: DateTime, u: DateTime) {
    t.year > u.year
    || (t.year == u.year && (t.month > u.month || (t.month == u.month && Instant(t) >= Instant(u))))
  }

  class ScheduledJob {
    const cron: CronExpression
    var enabled: bool
    var lastRun: Option<DateTime>
    var nextRun: Option<DateTime>

    constructor (cron: CronExpression, nextRun: Option<DateTime>)
      ensures this.cron == cron && this.nextRun == nextRun && enabled && lastRun == None
    {
      this.cron := cron;
      this.nextRun := nextRun;
      enabled := true;
      lastRun := None;
    }

    // One job in one check; `accepted` says whether the queue took the submission.
    // A submission that succeeded stays in the queue when the search then fails.
    method Check(now: DateTime, accepted: bool) returns (submitted: bool)
      requires Valid(now)
      modifies this
      ensures submitted == (Due(old(enabled), old(nextRun), now) && accepted)
      ensures enabled == old(enabled)
      ensures nextRun == if submitted then Reschedule(cron, old(nextRun), now) else old(nextRun)
      ensures lastRun == if submitted then Some(now) else old(lastRun)
    {
      submitted := false;
      if !enabled {
        return;
      }
      if nextRun.Some? && NotBefore(now, nextRun.value) {
        if !accepted {
          return;
        }
        submitted := true;
        lastRun := Some(now);
        var next := NextRun(cron, now);
        if next.Ok? {
          nextRun := Some(next.value);
        }
      }
    }
  }

  predicate Due(enabled: bool, nextRun: Option<DateTime>, now: DateTime) {
    enabled && nextRun.Some? && NotBefore(now, nextRun.value)
  }

  function Reschedule(c: CronExpression, nextRun: Option<DateTime>, now: DateTime): Option<DateTime> {
    match NextRunAfter(c, now)
    case Ok(t) => Some(t)
    case Err(_) => nextRun
  }

  // After a submission at `now` the job is due again at a later check of the same month if
  // and only if the search failed or a matching minute has passed in between.
  lemma DueAgainExactly(c: CronExpression, nextRun: Option<DateTime>, now: DateTime, later: DateTime)
    requires Valid(now) && Valid(later) && SameMonth(now, later) && Instant(now) <= Instant(later)
    requires Due(true, nextRun, now)
    ensures Due(true, Reschedule(c, nextRun, now), later) <==>
              || NextRunAfter(c, now).Err?
              || exists u :: LaterMinute(now, u) && Matches(c, u) && Instant(u) <= Instant(later)
  {
    if NextRunAfter(c, now).Ok? {
      NextRunIsLeast(c, now);
      var next := NextRunAfter(c, now).value;
      assert LaterMinute(now, next) && Matches(c, next);
    }
  }

  // Once the last match of the month is past, every further check of the month submits
  // the job once more and leaves it due.
  lemma OverdueUntilMonthEnds(c: CronExpression, nextRun: Option<DateTime>, now: DateTime, later: DateTime)
    requires Valid(now) && Valid(later) && SameMonth(now, later) && Instant(now) <= Instant(later)
    requires Due(true, nextRun, now) && NextRunAfter(c, now).Err?
    ensures Reschedule(c, nextRun, now) == nextRun && Due(true, nextRun, later) && NextRunAfter(c, later).Err?
  {
    NextRunFailsExactly(c, now);
    NextRunFailsExactly(c, later);
    assert forall u :: LaterMinute(later, u) ==> LaterMinute(now, u);
  }
}
