/** The timestamp of packages/sdk-rust/src/credentials.rs: `now_iso8601` turns a second count
    into a UTC date by walking years and months.  The clock is an input. */
module Calendar {
  import opened Wrappers
  import opened Digits

  datatype Civil = Civil(year: nat, month: nat, day: nat, hour: nat, minute: nat, second: nat)

  // ---- the Gregorian calendar in closed form --------------------------------------------

  predicate IsLeap(year: int) {
    year % 4 == 0 && (year % 100 != 0 || year % 400 == 0)
  }

  function DaysInYear(year: int): int {
    if IsLeap(year) then 366 else 365
  }

  function DaysInMonth(year: int, month: nat): nat
    requires 1 <= month <= 12
  {
    if month == 2 then (if IsLeap(year) then 29 else 28)
    else if month in {4, 6, 9, 11} then 30
    else 31
  }

  /** Leap years up to and including a year. */
  ghost function Leaps(year: int): int {
    year / 4 - year / 100 + year / 400
  }

  /** Days from the first of January 1970 to the first of January of a year. */
  ghost function DaysBeforeYear(year: int): int {
    365 * (year - 1970) + Leaps(year - 1) - Leaps(1969)
  }

  const CUMULATIVE: seq<nat> := [0, 31, 59, 90, 120, 151, 181, 212, 243, 273, 304, 334, 365]

  /** Days of a year before one of its months; month 13 stands for its end. */
  ghost function DaysBeforeMonth(year: int, month: nat): nat
    requires 1 <= month <= 13
  {
    CUMULATIVE[month - 1] + if month > 2 && IsLeap(year) then 1 else 0
  }

  ghost predicate IsValid(c: Civil) {
    1970 <= c.year && 1 <= c.month <= 12 && 1 <= c.day <= DaysInMonth(c.year, c.month)
    && c.hour < 24 && c.minute < 60 && c.second < 60
  }

  ghost function DayNumber(c: Civil): int
    requires 1 <= c.month <= 12
  {
    DaysBeforeYear(c.year) + DaysBeforeMonth(c.year, c.month) + c.day - 1
  }

  /** Seconds since the epoch. */
  ghost function SecondsOf(c: Civil): int
    requires 1 <= c.month <= 12
  {
    DayNumber(c) * 86400 + c.hour * 3600 + c.minute * 60 + c.second
  }

  // ---- the loops ------------------------------------------------------------------------

  function YearFrom(year: nat, rest: nat): (nat, nat)
    decreases rest
  {
    if rest < DaysInYear(year) then (year, rest) else YearFrom(year + 1, rest - DaysInYear(year))
  }

  function MonthFrom(year: nat, month: nat, rest: nat): (nat, nat)
    requires 1 <= month <= 13
    decreases 13 - month
  {
    if month == 13 || rest < DaysInMonth(year, month) then (month, rest)
    else MonthFrom(year, month + 1, rest - DaysInMonth(year, month))
  }

  function CivilOf(secs: nat): Civil {
    var (year, dayOfYear) := YearFrom(1970, secs / 86400);
    var (month, dayOfMonth) := MonthFrom(year, 1, dayOfYear);
    var time := secs % 86400;
    Civil(year, month, dayOfMonth + 1, time / 3600, time % 3600 / 60, time % 60)
  }

  lemma DivisionSteps(y: int)
    ensures y / 4 == (y - 1) / 4 + if y % 4 == 0 then 1 else 0
    ensures y / 100 == (y - 1) / 100 + if y % 100 == 0 then 1 else 0
    ensures y / 400 == (y - 1) / 400 + if y % 400 == 0 then 1 else 0
  {
  }

  lemma MultipleOf100(m: int)
    ensures (100 * m) % 100 == 0
  {
  }

  lemma MultipleOf4(m: int)
    ensures (4 * m) % 4 == 0
  {
  }

  lemma Multiples(y: int)
    ensures y % 400 == 0 ==> y % 100 == 0
    ensures y % 100 == 0 ==> y % 4 == 0
  {
    var q, r := y / 400, y / 100;
    MultipleOf100(4 * q);
    MultipleOf4(25 * r);
    assert y == 400 * q + y % 400 && y == 100 * r + y % 100;
  }

  lemma LeapStep(year: int)
    ensures Leaps(year) == Leaps(year - 1) + if IsLeap(year) then 1 else 0
  {
    DivisionSteps(year);
    Multiples(year);
  }

  lemma NextYear(year: int)
    ensures DaysBeforeYear(year + 1) == DaysBeforeYear(year) + DaysInYear(year)
  {
    hide Leaps, IsLeap;
    LeapStep(year);
  }

  lemma TimeOfDay(time: nat)
    requires time < 86400
    ensures time / 3600 < 24 && time % 3600 / 60 < 60 && time / 3600 * 3600 + time % 3600 / 60 * 60 + time % 60 == time
  {
    assert time % 3600 % 60 == time % 60 by {
      var h, r := time / 3600, time % 3600;
      assert time == 60 * (60 * h + r / 60) + r % 60;
    }
  }

  lemma NextMonth(year: int, month: nat)
    requires 1 <= month <= 12
    ensures DaysBeforeMonth(year, month + 1) == DaysBeforeMonth(year, month) + DaysInMonth(year, month)
    ensures DaysBeforeMonth(year, 13) == DaysInYear(year) && DaysBeforeMonth(year, 1) == 0
  {
  }

  lemma {:induction false} YearWalk(year: nat, rest: nat)
    ensures var (y, r) := YearFrom(year, rest);
      y >= year && r < DaysInYear(y) && DaysBeforeYear(y) + r == DaysBeforeYear(year) + rest
    decreases rest
  {
    if rest >= DaysInYear(year) {
      NextYear(year);
      YearWalk(year + 1, rest - DaysInYear(year));
    }
  }

  lemma {:induction false} MonthWalk(year: nat, month: nat, rest: nat)
    requires 1 <= month <= 12 && DaysBeforeMonth(year, month) + rest < DaysInYear(year)
    ensures var (m, r) := MonthFrom(year, month, rest);
      month <= m <= 12 && r < DaysInMonth(year, m) && DaysBeforeMonth(year, m) + r == DaysBeforeMonth(year, month) + rest
    decreases 13 - month
  {
    NextMonth(year, month);
    if rest >= DaysInMonth(year, month) { MonthWalk(year, month + 1, rest - DaysInMonth(year, month)); }
  }

  /** For every second count the walk ends in a valid Gregorian date and time whose closed-form
      distance from the epoch is that count. */
  lemma CivilOfIsRight(secs: nat)
    ensures IsValid(CivilOf(secs)) && SecondsOf(CivilOf(secs)) == secs
  {
    hide YearFrom, MonthFrom, DaysInMonth, DaysBeforeMonth, IsLeap, Leaps;
    var days := secs / 86400;
    YearWalk(1970, days);
    var (year, dayOfYear) := YearFrom(1970, days);
    NextMonth(year, 1);
    MonthWalk(year, 1, dayOfYear);
    TimeOfDay(secs % 86400);
    var c := CivilOf(secs);
    var (month, dayOfMonth) := MonthFrom(year, 1, dayOfYear);
    assert c.year == year && c.month == month && c.day == dayOfMonth + 1;
    assert c.hour < 24 && c.minute < 60 && c.second < 60;
    assert c.day <= DaysInMonth(c.year, c.month);
  }

  // ---- the date order -------------------------------------------------------------------

  ghost predicate Earlier(a: Civil, b: Civil) {
    if a.year != b.year then a.year < b.year
    else if a.month != b.month then a.month < b.month
    else if a.day != b.day then a.day < b.day
    else if a.hour != b.hour then a.hour < b.hour
    else if a.minute != b.minute then a.minute < b.minute
    else a.second < b.second
  }

  lemma {:induction false} YearsGrow(a: nat, b: nat)
    requires a < b
    ensures DaysBeforeYear(a) + DaysInYear(a) <= DaysBeforeYear(b)
    decreases b - a
  {
    hide Leaps, IsLeap, DaysBeforeYear;
    NextYear(a);
    if a + 1 < b { YearsGrow(a + 1, b); }
  }

  lemma {:induction false} MonthsGrow(year: nat, a: nat, b: nat)
    requires 1 <= a < b <= 13
    ensures DaysBeforeMonth(year, a) + DaysInMonth(year, a) <= DaysBeforeMonth(year, b)
    decreases b - a
  {
    hide IsLeap, DaysInMonth, DaysBeforeMonth;
    NextMonth(year, a);
    if a + 1 < b { MonthsGrow(year, a + 1, b); }
  }

  lemma EarlierIsFewerDays(a: Civil, b: Civil)
    requires IsValid(a) && IsValid(b)
    ensures a.year < b.year ==> DayNumber(a) < DayNumber(b)
    ensures a.year == b.year && a.month < b.month ==> DayNumber(a) < DayNumber(b)
  {
    hide IsLeap, DaysInMonth, DaysBeforeMonth, Leaps, DaysBeforeYear;
    NextMonth(a.year, a.month);
    if a.month < 12 { MonthsGrow(a.year, a.month + 1, 13); }
    if a.year < b.year { YearsGrow(a.year, b.year); }
    else if a.year == b.year && a.month < b.month { MonthsGrow(a.year, a.month, b.month); }
  }

  /** Calendar order is time order. */
  lemma EarlierIffFewerSeconds(a: Civil, b: Civil)
    requires IsValid(a) && IsValid(b)
    ensures Earlier(a, b) <==> SecondsOf(a) < SecondsOf(b)
  {
    hide DayNumber, DaysInMonth, DaysInYear;
    EarlierIsFewerDays(a, b);
    EarlierIsFewerDays(b, a);
    SameMonth(a, b);
  }

  lemma SameMonth(a: Civil, b: Civil)
    requires IsValid(a) && IsValid(b)
    ensures a.year == b.year && a.month == b.month ==> DayNumber(a) - DayNumber(b) == a.day - b.day
  {
  }

  // ---- the text -------------------------------------------------------------------------

  /** The part after the year: always sixteen characters for a valid date. */
  function Tail(c: Civil): string {
    "-" + Pad(c.month, 2) + "-" + Pad(c.day, 2) + "T" + Pad(c.hour, 2) + ":" + Pad(c.minute, 2) + ":" + Pad(c.second, 2) + "Z"
  }

  function Format(c: Civil): string {
    Pad(c.year, 4) + Tail(c)
  }

  function Timestamp(secs: nat): string {
    Format(CivilOf(secs))
  }

  /** Reads a timestamp back by position, counting from the end because a year beyond 9999 is
      longer. */
  ghost function Read(text: string): Option<Civil> {
    if |text| < 20 then None
    else
      var n := |text| - 16;
      var year, tail := text[..n], text[n..];
      var month, day, hour, minute, second := tail[1..3], tail[4..6], tail[7..9], tail[10..12], tail[13..15];
      if AllDigits(year) && AllDigits(month) && AllDigits(day) && AllDigits(hour) && AllDigits(minute) && AllDigits(second)
      then Some(Civil(Decimal(year), Decimal(month), Decimal(day), Decimal(hour), Decimal(minute), Decimal(second)))
      else None
  }

  lemma TwoDigits(n: nat)
    requires n < 100
    ensures |Pad(n, 2)| == 2 && AllDigits(Pad(n, 2)) && Decimal(Pad(n, 2)) == n
  {
    PadReadsBack(n, 2);
    assert Power10(1) == 10 && Power10(2) == 100;
  }

  lemma TailParts(c: Civil)
    requires c.month < 100 && c.day < 100 && c.hour < 100 && c.minute < 100 && c.second < 100
    ensures var t := Tail(c);
      && |t| == 16 && t[1..3] == Pad(c.month, 2) && t[4..6] == Pad(c.day, 2) && t[7..9] == Pad(c.hour, 2)
      && t[10..12] == Pad(c.minute, 2) && t[13..15] == Pad(c.second, 2)
  {
    hide Pad, AllDigits;
    TwoDigits(c.month);
    TwoDigits(c.day);
    TwoDigits(c.hour);
    TwoDigits(c.minute);
    TwoDigits(c.second);
  }

  lemma ValidIsSmall(c: Civil)
    requires IsValid(c)
    ensures c.month < 100 && c.day < 100 && c.hour < 100 && c.minute < 100 && c.second < 100
  {
  }

  lemma ReadsBack(c: Civil)
    requires IsValid(c)
    ensures Read(Format(c)) == Some(c)
  {
    hide Pad, AllDigits, Tail, Decimal, IsValid;
    ValidIsSmall(c);
    TailParts(c);
    PadReadsBack(c.year, 4);
    var text := Format(c);
    var n := |text| - 16;
    assert text[..n] == Pad(c.year, 4) && text[n..] == Tail(c);
    TwoDigits(c.month);
    TwoDigits(c.day);
    TwoDigits(c.hour);
    TwoDigits(c.minute);
    TwoDigits(c.second);
  }

  /** The printed timestamp determines the second count, for every second count. */
  lemma TimestampIsInvertible(secs: nat)
    ensures var c := Read(Timestamp(secs)); c.Some? && IsValid(c.value) && SecondsOf(c.value) == secs
  {
    hide Read, Format, CivilOf, SecondsOf;
    CivilOfIsRight(secs);
    ReadsBack(CivilOf(secs));
  }

  // ---- text order and time order --------------------------------------------------------

  lemma SeparatorOrder(c: char, u: string, v: string)
    ensures TextBefore([c] + u, [c] + v) <==> TextBefore(u, v)
  {
    hide TextBefore;
    BeforeByParts([c], [c], u, v);
    BeforeIsStrict([c]);
  }

  /** One separator and one two-digit field. */
  lemma PartOrder(c: char, x: nat, y: nat, u: string, v: string)
    requires x < 100 && y < 100
    ensures TextBefore([c] + Pad(x, 2) + u, [c] + Pad(y, 2) + v) <==> x < y || (x == y && TextBefore(u, v))
  {
    hide TextBefore, Pad;
    assert Power10(1) == 10 && Power10(2) == 100;
    FieldOrder(x, y, 2, u, v);
    SeparatorOrder(c, Pad(x, 2) + u, Pad(y, 2) + v);
    assert [c] + Pad(x, 2) + u == [c] + (Pad(x, 2) + u) && [c] + Pad(y, 2) + v == [c] + (Pad(y, 2) + v);
  }

  ghost function TimeTail(c: Civil): string {
    "T" + Pad(c.hour, 2) + (":" + Pad(c.minute, 2) + (":" + Pad(c.second, 2) + "Z"))
  }

  ghost predicate EarlierInDay(a: Civil, b: Civil) {
    if a.hour != b.hour then a.hour < b.hour
    else if a.minute != b.minute then a.minute < b.minute
    else a.second < b.second
  }

  lemma TimeOrder(a: Civil, b: Civil)
    requires IsValid(a) && IsValid(b)
    ensures TextBefore(TimeTail(a), TimeTail(b)) <==> EarlierInDay(a, b)
  {
    hide TextBefore, Pad;
    BeforeIsStrict("Z");
    PartOrder(':', a.second, b.second, "Z", "Z");
    var u, v := ":" + Pad(a.second, 2) + "Z", ":" + Pad(b.second, 2) + "Z";
    PartOrder(':', a.minute, b.minute, u, v);
    PartOrder('T', a.hour, b.hour, ":" + Pad(a.minute, 2) + u, ":" + Pad(b.minute, 2) + v);
  }

  lemma TailIs(c: Civil)
    ensures Tail(c) == "-" + Pad(c.month, 2) + ("-" + Pad(c.day, 2) + TimeTail(c))
  {
    hide Pad;
  }

  lemma FormatOrder(a: Civil, b: Civil)
    requires IsValid(a) && IsValid(b) && a.year <= 9999 && b.year <= 9999
    ensures TextBefore(Format(a), Format(b)) <==> Earlier(a, b)
  {
    hide TextBefore, Pad, Tail, TimeTail;
    ValidIsSmall(a);
    ValidIsSmall(b);
    TailIs(a);
    TailIs(b);
    TimeOrder(a, b);
    PartOrder('-', a.day, b.day, TimeTail(a), TimeTail(b));
    PartOrder('-', a.month, b.month, "-" + Pad(a.day, 2) + TimeTail(a), "-" + Pad(b.day, 2) + TimeTail(b));
    assert Power10(1) == 10 && Power10(2) == 100 && Power10(3) == 1000 && Power10(4) == 10000;
    FieldOrder(a.year, b.year, 4, Tail(a), Tail(b));
  }

  /** The first second of the year 10000. */
  const Y10K: nat := 253_402_300_800

  lemma FirstSecond(year: nat)
    requires year >= 1970
    ensures var first := Civil(year, 1, 1, 0, 0, 0); IsValid(first) && SecondsOf(first) == DaysBeforeYear(year) * 86400
  {
    hide DaysBeforeYear;
  }

  lemma AroundTheTenThousand()
    ensures DaysBeforeYear(9999) == 2_932_532 && DaysBeforeYear(10000) == 2_932_897 && DaysBeforeYear(10001) == 2_933_263
  {
  }

  /** A second lies in a year's span exactly when its date shows that year or a later one. */
  lemma YearReached(secs: nat, year: nat)
    requires year >= 1970
    ensures CivilOf(secs).year >= year <==> secs >= DaysBeforeYear(year) * 86400
  {
    hide CivilOf, DaysBeforeYear, SecondsOf;
    CivilOfIsRight(secs);
    FirstSecond(year);
    EarlierIffFewerSeconds(CivilOf(secs), Civil(year, 1, 1, 0, 0, 0));
  }

  lemma YearBound(secs: nat)
    ensures CivilOf(secs).year <= 9999 <==> secs < Y10K
  {
    hide CivilOf, DaysBeforeYear;
    AroundTheTenThousand();
    YearReached(secs, 10000);
  }

  /** Up to the end of the year 9999 text order is time order. */
  lemma TextOrderIsTimeOrder(a: nat, b: nat)
    requires a < Y10K && b < Y10K
    ensures TextBefore(Timestamp(a), Timestamp(b)) <==> a < b
  {
    hide CivilOf, Format, SecondsOf, IsValid, Earlier, TextBefore;
    YearBound(a);
    YearBound(b);
    CivilOfIsRight(a);
    CivilOfIsRight(b);
    FormatOrder(CivilOf(a), CivilOf(b));
    EarlierIffFewerSeconds(CivilOf(a), CivilOf(b));
  }

  /** It is time order for all second counts up to a limit exactly when the limit lies before
      the year 10000. */
  lemma TextOrderHoldsIff(limit: nat)
    ensures (forall a: nat, b: nat :: a <= limit && b <= limit ==> (TextBefore(Timestamp(a), Timestamp(b)) <==> a < b))
            <==> limit < Y10K
  {
    hide Timestamp, TextBefore;
    if limit < Y10K {
      forall a: nat, b: nat | a <= limit && b <= limit ensures TextBefore(Timestamp(a), Timestamp(b)) <==> a < b {
        TextOrderIsTimeOrder(a, b);
      }
    } else {
      TurnOfTheTenThousand();
      assert !(TextBefore(Timestamp(Y10K - 1), Timestamp(Y10K)) <==> Y10K - 1 < Y10K);
    }
  }

  lemma TurnOfTheTenThousand()
    ensures !TextBefore(Timestamp(Y10K - 1), Timestamp(Y10K))
  {
    hide CivilOf, Tail, DaysBeforeYear;
    AroundTheTenThousand();
    YearReached(Y10K - 1, 9999);
    YearReached(Y10K - 1, 10000);
    YearReached(Y10K, 10000);
    YearReached(Y10K, 10001);
    var a, b := CivilOf(Y10K - 1), CivilOf(Y10K);
    assert Pad(a.year, 4)[0] == '9' && Pad(b.year, 4)[0] == '1';
    assert Format(a)[0] == '9' && Format(b)[0] == '1';
  }

  // ---- the method -----------------------------------------------------------------------

  method NowIso8601(secs: nat) returns (text: string)
    ensures text == Timestamp(secs)
    ensures Read(text).Some? && IsValid(Read(text).value) && SecondsOf(Read(text).value) == secs
  {
    hide Read, Format, SecondsOf, IsValid;
    TimestampIsInvertible(secs);
    var days := secs / 86400;
    var time := secs % 86400;
    var hours, minutes, seconds := time / 3600, time % 3600 / 60, time % 60;
    var year, remaining := 1970, days;
    while remaining >= DaysInYear(year)
      invariant remaining >= 0 && year >= 1970
      invariant YearFrom(year, remaining) == YearFrom(1970, days)
      decreases remaining
    {
      remaining := remaining - DaysInYear(year);
      year := year + 1;
    }
    ghost var dayOfYear := remaining;
    var month := 1;
    while month <= 12 && remaining >= DaysInMonth(year, month)
      invariant 1 <= month <= 13 && remaining >= 0
      invariant MonthFrom(year, month, remaining) == MonthFrom(year, 1, dayOfYear)
      decreases 13 - month
    {
      remaining := remaining - DaysInMonth(year, month);
      month := month + 1;
    }
    text := Format(Civil(year, month, remaining + 1, hours, minutes, seconds));
  }
}
