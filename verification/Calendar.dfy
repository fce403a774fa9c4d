/** Civil dates: the closed-form conversions, the naive loop, and the weekday formula. */
module Calendar {
  import opened CInts

  datatype Date = Date(year: int, month: int, day: int)

  datatype Moment = Moment(date: Date, hour: int, minute: int, second: int)

  predicate IsLeap(y: int) { (y % 4 == 0 && y % 100 != 0) || y % 400 == 0 }

  function DaysInMonth(month: int, year: int): int {
    if month == 2 then (if IsLeap(year) then 29 else 28)
    else if 1 <= month <= 12 then (if month == 4 || month == 6 || month == 9 || month == 11 then 30 else 31)
    else 30
  }

  predicate ValidDate(d: Date) { 1 <= d.month <= 12 && 1 <= d.day <= DaysInMonth(d.month, d.year) }

  predicate ValidMoment(t: Moment) {
    ValidDate(t.date) && 0 <= t.hour < 24 && 0 <= t.minute < 60 && 0 <= t.second < 60
  }

  // ----- the closed forms -----

  /** The first day of year `yoe` of an era. */
  function YearStart(yoe: int): int { yoe * 365 + yoe / 4 - yoe / 100 }

  /** The year that day `doe` of an era lies in. */
  function YearInEra(doe: int): int { (doe - doe / 1460 + doe / 36524 - doe / 146096) / 365 }

  /** Days between the first of March and the first of the `mp`-th month after it. */
  function MonthDays(mp: int): int { (153 * mp + 2) / 5 }

  /** The month that day `doy` of a year that begins in March lies in. */
  function MonthInYear(doy: int): int { (5 * doy + 2) / 153 }

  /** Days since 1970-01-01, by eras of 400 years that begin in March. */
  function DaysOf(d: Date): int {
    var y := if d.month <= 2 then d.year - 1 else d.year;
    var era := Quotient(if y >= 0 then y else y - 399, 400);
    var yoe := y - era * 400;
    var doy := MonthDays(d.month + if d.month > 2 then -3 else 9) + d.day - 1;
    era * 146097 + YearStart(yoe) + doy - 719468
  }

  function EpochMs(t: Moment): int {
    (DaysOf(t.date) * 86400 + t.hour * 3600 + t.minute * 60 + t.second) * 1000
  }

  /** The date of a day count. */
  function DateOf(day: int): Date {
    var z := day + 719468;
    var era := Quotient(if z >= 0 then z else z - 146096, 146097);
    var doe := z - era * 146097;
    var yoe := YearInEra(doe);
    var doy := doe - YearStart(yoe);
    var mp := MonthInYear(doy);
    var d := doy - MonthDays(mp) + 1;
    var m := mp + if mp < 10 then 3 else -9;
    Date(yoe + era * 400 + (if m <= 2 then 1 else 0), m, d)
  }

  function MomentOf(ms: int): Moment {
    var s := Quotient(ms, 1000);
    var q := Quotient(s, 86400);
    var day := if s < 0 && Remainder(s, 86400) != 0 then q - 1 else q;
    var tod := s - day * 86400;
    Moment(DateOf(day), Quotient(tod, 3600), Remainder(Quotient(tod, 60), 60), Remainder(tod, 60))
  }

  // ----- the day count, plainly -----

  /** Days before the first of March of year `y`, counted from the first of March of year 0. */
  function MarchDays(y: int): int { 365 * y + y / 4 - y / 100 + y / 400 }

  /** Years and months as counted from March. */
  function MarchYear(d: Date): int { if d.month <= 2 then d.year - 1 else d.year }

  function MarchMonth(d: Date): int { if d.month <= 2 then d.month + 9 else d.month - 3 }

  lemma DaysPlain(d: Date)
    ensures DaysOf(d) == MarchDays(MarchYear(d)) + MonthDays(MarchMonth(d)) + d.day - 1 - 719468
  {
    var y := MarchYear(d);
    FloorQuotient(y, 400);
    var era := y / 400;
    var yoe := y - era * 400;
    EraDays(era, yoe);
  }

  lemma EraDays(era: int, yoe: int)
    requires 0 <= yoe < 400
    ensures MarchDays(era * 400 + yoe) == era * 146097 + YearStart(yoe)
  {
    var y := era * 400 + yoe;
    assert y / 4 == era * 100 + yoe / 4;
    assert y / 100 == era * 4 + yoe / 100;
    assert y / 400 == era;
  }

  // ----- each month and each year follow on the one before -----

  /** The first day of the next month comes right after the last day of this one. */
  lemma MonthFollows(y: int, m: int)
    requires 1 <= m <= 12
    ensures DaysOf(if m == 12 then Date(y + 1, 1, 1) else Date(y, m + 1, 1))
      == DaysOf(Date(y, m, 1)) + DaysInMonth(m, y)
  {
    hide DaysOf, MarchDays, MonthDays, IsLeap;
    DaysPlain(Date(y, m, 1));
    DaysPlain(if m == 12 then Date(y + 1, 1, 1) else Date(y, m + 1, 1));
    MonthLengths();
    if m == 2 { FebruaryEnds(y); }
  }

  lemma MonthLengths()
    ensures MonthDays(0) == 0 && MonthDays(1) == 31 && MonthDays(2) == 61 && MonthDays(3) == 92
    ensures MonthDays(4) == 122 && MonthDays(5) == 153 && MonthDays(6) == 184 && MonthDays(7) == 214
    ensures MonthDays(8) == 245 && MonthDays(9) == 275 && MonthDays(10) == 306 && MonthDays(11) == 337
  {
  }

  lemma FebruaryEnds(y: int)
    ensures MarchDays(y) == MarchDays(y - 1) + if IsLeap(y) then 366 else 365
  {
    StepOver(y, 4);
    StepOver(y, 100);
    StepOver(y, 400);
  }

  lemma StepOver(y: int, n: int)
    requires n > 1
    ensures y / n == (y - 1) / n + if y % n == 0 then 1 else 0
  {
    var q, r := y / n, y % n;
    assert y == n * q + r;
    if r == 0 {
      assert y - 1 == n * (q - 1) + (n - 1);
      DivIs(y - 1, n, q - 1, n - 1);
    } else {
      DivIs(y - 1, n, q, r - 1);
    }
  }

  lemma YearFollows(y: int)
    ensures DaysOf(Date(y + 1, 1, 1)) == DaysOf(Date(y, 1, 1)) + if IsLeap(y) then 366 else 365
  {
    DaysPlain(Date(y + 1, 1, 1));
    DaysPlain(Date(y, 1, 1));
    FebruaryEnds(y);
  }

  /** The two closed forms agree on the origin. */
  lemma Origin()
    ensures DaysOf(Date(1970, 1, 1)) == 0
  {
  }

  // ----- the inverse -----

  /**
   Day `u` of the `q`-th four-year cycle of the `c`-th century of an era lies in the cycle's year
   u / 365, save that the leap day still belongs to the fourth.
   */
  lemma YearOfEra(c: int, q: int, u: int)
    requires 0 <= c <= 3 && 0 <= q <= 24 && 0 <= u <= 1460 && (u == 1460 && q == 24 ==> c == 3)
    ensures var doe := 36524 * c + 1461 * q + u;
      YearInEra(doe) == 100 * c + 4 * q + if u < 1460 then u / 365 else 3
  {
    var doe := 36524 * c + 1461 * q + u;
    var e := if 24 * c + q + u >= 1460 then 1 else 0;
    assert doe / 1460 == 25 * c + q + e;
    assert doe / 36524 - doe / 146096 == c;
  }

  /** The days of an era, as century, four-year cycle and day. */
  lemma EraParts(doe: int) returns (c: int, q: int, u: int)
    requires 0 <= doe < 146097
    ensures 0 <= c <= 3 && 0 <= q <= 24 && 0 <= u <= 1460 && (u == 1460 && q == 24 ==> c == 3)
    ensures doe == 36524 * c + 1461 * q + u
  {
    c := if doe == 146096 then 3 else doe / 36524;
    var r := doe - 36524 * c;
    q := if r == 36524 then 24 else r / 1461;
    u := r - 1461 * q;
  }

  lemma MonthOfYear(mp: int, d: int)
    requires 0 <= mp <= 11
      && 1 <= d <= (if mp == 1 || mp == 3 || mp == 6 || mp == 8 then 30 else if mp == 11 then 29 else 31)
    ensures MonthInYear(MonthDays(mp) + d - 1) == mp
  {
  }

  /** Every day of a March year lies in one of its months. */
  lemma DayOfYear(doy: int)
    requires 0 <= doy <= 365
    ensures var mp := MonthInYear(doy);
      && 0 <= mp <= 11
      && 1 <= doy - MonthDays(mp) + 1 <= (if mp == 1 || mp == 3 || mp == 6 || mp == 8 then 30 else if mp == 11 then 29
        else 31)
      && (mp == 11 && doy - MonthDays(mp) + 1 == 29 <==> doy == 365)
  {
  }

  /** The day count of the first of March before day `u`, and which years have a leap day at their end. */
  lemma CycleDays(c: int, q: int, v: int)
    requires 0 <= c <= 3 && 0 <= q <= 24 && 0 <= v <= 3
    ensures var yoe := 100 * c + 4 * q + v;
      && 0 <= yoe < 400 && YearStart(yoe) == 36524 * c + 1461 * q + 365 * v
      && (IsLeap(yoe + 1) <==> v == 3 && (q < 24 || c == 3))
  {
  }

  /** The date that the closed form computes from the parts of a day count. */
  lemma DateParts(day: int, era: int, doe: int, yoe: int, doy: int)
    requires day + 719468 == era * 146097 + doe && 0 <= doe < 146097
    requires YearInEra(doe) == yoe && doy == doe - YearStart(yoe) && 0 <= doy <= 365
    ensures var mp := MonthInYear(doy);
      var m := mp + if mp < 10 then 3 else -9;
      DateOf(day) == Date(yoe + era * 400 + (if m <= 2 then 1 else 0), m, doy - MonthDays(mp) + 1)
  {
    hide Quotient, YearInEra, YearStart, MonthInYear, MonthDays;
    var z := day + 719468;
    FloorQuotient(z, 146097);
    DivIs(z, 146097, era, doe);
    assert Quotient(if z >= 0 then z else z - 146096, 146097) == era && z - era * 146097 == doe;
  }

  /** Day `doe` of an era, as year and day of the year: the last day only if a leap day follows. */
  lemma EraSplit(doe: int) returns (yoe: int, doy: int)
    requires 0 <= doe < 146097
    ensures YearInEra(doe) == yoe && doe == YearStart(yoe) + doy
    ensures 0 <= yoe < 400 && 0 <= doy <= 365 && (doy == 365 ==> IsLeap(yoe + 1))
  {
    hide IsLeap, YearStart, YearInEra;
    var c, q, u := EraParts(doe);
    YearOfEra(c, q, u);
    var v := if u < 1460 then u / 365 else 3;
    CycleDays(c, q, v);
    yoe, doy := 100 * c + 4 * q + v, u - 365 * v;
  }

  /** And back. */
  lemma EraJoin(yoe: int, doy: int)
    requires 0 <= yoe < 400 && 0 <= doy <= 365 && (doy == 365 ==> IsLeap(yoe + 1))
    ensures 0 <= YearStart(yoe) + doy < 146097 && YearInEra(YearStart(yoe) + doy) == yoe
  {
    hide IsLeap, YearStart, YearInEra;
    var c, q, v := yoe / 100, yoe % 100 / 4, yoe % 4;
    YearParts(yoe);
    CycleDays(c, q, v);
    YearOfEra(c, q, 365 * v + doy);
  }

  /** Converting a day count to a date yields a valid date, of that day count. */
  lemma DateOfDay(day: int)
    ensures ValidDate(DateOf(day)) && DaysOf(DateOf(day)) == day
  {
    hide DaysOf, DateOf, MarchDays, MonthDays, IsLeap, YearStart, YearInEra, MonthInYear;
    var z := day + 719468;
    var era, doe := z / 146097, z % 146097;
    var yoe, doy := EraSplit(doe);
    DateParts(day, era, doe, yoe, doy);
    DayOfYear(doy);
    LeapShift(era, yoe);
    DaysPlain(DateOf(day));
    EraDays(era, yoe);
    assert MarchYear(DateOf(day)) == era * 400 + yoe && MarchMonth(DateOf(day)) == MonthInYear(doy);
  }

  lemma LeapShift(era: int, yoe: int)
    ensures IsLeap(era * 400 + yoe + 1) == IsLeap(yoe + 1)
  {
    ModShift(yoe + 1, era * 100, 4);
    ModShift(yoe + 1, era * 4, 100);
    ModShift(yoe + 1, era, 400);
  }

  lemma ModShift(a: int, k: int, n: int)
    requires n > 0
    ensures (k * n + a) % n == a % n
  {
    var q, r := a / n, a % n;
    assert a == n * q + r;
    assert k * n + a == n * (q + k) + r;
    DivIs(k * n + a, n, q + k, r);
  }

  /** A date is determined by its day count. */
  lemma DayOfDate(d: Date)
    requires ValidDate(d)
    ensures DateOf(DaysOf(d)) == d
  {
    hide DaysOf, MarchDays, DateOf, IsLeap, MonthDays, YearStart, YearInEra, MonthInYear, DaysInMonth;
    var mp := MarchMonth(d);
    var doy := MonthDays(mp) + d.day - 1;
    var era, yoe := EraOf(MarchYear(d));
    DaysPlain(d);
    EraDays(era, yoe);
    LeapShift(era, yoe);
    DayInYear(d, mp, doy);
    EraJoin(yoe, doy);
    MonthOfYear(mp, d.day);
    DateParts(DaysOf(d), era, YearStart(yoe) + doy, yoe, doy);
  }

  lemma EraOf(y: int) returns (era: int, yoe: int)
    ensures y == era * 400 + yoe && 0 <= yoe < 400
  {
    era, yoe := y / 400, y % 400;
  }

  lemma YearParts(yoe: int)
    requires 0 <= yoe < 400
    ensures yoe == 100 * (yoe / 100) + 4 * (yoe % 100 / 4) + yoe % 4
    ensures 0 <= yoe / 100 <= 3 && 0 <= yoe % 100 / 4 <= 24
  {
  }

  lemma DayInYear(d: Date, mp: int, doy: int)
    requires ValidDate(d) && mp == MarchMonth(d) && doy == MonthDays(mp) + d.day - 1
    ensures 0 <= mp <= 11 && 0 <= doy <= 365 && (doy == 365 ==> IsLeap(MarchYear(d) + 1))
    ensures 1 <= d.day <= (if mp == 1 || mp == 3 || mp == 6 || mp == 8 then 30 else if mp == 11 then 29 else 31)
  {
  }

  // ----- moments -----

  lemma FloorDay(s: int)
    ensures (if s < 0 && Remainder(s, 86400) != 0 then Quotient(s, 86400) - 1 else Quotient(s, 86400)) == s / 86400
  {
    var q := s / 86400;
    assert s == 86400 * q + s % 86400;
    QuotientIs(s, 86400);
    if s < 0 {
      var r := Remainder(s, 86400);
      if r == 0 {
        DivIs(s, 86400, Quotient(s, 86400), 0);
      } else {
        DivIs(s, 86400, Quotient(s, 86400) - 1, r + 86400);
      }
    }
  }

  /** The clock time of a second of the day. */
  function TimeAt(date: Date, tod: int): Moment { Moment(date, tod / 3600, tod / 60 % 60, tod % 60) }

  /** The moment of a number of whole seconds, of either sign. */
  lemma MomentOfSeconds(s: int)
    ensures MomentOf(s * 1000) == TimeAt(DateOf(s / 86400), s % 86400)
  {
    hide DateOf;
    SecondsOf(s);
    FloorDay(s);
    assert s == 86400 * (s / 86400) + s % 86400;
  }

  lemma SecondsOf(s: int)
    ensures Quotient(s * 1000, 1000) == s
  {
  }

  lemma DivIs60(n: nat, r: nat)
    requires r < 60
    ensures (n * 60 + r) / 60 == n && (n * 60 + r) % 60 == r
  {
  }

  lemma TimeIs(date: Date, hour: int, minute: int, second: int)
    requires 0 <= hour < 24 && 0 <= minute < 60 && 0 <= second < 60
    ensures TimeAt(date, hour * 3600 + minute * 60 + second) == Moment(date, hour, minute, second)
  {
    var tod := hour * 3600 + minute * 60 + second;
    DivIs60(hour * 60 + minute, second);
    DivIs60(hour, minute);
    assert tod == (hour * 60 + minute) * 60 + second;
    assert tod / 3600 == hour;
  }

  lemma TimeOf(date: Date, tod: int)
    requires 0 <= tod < 86400
    ensures var t := TimeAt(date, tod);
      && 0 <= t.hour < 24 && 0 <= t.minute < 60 && 0 <= t.second < 60
      && t.hour * 3600 + t.minute * 60 + t.second == tod
  {
  }

  /** Converting a valid moment to milliseconds and back yields that moment. */
  lemma MomentRoundTrip(t: Moment)
    requires ValidMoment(t)
    ensures MomentOf(EpochMs(t)) == t
  {
    hide DaysOf, DateOf, MomentOf, TimeAt;
    var day, tod := DaysOf(t.date), t.hour * 3600 + t.minute * 60 + t.second;
    DivIs(day * 86400 + tod, 86400, day, tod);
    MomentOfSeconds(day * 86400 + tod);
    TimeIs(t.date, t.hour, t.minute, t.second);
    DayOfDate(t.date);
  }

  /** Every number of whole seconds is a valid moment's. */
  lemma SecondsRoundTrip(s: int)
    ensures ValidMoment(MomentOf(s * 1000)) && EpochMs(MomentOf(s * 1000)) == s * 1000
  {
    hide DaysOf, DateOf, MomentOf, ValidDate;
    var day, tod := s / 86400, s % 86400;
    assert s == 86400 * day + tod;
    MomentOfSeconds(s);
    DateOfDay(day);
    TimeOf(DateOf(day), tod);
  }

  /**
   Milliseconds are cut off toward the epoch: the conversion yields the second in progress exactly
   for moments since 1970, or without milliseconds.
   */
  lemma MillisecondsCut(ms: int)
    ensures MomentOf(ms) == MomentOf(ms / 1000 * 1000) <==> ms >= 0 || ms % 1000 == 0
  {
    hide MomentOf, EpochMs, ValidMoment, Quotient;
    var s, t := Quotient(ms, 1000), ms / 1000;
    CutSecond(ms);
    SameSecond(ms);
    SameSecond(t * 1000);
    SecondsRoundTrip(s);
    SecondsRoundTrip(t);
  }

  /** Only the second that the division yields matters. */
  lemma SameSecond(ms: int)
    ensures MomentOf(ms) == MomentOf(Quotient(ms, 1000) * 1000)
  {
    hide Quotient, Remainder, DateOf;
    SecondsOf(Quotient(ms, 1000));
  }

  lemma CutSecond(ms: int)
    ensures Quotient(ms, 1000) == ms / 1000 <==> ms >= 0 || ms % 1000 == 0
  {
    assert ms == 1000 * (ms / 1000) + ms % 1000;
    QuotientIs(ms, 1000);
    if ms < 0 && ms % 1000 == 0 {
      SecondsOf(ms / 1000);
    }
  }

  /** The millisecond before the epoch is shown as the epoch. */
  lemma BeforeTheEpoch()
    ensures MomentOf(-1) == MomentOf(0) == Moment(Date(1970, 1, 1), 0, 0, 0)
  {
    hide EpochMs, MomentOf, ValidMoment;
    CutToZero();
    OriginMoment();
    MomentRoundTrip(Moment(Date(1970, 1, 1), 0, 0, 0));
  }

  lemma OriginMoment()
    ensures ValidMoment(Moment(Date(1970, 1, 1), 0, 0, 0)) && EpochMs(Moment(Date(1970, 1, 1), 0, 0, 0)) == 0
  {
    hide DaysOf;
    Origin();
  }

  lemma CutToZero()
    ensures MomentOf(-1) == MomentOf(0)
  {
    hide DateOf;
    assert Quotient(-1, 1000) == Quotient(0, 1000);
  }

  // ----- the naive loop -----

  /** The first day of month `m` of a year; month 13 is January of the next. */
  function MonthStart(y: int, m: int): int {
    DaysOf(if m == 13 then Date(y + 1, 1, 1) else Date(y, m, 1))
  }

  lemma MonthStep(y: int, m: int)
    requires 1 <= m <= 12
    ensures MonthStart(y, m + 1) == MonthStart(y, m) + DaysInMonth(m, y)
  {
    MonthFollows(y, m);
  }

  lemma DayInMonth(y: int, m: int, d: int)
    requires 1 <= m <= 12
    ensures DaysOf(Date(y, m, d)) == MonthStart(y, m) + d - 1
  {
    hide DaysOf, MarchDays, MonthDays;
    DaysPlain(Date(y, m, d));
    DaysPlain(Date(y, m, 1));
  }

  /** Counts off years and then months: the simple way to a date, and the same date. */
  method NtpDate(now: nat) returns (date: Date)
    ensures date == DateOf(now / 86400)
  {
    hide DaysOf, DateOf, IsLeap;
    var mdays := [31, 28, 31, 30, 31, 30, 31, 31, 30, 31, 30, 31];
    var days := now / 86400;
    ghost var all := days;
    var y := 1970;
    Origin();
    while true
      invariant days >= 0 && all == MonthStart(y, 1) + days
      decreases days
    {
      var ydays := if IsLeap(y) then 366 else 365;
      if days < ydays {
        break;
      }
      YearFollows(y);
      days := days - ydays;
      y := y + 1;
    }
    YearFollows(y);
    var leap := if IsLeap(y) then 1 else 0;
    var m := 0;
    while m < 12
      invariant 0 <= m <= 12 && days >= 0
      invariant all == MonthStart(y, m + 1) + days && all < MonthStart(y, 13)
    {
      var md := mdays[m] + if m == 1 then leap else 0;
      assert md == DaysInMonth(m + 1, y);
      MonthStep(y, m + 1);
      if days < md {
        break;
      }
      days := days - md;
      m := m + 1;
    }
    date := Date(y, m + 1, days + 1);
    DayInMonth(y, m + 1, days + 1);
    DayOfDate(date);
  }

  // ----- the weekday -----

  /** 0 is Sunday. */
  function DayOfWeek(y: int, m: int, d: int): int {
    var month, year := if m < 3 then m + 12 else m, if m < 3 then y - 1 else y;
    var k, j := Remainder(year, 100), Quotient(year, 100);
    var h := Remainder(d + Quotient(13 * (month + 1), 5) + k + Quotient(k, 4) + Quotient(j, 4) + 5 * j, 7);
    Remainder(h + 6, 7)
  }

  lemma SameWeek(a: int, b: int, k: int)
    requires a == b + 7 * k
    ensures a % 7 == b % 7
  {
  }

  /** Zeller's sum before it is reduced. */
  function ZellerSum(y: int, mp: int, d: int): int {
    d + 13 * (mp + 4) / 5 + y % 100 + y % 100 / 4 + y / 100 / 4 + 5 * (y / 100)
  }

  lemma WeekdayFromSum(d: Date)
    requires 1 <= d.month <= 12 && d.year >= 1 && d.day >= 1
    ensures DayOfWeek(d.year, d.month, d.day) == (ZellerSum(MarchYear(d), MarchMonth(d), d.day) + 6) % 7
  {
    hide Quotient, Remainder, ZellerSum;
    var y, mp := MarchYear(d), MarchMonth(d);
    var k, j := y % 100, y / 100;
    SumParts(y, mp, d.day);
    NaturalDivision(y, 100);
    NaturalDivision(k, 4);
    NaturalDivision(j, 4);
    NaturalDivision(13 * (mp + 4), 5);
    var sum := ZellerSum(y, mp, d.day);
    NaturalDivision(sum, 7);
    NaturalDivision(sum % 7 + 6, 7);
    WeekSum(sum);
  }

  lemma SumParts(y: int, mp: int, d: int)
    requires y >= 0 && mp >= 0 && d >= 0
    ensures ZellerSum(y, mp, d) == d + 13 * (mp + 4) / 5 + y % 100 + y % 100 / 4 + y / 100 / 4 + 5 * (y / 100) >= 0
  {
  }

  lemma WeekSum(sum: int)
    ensures (sum % 7 + 6) % 7 == (sum + 6) % 7
  {
  }

  lemma CenturyYears(y: int)
    requires y >= 0
    ensures var k, j := y % 100, y / 100;
      MarchDays(y) == k + k / 4 + j / 4 + 5 * j + 7 * (5217 * j + 52 * k)
  {
    var k, j := y % 100, y / 100;
    assert y / 4 == 25 * j + k / 4;
    assert y / 400 == j / 4;
  }

  lemma ZellerMonths(mp: int)
    requires 0 <= mp <= 11
    ensures (13 * (mp + 4)) / 5 + 28 * mp == MonthDays(mp) + 10
  {
  }

  /** Zeller's formula counts on from the Thursday on which the epoch began, for every year from 1 on. */
  lemma WeekdayOfDate(d: Date)
    requires ValidDate(d) && d.year >= 1
    ensures DayOfWeek(d.year, d.month, d.day) == (DaysOf(d) + 4) % 7
  {
    hide DaysOf, DayOfWeek, MarchDays, MonthDays;
    var y, mp := MarchYear(d), MarchMonth(d);
    CenturyYears(y);
    ZellerMonths(mp);
    DaysPlain(d);
    WeekdayFromSum(d);
    var w := 5217 * (y / 100) + 52 * (y % 100) + 4 * mp - 102783;
    SameWeek(DaysOf(d) + 4, ZellerSum(y, mp, d.day) + 6, w);
  }
}
