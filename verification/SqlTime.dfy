/** The timestamp text of linux/core/src/db/mod.rs: `to_sql_time` and `parse_sql_time`.
    The poll schedule is kept in a TEXT column and compared as text by SQLite, so the
    string order of the written form has to be the order of time. */
module SqlTime {
  import opened Wrappers

  /** Nanoseconds since 0000-01-01T00:00:00Z in the proleptic Gregorian calendar. */
  type Instant = nat

  const SECOND: nat := 1_000_000_000
  const DAY_SECONDS: nat := 86_400

  // ----- The calendar -----------------------------------------------------

  predicate IsLeap(y: nat) {
    y % 4 == 0 && (y % 100 != 0 || y % 400 == 0)
  }

  function DaysInYear(y: nat): nat {
    if IsLeap(y) then 366 else 365
  }

  function DaysInMonth(y: nat, m: nat): nat {
    if m == 2 then (if IsLeap(y) then 29 else 28)
    else if m == 4 || m == 6 || m == 9 || m == 11 then 30
    else 31
  }

  /** Thirty days have April, June, September and November. */
  lemma MonthLengths(y: nat, m: nat)
    requires 1 <= m <= 12
    ensures m in {4, 6, 9, 11} ==> DaysInMonth(y, m) == 30
    ensures m in {1, 3, 5, 7, 8, 10, 12} ==> DaysInMonth(y, m) == 31
    ensures DaysInMonth(y, 2) == if IsLeap(y) then 29 else 28
  {
  }

  function DaysBeforeYear(y: nat): nat {
    if y == 0 then 0 else DaysBeforeYear(y - 1) + DaysInYear(y - 1)
  }

  function DaysBeforeMonth(y: nat, m: nat): nat {
    if m <= 1 then 0 else DaysBeforeMonth(y, m - 1) + DaysInMonth(y, m - 1)
  }

  datatype Civil = Civil(year: nat, month: nat, day: nat, hour: nat, minute: nat, second: nat)

  predicate ValidCivil(c: Civil) {
    && 1 <= c.month <= 12
    && 1 <= c.day <= DaysInMonth(c.year, c.month)
    && c.hour < 24 && c.minute < 60 && c.second < 60
  }

  function DayNumber(c: Civil): nat
    requires ValidCivil(c)
  {
    DaysBeforeYear(c.year) + DaysBeforeMonth(c.year, c.month) + (c.day - 1)
  }

  function SecondOfDay(c: Civil): nat {
    c.hour * 3600 + c.minute * 60 + c.second
  }

  /** Seconds since 0000-01-01T00:00:00Z. */
  function SecondsOf(c: Civil): nat
    requires ValidCivil(c)
  {
    DayNumber(c) * DAY_SECONDS + SecondOfDay(c)
  }

  /** The year holding day `d`, counted from the first day of year `y`, and the days left over. */
  function PeelYears(y: nat, d: nat): (r: (nat, nat))
    ensures r.1 < DaysInYear(r.0)
    ensures DaysBeforeYear(r.0) + r.1 == DaysBeforeYear(y) + d
    decreases d
  {
    if d < DaysInYear(y) then (y, d) else PeelYears(y + 1, d - DaysInYear(y))
  }

  /** The month of year `y` holding day `d`, counted from the first day of month `m`. */
  function PeelMonths(y: nat, m: nat, d: nat): (r: (nat, nat))
    requires 1 <= m <= 12
    requires DaysBeforeMonth(y, m) + d < DaysInYear(y)
    ensures m <= r.0 <= 12 && r.1 < DaysInMonth(y, r.0)
    ensures DaysBeforeMonth(y, r.0) + r.1 == DaysBeforeMonth(y, m) + d
    decreases 12 - m
  {
    if d < DaysInMonth(y, m) then (m, d)
    else
      MonthsFillTheYear(y);
      PeelMonths(y, m + 1, d - DaysInMonth(y, m))
  }

  lemma MonthsFillTheYear(y: nat)
    ensures DaysBeforeMonth(y, 12) + DaysInMonth(y, 12) == DaysInYear(y)
  {
    var feb := DaysInMonth(y, 2);
    assert DaysBeforeMonth(y, 2) == 31;
    assert DaysBeforeMonth(y, 3) == 31 + feb;
    assert DaysBeforeMonth(y, 4) == 62 + feb;
    assert DaysBeforeMonth(y, 5) == 92 + feb;
    assert DaysBeforeMonth(y, 6) == 123 + feb;
    assert DaysBeforeMonth(y, 7) == 153 + feb;
    assert DaysBeforeMonth(y, 8) == 184 + feb;
    assert DaysBeforeMonth(y, 9) == 215 + feb;
    assert DaysBeforeMonth(y, 10) == 245 + feb;
    assert DaysBeforeMonth(y, 11) == 276 + feb;
    assert DaysBeforeMonth(y, 12) == 306 + feb;
  }

  lemma HoursAreSixties(sod: nat)
    ensures sod / 3600 == sod / 60 / 60
  {
  }

  lemma ClockSplits(sod: nat)
    requires sod < DAY_SECONDS
    ensures sod / 3600 < 24 && sod / 60 % 60 < 60 && sod % 60 < 60
    ensures sod / 3600 * 3600 + sod / 60 % 60 * 60 + sod % 60 == sod
  {
    HoursAreSixties(sod);
    var minutes := sod / 60;
    assert sod == minutes * 60 + sod % 60;
    assert minutes == minutes / 60 * 60 + minutes % 60;
  }

  /** The date of a day count. */
  function DateOf(days: nat): (r: (nat, nat, nat))
    ensures 1 <= r.1 <= 12 && 1 <= r.2 <= DaysInMonth(r.0, r.1)
    ensures DaysBeforeYear(r.0) + DaysBeforeMonth(r.0, r.1) + (r.2 - 1) == days
  {
    var (y, doy) := PeelYears(0, days);
    var (m, dom) := PeelMonths(y, 1, doy);
    (y, m, dom + 1)
  }

  /** The broken-down form of a second count. */
  function CivilOf(secs: nat): (c: Civil)
    ensures ValidCivil(c) && SecondsOf(c) == secs
  {
    var (y, m, d) := DateOf(secs / DAY_SECONDS);
    var sod := secs % DAY_SECONDS;
    ClockSplits(sod);
    Civil(y, m, d, sod / 3600, sod / 60 % 60, sod % 60)
  }

  predicate CivilBefore(a: Civil, b: Civil) {
    || a.year < b.year
    || (a.year == b.year &&
        (|| a.month < b.month
         || (a.month == b.month &&
             (|| a.day < b.day
              || (a.day == b.day &&
                  (|| a.hour < b.hour
                   || (a.hour == b.hour &&
                       (|| a.minute < b.minute
                        || (a.minute == b.minute && a.second < b.second)))))))))
  }

  lemma {:induction false} YearsAscend(y: nat, z: nat)
    requires y < z
    ensures DaysBeforeYear(y) + DaysInYear(y) <= DaysBeforeYear(z)
    decreases z
  {
    if y + 1 < z {
      YearsAscend(y, z - 1);
    }
  }

  lemma {:induction false} MonthsAscend(y: nat, m: nat, n: nat)
    requires 1 <= m < n <= 12
    ensures DaysBeforeMonth(y, m) + DaysInMonth(y, m) <= DaysBeforeMonth(y, n)
    decreases n
  {
    if m + 1 < n {
      MonthsAscend(y, m, n - 1);
    }
  }

  lemma DayOfYearBounded(c: Civil)
    requires ValidCivil(c)
    ensures DaysBeforeMonth(c.year, c.month) + (c.day - 1) < DaysInYear(c.year)
  {
    MonthsFillTheYear(c.year);
    if c.month < 12 {
      MonthsAscend(c.year, c.month, 12);
    }
  }

  /** Calendar order is time order. */
  lemma CivilOrderIsTimeOrder(a: Civil, b: Civil)
    requires ValidCivil(a) && ValidCivil(b)
    ensures CivilBefore(a, b) <==> SecondsOf(a) < SecondsOf(b)
  {
    if CivilBefore(a, b) {
      EarlierCivilIsEarlier(a, b);
    } else if CivilBefore(b, a) {
      EarlierCivilIsEarlier(b, a);
    } else {
      assert a == b;
    }
  }

  lemma EarlierCivilIsEarlier(a: Civil, b: Civil)
    requires ValidCivil(a) && ValidCivil(b) && CivilBefore(a, b)
    ensures SecondsOf(a) < SecondsOf(b)
  {
    if a.year < b.year {
      YearsAscend(a.year, b.year);
      DayOfYearBounded(a);
      assert DayNumber(a) < DayNumber(b);
    } else if a.month < b.month {
      MonthsAscend(a.year, a.month, b.month);
      assert DayNumber(a) < DayNumber(b);
    }
  }

  // ----- The written form -------------------------------------------------

  function Digit(n: nat): char
    requires n < 10
  {
    '0' + n as char
  }

  function D2(n: nat): string {
    [Digit(n / 10 % 10), Digit(n % 10)]
  }

  function D4(n: nat): string {
    D2(n / 100) + D2(n % 100)
  }

  function Decimal(n: nat): string {
    (if n < 10 then [] else Decimal(n / 10)) + [Digit(n % 10)]
  }

  /** Four digits up to year 9999; beyond that a sign and every digit, as chrono writes it. */
  function YearText(y: nat): string {
    if y <= 9999 then D4(y) else "+" + Decimal(y)
  }

  function ClockText(c: Civil): string {
    D2(c.hour) + ":" + D2(c.minute) + ":" + D2(c.second) + "Z"
  }

  function CivilText(c: Civil): string {
    YearText(c.year) + "-" + D2(c.month) + "-" + D2(c.day) + "T" + ClockText(c)
  }

  /** `to_sql_time`: whole seconds, UTC, trailing Z. */
  function ToSqlTime(t: Instant): string {
    CivilText(CivilOf(t / SECOND))
  }

  /** A timestamp column. Everything stored in one was written by `to_sql_time`, or by a column
      default in the same form, so a cell is named by the instant it was written for; what SQLite
      compares and what is read back is its text. */
  datatype Stamp = Stamp(written: Instant) {
    function Text(): string {
      ToSqlTime(written)
    }
  }

  function YearOf(t: Instant): nat {
    CivilOf(t / SECOND).year
  }

  function DigitValue(c: char): Option<nat> {
    if '0' <= c <= '9' then Some((c - '0') as nat) else None
  }

  /** The two-digit number at `s[i..i+2]`. */
  function Pair(s: string, i: nat): Option<nat>
    requires i + 2 <= |s|
  {
    match (DigitValue(s[i]), DigitValue(s[i + 1]))
    case (Some(a), Some(b)) => Some(10 * a + b)
    case _ => None
  }

  /** The fields of `YYYY-MM-DD<sep>HH:MM:SS` at the head of `s`, if they name a real time. */
  function ParseFields(s: string, sep: char): (r: Option<Civil>)
    requires |s| >= 19
    ensures r.Some? ==> ValidCivil(r.value)
  {
    if s[4] != '-' || s[7] != '-' || s[10] != sep || s[13] != ':' || s[16] != ':' then None else
    match (Pair(s, 0), Pair(s, 2), Pair(s, 5), Pair(s, 8), Pair(s, 11), Pair(s, 14), Pair(s, 17))
    case (Some(y1), Some(y2), Some(mo), Some(d), Some(h), Some(mi), Some(se)) =>
      var c := Civil(100 * y1 + y2, mo, d, h, mi, se);
      if ValidCivil(c) then Some(c) else None
    case _ => None
  }

  /** 1970-01-01T00:00:00Z, see EpochIsNewYear1970. */
  const UNIX_EPOCH: Instant := 62_167_219_200 * SECOND

  /** `parse_sql_time`: the canonical form, then the space-separated form, then the Unix epoch. */
  function ParseSqlTime(s: string): Instant {
    var parsed :=
      if |s| == 20 && s[19] == 'Z' then ParseFields(s, 'T')
      else if |s| == 19 then ParseFields(s, ' ')
      else None;
    match parsed
    case Some(c) => SecondsOf(c) * SECOND
    case None => UNIX_EPOCH
  }

  // ----- Text order -------------------------------------------------------

  /** SQLite's BINARY collation: the first differing character decides, a proper prefix is smaller. */
  predicate TextBefore(a: string, b: string) {
    if b == [] then false
    else if a == [] then true
    else if a[0] != b[0] then a[0] < b[0]
    else TextBefore(a[1..], b[1..])
  }

  predicate TextAtMost(a: string, b: string) {
    !TextBefore(b, a)
  }

  lemma {:induction false} TextBeforeConcat(a1: string, a2: string, b1: string, b2: string)
    requires |a1| == |b1|
    ensures TextBefore(a1 + a2, b1 + b2) <==> TextBefore(a1, b1) || (a1 == b1 && TextBefore(a2, b2))
  {
    if a1 == [] {
      assert a1 + a2 == a2 && b1 + b2 == b2;
    } else {
      assert (a1 + a2)[1..] == a1[1..] + a2 && (b1 + b2)[1..] == b1[1..] + b2;
      TextBeforeConcat(a1[1..], a2, b1[1..], b2);
      assert a1 == [a1[0]] + a1[1..] && b1 == [b1[0]] + b1[1..];
    }
  }

  lemma D2Order(m: nat, n: nat)
    requires m < 100 && n < 100
    ensures TextBefore(D2(m), D2(n)) <==> m < n
    ensures D2(m) == D2(n) <==> m == n
  {
    assert D2(m)[1..] == [Digit(m % 10)] && D2(n)[1..] == [Digit(n % 10)];
    assert D2(m)[0] == Digit(m / 10) && D2(n)[0] == Digit(n / 10);
    assert TextBefore(D2(m)[1..], D2(n)[1..]) <==> m % 10 < n % 10;
    if D2(m) == D2(n) {
      assert D2(m)[0] == D2(n)[0] && D2(m)[1] == D2(n)[1];
    }
  }

  lemma D4Order(m: nat, n: nat)
    requires m < 10000 && n < 10000
    ensures TextBefore(D4(m), D4(n)) <==> m < n
    ensures D4(m) == D4(n) <==> m == n
  {
    TextBeforeConcat(D2(m / 100), D2(m % 100), D2(n / 100), D2(n % 100));
    D2Order(m / 100, n / 100);
    D2Order(m % 100, n % 100);
    if D4(m) == D4(n) {
      assert D2(m / 100) == D4(m)[..2] && D2(n / 100) == D4(n)[..2];
      assert D2(m % 100) == D4(m)[2..] && D2(n % 100) == D4(n)[2..];
    }
  }

  /** A separator of one character between two fixed-width fields changes nothing. */
  lemma FieldOrder(a1: string, a2: string, b1: string, b2: string, sep: string)
    requires |a1| == |b1|
    ensures TextBefore(a1 + sep + a2, b1 + sep + b2) <==> TextBefore(a1, b1) || (a1 == b1 && TextBefore(a2, b2))
  {
    TextBeforeConcat(a1 + sep, a2, b1 + sep, b2);
    TextBeforeConcat(a1, sep, b1, sep);
    TextIrreflexive(sep);
    if a1 + sep == b1 + sep {
      assert a1 == (a1 + sep)[..|a1|] && b1 == (b1 + sep)[..|b1|];
    }
  }

  lemma {:induction false} TextIrreflexive(s: string)
    ensures !TextBefore(s, s)
  {
    if s != [] {
      TextIrreflexive(s[1..]);
    }
  }

  function DateTimeTail(c: Civil): string {
    D2(c.month) + "-" + (D2(c.day) + "T" + ClockText(c))
  }

  lemma CivilTextNested(c: Civil)
    ensures CivilText(c) == YearText(c.year) + "-" + DateTimeTail(c)
  {
  }

  lemma ClockTextOrder(a: Civil, b: Civil)
    requires ValidCivil(a) && ValidCivil(b)
    ensures TextBefore(ClockText(a), ClockText(b)) <==>
            (|| a.hour < b.hour
             || (a.hour == b.hour && (a.minute < b.minute || (a.minute == b.minute && a.second < b.second))))
  {
    assert ClockText(a) == D2(a.hour) + ":" + (D2(a.minute) + ":" + (D2(a.second) + "Z"));
    assert ClockText(b) == D2(b.hour) + ":" + (D2(b.minute) + ":" + (D2(b.second) + "Z"));
    D2Order(a.hour, b.hour);
    D2Order(a.minute, b.minute);
    D2Order(a.second, b.second);
    TextIrreflexive("Z");
    TextBeforeConcat(D2(a.second), "Z", D2(b.second), "Z");
    FieldOrder(D2(a.minute), D2(a.second) + "Z", D2(b.minute), D2(b.second) + "Z", ":");
    FieldOrder(D2(a.hour), D2(a.minute) + ":" + (D2(a.second) + "Z"),
               D2(b.hour), D2(b.minute) + ":" + (D2(b.second) + "Z"), ":");
  }

  lemma CivilTextOrder(a: Civil, b: Civil)
    requires ValidCivil(a) && ValidCivil(b) && a.year <= 9999 && b.year <= 9999
    ensures TextBefore(CivilText(a), CivilText(b)) <==> CivilBefore(a, b)
  {
    CivilTextNested(a);
    CivilTextNested(b);
    D4Order(a.year, b.year);
    D2Order(a.month, b.month);
    D2Order(a.day, b.day);
    ClockTextOrder(a, b);
    FieldOrder(D2(a.day), ClockText(a), D2(b.day), ClockText(b), "T");
    FieldOrder(D2(a.month), D2(a.day) + "T" + ClockText(a), D2(b.month), D2(b.day) + "T" + ClockText(b), "-");
    FieldOrder(D4(a.year), DateTimeTail(a), D4(b.year), DateTimeTail(b), "-");
  }

  /** String order of stored timestamps is time order at second precision, exactly while the
      year has four digits; a five-digit year is written with a sign and sorts before them all. */
  lemma TextOrderIsTimeOrder(t: Instant, u: Instant)
    requires YearOf(t) <= 9999
    ensures TextAtMost(ToSqlTime(u), ToSqlTime(t)) <==> u / SECOND <= t / SECOND || YearOf(u) > 9999
  {
    var a, b := CivilOf(t / SECOND), CivilOf(u / SECOND);
    if b.year <= 9999 {
      CivilTextOrder(a, b);
      CivilOrderIsTimeOrder(a, b);
    } else {
      assert ToSqlTime(u)[0] == '+';
      assert D4(a.year)[0] == D2(a.year / 100)[0] == Digit(a.year / 1000 % 10) by {
        assert a.year / 100 / 10 == a.year / 1000;
      }
      assert ToSqlTime(t)[0] == D4(a.year)[0];
    }
  }

  // ----- Round trip -------------------------------------------------------

  lemma ClockTextAt(c: Civil)
    ensures var s := ClockText(c);
            && |s| == 9 && s[2] == ':' && s[5] == ':' && s[8] == 'Z'
            && s[0..2] == D2(c.hour) && s[3..5] == D2(c.minute) && s[6..8] == D2(c.second)
  {
  }

  lemma DateFieldsAt(y: string, mo: string, d: string, clock: string)
    requires |y| == 4 && |mo| == |d| == 2
    ensures var s := y + "-" + mo + "-" + d + "T" + clock;
            && |s| == 11 + |clock| && s[4] == '-' && s[7] == '-' && s[10] == 'T' && s[11..] == clock
            && s[0..4] == y && s[5..7] == mo && s[8..10] == d
  {
  }

  lemma PairIs(s: string, i: nat, n: nat)
    requires i + 2 <= |s| && n < 100 && s[i..i + 2] == D2(n)
    ensures Pair(s, i) == Some(n)
  {
    assert s[i] == s[i..i + 2][0] && s[i + 1] == s[i..i + 2][1];
  }

  /** Where each field of a four-digit-year timestamp stands. */
  lemma CanonicalTextAt(c: Civil)
    requires c.year <= 9999
    ensures var s := CivilText(c);
            && |s| == 20 && s[4] == '-' && s[7] == '-' && s[10] == 'T' && s[13] == ':' && s[16] == ':' && s[19] == 'Z'
            && s[0..2] == D2(c.year / 100) && s[2..4] == D2(c.year % 100)
            && s[5..7] == D2(c.month) && s[8..10] == D2(c.day)
            && s[11..13] == D2(c.hour) && s[14..16] == D2(c.minute) && s[17..19] == D2(c.second)
  {
    var s := CivilText(c);
    var clock := ClockText(c);
    DateFieldsAt(D4(c.year), D2(c.month), D2(c.day), clock);
    ClockTextAt(c);
    assert s[0..2] == s[0..4][0..2] && s[2..4] == s[0..4][2..4];
    assert s[11..13] == s[11..][0..2] && s[14..16] == s[11..][3..5] && s[17..19] == s[11..][6..8];
    assert s[13] == s[11..][2] && s[16] == s[11..][5] && s[19] == s[11..][8];
  }

  lemma CanonicalTextParses(c: Civil)
    requires ValidCivil(c) && c.year <= 9999
    ensures |CivilText(c)| == 20 && CivilText(c)[19] == 'Z'
    ensures ParseFields(CivilText(c), 'T') == Some(c)
  {
    CanonicalTextAt(c);
    var s := CivilText(c);
    PairIs(s, 0, c.year / 100);
    PairIs(s, 2, c.year % 100);
    PairIs(s, 5, c.month);
    PairIs(s, 8, c.day);
    PairIs(s, 11, c.hour);
    PairIs(s, 14, c.minute);
    PairIs(s, 17, c.second);
  }

  lemma {:induction false} DecimalLength(n: nat)
    ensures n >= 10000 ==> |Decimal(n)| >= 5
    ensures n >= 1000 ==> |Decimal(n)| >= 4
    ensures n >= 100 ==> |Decimal(n)| >= 3
    ensures n >= 10 ==> |Decimal(n)| >= 2
    ensures |Decimal(n)| >= 1
  {
    if n >= 10 {
      DecimalLength(n / 10);
    }
  }

  /** What is written is read back rounded down to the second while the year has four digits,
      and as the Unix epoch otherwise. */
  lemma RoundTrip(t: Instant)
    ensures YearOf(t) <= 9999 ==> ParseSqlTime(ToSqlTime(t)) == t / SECOND * SECOND
    ensures YearOf(t) > 9999 ==> ParseSqlTime(ToSqlTime(t)) == UNIX_EPOCH
  {
    var c := CivilOf(t / SECOND);
    if c.year <= 9999 {
      CanonicalTextParses(c);
    } else {
      DecimalLength(c.year);
      assert |ToSqlTime(t)| >= 22;
    }
  }

  lemma FourStep(y: nat)
    ensures (y + 4) / 4 - (y + 3) / 4 == if y % 4 == 0 then 1 else 0
  {
  }

  lemma HundredStep(y: nat)
    ensures (y + 100) / 100 - (y + 99) / 100 == if y % 100 == 0 then 1 else 0
  {
  }

  lemma FourHundredStep(y: nat)
    ensures (y + 400) / 400 - (y + 399) / 400 == if y % 400 == 0 then 1 else 0
  {
  }

  lemma FourTimes(q: nat)
    ensures 4 * q % 4 == 0
  {
  }

  lemma HundredTimes(q: nat)
    ensures 100 * q % 100 == 0
  {
  }

  lemma FourHundredIsHundreds(y: nat)
    requires y % 400 == 0
    ensures y % 100 == 0
  {
    HundredTimes(4 * (y / 400));
    assert y == 100 * (4 * (y / 400));
  }

  lemma HundredIsFours(y: nat)
    requires y % 100 == 0
    ensures y % 4 == 0
  {
    FourTimes(25 * (y / 100));
    assert y == 4 * (25 * (y / 100));
  }

  lemma LeapRules(y: nat)
    ensures DaysInYear(y) == 365 + (if y % 4 == 0 then 1 else 0) - (if y % 100 == 0 then 1 else 0) +
            (if y % 400 == 0 then 1 else 0)
  {
    if y % 400 == 0 {
      FourHundredIsHundreds(y);
    }
    if y % 100 == 0 {
      HundredIsFours(y);
    }
  }

  /** The calendar's usual closed form, an independent check of the recursive one. */
  lemma {:induction false} DaysBeforeYearClosed(y: nat)
    ensures DaysBeforeYear(y) == 365 * y + (y + 3) / 4 - (y + 99) / 100 + (y + 399) / 400
  {
    if y > 0 {
      DaysBeforeYearClosed(y - 1);
      FourStep(y - 1);
      HundredStep(y - 1);
      FourHundredStep(y - 1);
      LeapRules(y - 1);
    }
  }

  /** The year is given by its neighbours: a literal would make Dafny unroll DaysBeforeYear all the way down. */
  lemma EpochIsNewYear1970(c: Civil)
    requires 1969 < c.year < 1971 && c.month == 1 && c.day == 1 && SecondOfDay(c) == 0 && ValidCivil(c)
    ensures SecondsOf(c) * SECOND == UNIX_EPOCH
  {
    DaysBeforeYearClosed(c.year);
  }
}
