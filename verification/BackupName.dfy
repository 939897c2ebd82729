/** Backup names: an RFC 3339 time in UTC, and a sequence number as tie-breaker.  Names of years
  * 0000 to 9999 read back to what they were made from, and sort as strings in the order of time,
  * as section 5.1 of RFC 3339 says of times in one fixed form. */
module BackupName {
  import opened Common
  import opened StringOrder
  import Retention

  // ---------- calendar ----------

  datatype Civil = Civil(year: nat, month: nat, day: nat, hour: nat, minute: nat, second: nat)

  predicate IsLeap(year: nat) {
    year % 4 == 0 && (year % 100 != 0 || year % 400 == 0)
  }

  function DaysIn(year: nat, month: nat): nat {
    if month == 2 then (if IsLeap(year) then 29 else 28)
    else if month in {4, 6, 9, 11} then 30
    else 31
  }

  predicate ValidDate(c: Civil) {
    && c.year <= 9999 && 1 <= c.month <= 12 && 1 <= c.day <= DaysIn(c.year, c.month)
    && c.hour < 24 && c.minute < 60 && c.second < 60
  }

  /** Days from the start of year 0 to the start of `year`. */
  function DaysBeforeYear(year: nat): nat {
    if year == 0 then 0 else DaysBeforeYear(year - 1) + (if IsLeap(year - 1) then 366 else 365)
  }

  /** Days from the start of the year to the start of `month`. */
  function DaysBeforeMonth(year: nat, month: nat): nat {
    if month <= 1 then 0 else DaysBeforeMonth(year, month - 1) + DaysIn(year, month - 1)
  }

  function Days(c: Civil): int {
    DaysBeforeYear(c.year) + DaysBeforeMonth(c.year, c.month) + c.day - 1
  }

  /** Seconds since the start of year 0. */
  function Seconds(c: Civil): int {
    Days(c) * 86400 + c.hour * 3600 + c.minute * 60 + c.second
  }

  /** Nanoseconds since the zero time, which is the start of year 1. */
  function Time(c: Civil): int {
    (Seconds(c) - 366 * 86400) * 1_000_000_000
  }

  /** Field by field, the most significant first. */
  predicate Earlier(c: Civil, d: Civil) {
    || c.year < d.year
    || (c.year == d.year && (c.month < d.month
    || (c.month == d.month && (c.day < d.day
    || (c.day == d.day && (c.hour < d.hour
    || (c.hour == d.hour && (c.minute < d.minute
    || (c.minute == d.minute && c.second < d.second)))))))))
  }

  lemma {:induction false} YearsGrow(y: nat, z: nat)
    requires y < z
    ensures DaysBeforeYear(y) + (if IsLeap(y) then 366 else 365) <= DaysBeforeYear(z)
  {
    if y + 1 < z {
      YearsGrow(y, z - 1);
    }
  }

  lemma {:induction false} MonthsGrow(year: nat, m: nat, n: nat)
    requires 1 <= m < n
    ensures DaysBeforeMonth(year, m) + DaysIn(year, m) <= DaysBeforeMonth(year, n)
  {
    if m + 1 < n {
      MonthsGrow(year, m, n - 1);
    }
  }

  lemma YearHoldsMonths(year: nat)
    ensures DaysBeforeMonth(year, 13) == if IsLeap(year) then 366 else 365
  {
    assert DaysBeforeMonth(year, 4) == DaysBeforeMonth(year, 3) + 31 == DaysBeforeMonth(year, 2) + DaysIn(year, 2) + 31;
    assert DaysBeforeMonth(year, 7) == DaysBeforeMonth(year, 6) + 30 == DaysBeforeMonth(year, 5) + 61;
    assert DaysBeforeMonth(year, 5) + 61 == DaysBeforeMonth(year, 4) + 91;
    assert DaysBeforeMonth(year, 10) == DaysBeforeMonth(year, 9) + 30 == DaysBeforeMonth(year, 8) + 61;
    assert DaysBeforeMonth(year, 8) + 61 == DaysBeforeMonth(year, 7) + 92;
    assert DaysBeforeMonth(year, 13) == DaysBeforeMonth(year, 12) + 31 == DaysBeforeMonth(year, 11) + 61;
    assert DaysBeforeMonth(year, 11) + 61 == DaysBeforeMonth(year, 10) + 92;
  }

  /** How many of the years from 1 to `n` are leap years. */
  function LeapYears(n: nat): int {
    n / 4 - n / 100 + n / 400
  }

  lemma OneMoreYear(n: nat)
    requires 0 < n
    ensures LeapYears(n) == LeapYears(n - 1) + if IsLeap(n) then 1 else 0
  {
    assert n / 4 == (n - 1) / 4 + if n % 4 == 0 then 1 else 0;
    assert n / 100 == (n - 1) / 100 + if n % 100 == 0 then 1 else 0;
    assert n / 400 == (n - 1) / 400 + if n % 400 == 0 then 1 else 0;
    Centuries(n);
  }

  lemma Centuries(n: nat)
    ensures n % 400 == 0 ==> n % 100 == 0
    ensures n % 100 == 0 ==> n % 4 == 0
  {
    assert n % 400 == 0 ==> n == 100 * (4 * (n / 400));
    assert n % 100 == 0 ==> n == 4 * (25 * (n / 100));
  }

  /** The days before a year in closed form. */
  lemma {:induction false} YearsInClosedForm(year: nat)
    requires 0 < year
    ensures DaysBeforeYear(year) == 366 + 365 * (year - 1) + LeapYears(year - 1)
  {
    if year > 1 {
      YearsInClosedForm(year - 1);
      OneMoreYear(year - 1);
    } else {
      assert DaysBeforeYear(1) == 366;
    }
  }

  /** The days between months in closed form, from March on. */
  lemma MonthsInClosedForm(year: nat, month: nat)
    requires 3 <= month <= 12
    ensures DaysBeforeMonth(year, 3) == 31 + if IsLeap(year) then 29 else 28
    ensures DaysBeforeMonth(year, month) == DaysBeforeMonth(year, 3) + (153 * (month - 3) + 2) / 5
  {
    assert DaysBeforeMonth(year, 2) == 31;
    if month > 3 {
      MonthsInClosedForm(year, month - 1);
    }
  }

  /** The start of a year in closed form: the zero time for year 1, and 62135596800 seconds after it for 1970. */
  lemma StartOfYear(year: nat)
    requires 0 < year
    ensures var n := year - 1;
      Time(Civil(year, 1, 1, 0, 0, 0)) == (365 * n + LeapYears(n)) * 86400 * 1_000_000_000
  {
    YearsInClosedForm(year);
  }

  lemma DaysFollowDates(c: Civil, d: Civil)
    requires ValidDate(c) && ValidDate(d)
    requires c.year < d.year || (c.year == d.year && (c.month < d.month || (c.month == d.month && c.day < d.day)))
    ensures Days(c) < Days(d)
  {
    if c.year < d.year {
      YearsGrow(c.year, d.year);
      YearHoldsMonths(c.year);
      MonthsGrow(c.year, c.month, 13);
    } else if c.month < d.month {
      MonthsGrow(c.year, c.month, d.month);
    }
  }

  /** Comparing dates field by field is comparing times. */
  lemma EarlierMeansLess(c: Civil, d: Civil)
    requires ValidDate(c) && ValidDate(d)
    ensures Earlier(c, d) <==> Seconds(c) < Seconds(d)
    ensures c == d <==> Seconds(c) == Seconds(d)
  {
    if c.year == d.year && c.month == d.month && c.day == d.day {
      assert Days(c) == Days(d);
    } else if Earlier(c, d) {
      DaysFollowDates(c, d);
    } else {
      DaysFollowDates(d, c);
    }
  }

  // ---------- the hours and days of a cleanup ----------

  lemma SplitDay(c: Civil)
    requires ValidDate(c)
    ensures Retention.DayOf(Time(c)) == (Days(c) - 366) * Retention.Day
  {
    var rest := (c.hour * 3600 + c.minute * 60 + c.second) * 1_000_000_000;
    assert 0 <= rest < Retention.Day;
    assert Time(c) == (Days(c) - 366) * Retention.Day + rest;
    Retention.DayDivision(Time(c), Days(c) - 366, rest);
  }

  lemma SplitHour(c: Civil)
    requires ValidDate(c)
    ensures Retention.HourOf(Time(c)) == ((Days(c) - 366) * 24 + c.hour) * Retention.Hour
  {
  }

  predicate SameDate(c: Civil, d: Civil) {
    c.year == d.year && c.month == d.month && c.day == d.day
  }

  lemma DaysAreDates(c: Civil, d: Civil)
    requires ValidDate(c) && ValidDate(d)
    ensures Days(c) == Days(d) <==> SameDate(c, d)
  {
    if !SameDate(c, d) {
      if Earlier(c, d) {
        DaysFollowDates(c, d);
      } else {
        DaysFollowDates(d, c);
      }
    }
  }

  lemma SameMultiple(m: int, n: int, unit: int)
    requires unit > 0
    ensures m * unit == n * unit <==> m == n
  {
    if m * unit == n * unit {
      assert (m - n) * unit == 0;
    }
  }

  /** The day a cleanup puts a backup in is the calendar's day in UTC. */
  lemma BucketsAreDays(c: Civil, d: Civil)
    requires ValidDate(c) && ValidDate(d)
    ensures Retention.DayOf(Time(c)) == Retention.DayOf(Time(d)) <==> SameDate(c, d)
  {
    DaysAreDates(c, d);
    SplitDay(c);
    SplitDay(d);
    SameMultiple(Days(c) - 366, Days(d) - 366, Retention.Day);
  }

  /** The hour it puts a backup in is the calendar's hour in UTC. */
  lemma BucketsAreHours(c: Civil, d: Civil)
    requires ValidDate(c) && ValidDate(d)
    ensures Retention.HourOf(Time(c)) == Retention.HourOf(Time(d)) <==> SameDate(c, d) && c.hour == d.hour
  {
    DaysAreDates(c, d);
    var m, n := (Days(c) - 366) * 24 + c.hour, (Days(d) - 366) * 24 + d.hour;
    assert Retention.HourOf(Time(c)) == Retention.HourOf(Time(d)) <==> m == n by {
      SplitHour(c);
      SplitHour(d);
    }
  }

  // ---------- fixed-width numbers ----------

  function Power(w: nat): nat {
    if w == 0 then 1 else 10 * Power(w - 1)
  }

  function Digit(n: nat): char
    requires n < 10
  {
    '0' + n as char
  }

  predicate IsDigit(ch: char) {
    '0' <= ch <= '9'
  }

  function DigitValue(ch: char): (n: nat)
    requires IsDigit(ch)
    ensures n < 10 && Digit(n) == ch
  {
    ch as nat - '0' as nat
  }

  /** `n` in decimal, `w` digits wide. */
  function Digits(n: nat, w: nat): (r: string)
    ensures |r| == w
    ensures forall i | 0 <= i < w :: IsDigit(r[i])
  {
    if w == 0 then "" else Digits(n / 10, w - 1) + [Digit(n % 10)]
  }

  function Value(s: string): (n: nat)
    requires forall i | 0 <= i < |s| :: IsDigit(s[i])
    ensures n < Power(|s|)
  {
    if s == "" then 0
    else Value(s[..|s| - 1]) * 10 + DigitValue(s[|s| - 1])
  }

  lemma {:induction false} ValueOfDigits(n: nat, w: nat)
    requires n < Power(w)
    ensures Value(Digits(n, w)) == n
  {
    if w > 0 {
      ValueOfDigits(n / 10, w - 1);
      assert Digits(n, w)[..w - 1] == Digits(n / 10, w - 1);
    }
  }

  lemma {:induction false} DigitsOfValue(s: string)
    requires forall i | 0 <= i < |s| :: IsDigit(s[i])
    ensures Digits(Value(s), |s|) == s
  {
    if s != "" {
      DigitsOfValue(s[..|s| - 1]);
      assert s == s[..|s| - 1] + [s[|s| - 1]];
    }
  }

  lemma {:induction false} DigitsOrder(m: nat, n: nat, w: nat)
    requires m < Power(w) && n < Power(w)
    ensures LessEq(Digits(m, w), Digits(n, w)) <==> m <= n
    ensures Digits(m, w) == Digits(n, w) <==> m == n
  {
    ValueOfDigits(m, w);
    ValueOfDigits(n, w);
    if w > 0 {
      DigitsOrder(m / 10, n / 10, w - 1);
      Concatenated(Digits(m / 10, w - 1), Digits(n / 10, w - 1), [Digit(m % 10)], [Digit(n % 10)]);
    }
  }

  // ---------- one field of a time ----------

  /** A number, the character that ends it, and what follows. */
  function Field(n: nat, w: nat, end: char, rest: string): string {
    Digits(n, w) + [end] + rest
  }

  datatype Taken = Taken(value: nat, rest: string)

  /** Read a `w` digit number and the character that ends it. */
  function Take(s: string, w: nat, end: char): Option<Taken> {
    if |s| > w && s[w] == end && forall i | 0 <= i < w :: IsDigit(s[i])
    then Some(Taken(Value(s[..w]), s[w + 1..]))
    else None
  }

  lemma TakeField(n: nat, w: nat, end: char, rest: string)
    requires n < Power(w)
    ensures Take(Field(n, w, end, rest), w, end) == Some(Taken(n, rest))
  {
    ValueOfDigits(n, w);
    var s := Field(n, w, end, rest);
    assert s[..w] == Digits(n, w) && s[w + 1..] == rest;
  }

  lemma CutAt(s: string, w: nat)
    requires w < |s|
    ensures s == s[..w] + [s[w]] + s[w + 1..]
  {
  }

  lemma TakenIsField(s: string, w: nat, end: char)
    requires Take(s, w, end).Some?
    ensures var t := Take(s, w, end).value; t.value < Power(w) && s == Field(t.value, w, end, t.rest)
  {
    var digits := s[..w];
    assert |digits| == w && forall i | 0 <= i < w :: IsDigit(digits[i]);
    DigitsOfValue(digits);
    CutAt(s, w);
  }

  lemma FieldOrder(m: nat, n: nat, w: nat, end: char, x: string, y: string)
    requires m < Power(w) && n < Power(w)
    ensures LessEq(Field(m, w, end, x), Field(n, w, end, y)) <==> m < n || (m == n && LessEq(x, y))
  {
    DigitsOrder(m, n, w);
    Concatenated(Digits(m, w), Digits(n, w), [end] + x, [end] + y);
    assert Field(m, w, end, x) == Digits(m, w) + ([end] + x);
    assert Field(n, w, end, y) == Digits(n, w) + ([end] + y);
    assert ([end] + x)[1..] == x && ([end] + y)[1..] == y;
  }

  // ---------- times and names ----------

  /** The RFC 3339 form of a time in UTC, followed by `rest`. */
  function Stamp(c: Civil, rest: string): string {
    Field(c.year, 4, '-', Field(c.month, 2, '-', Field(c.day, 2, 'T',
      Field(c.hour, 2, ':', Field(c.minute, 2, ':', Field(c.second, 2, 'Z', rest))))))
  }

  function Format(c: Civil): string {
    Stamp(c, "")
  }

  /** Read a time in UTC without a fraction; the date must exist. */
  function ParseTime(s: string): Option<Civil> {
    var year :- Take(s, 4, '-');
    var month :- Take(year.rest, 2, '-');
    var day :- Take(month.rest, 2, 'T');
    var hour :- Take(day.rest, 2, ':');
    var minute :- Take(hour.rest, 2, ':');
    var second :- Take(minute.rest, 2, 'Z');
    var c := Civil(year.value, month.value, day.value, hour.value, minute.value, second.value);
    if second.rest == "" && ValidDate(c) then Some(c) else None
  }

  lemma TwoDigits(c: Civil)
    requires ValidDate(c)
    ensures c.year < Power(4) && c.month < Power(2) && c.day < Power(2)
    ensures c.hour < Power(2) && c.minute < Power(2) && c.second < Power(2)
  {
  }

  /** Formatting and parsing are inverse: exactly the formatted dates are read, each as itself. */
  lemma ParseFormat(c: Civil)
    requires ValidDate(c)
    ensures ParseTime(Format(c)) == Some(c)
  {
    TwoDigits(c);
    var s5 := Field(c.second, 2, 'Z', "");
    var s4 := Field(c.minute, 2, ':', s5);
    var s3 := Field(c.hour, 2, ':', s4);
    var s2 := Field(c.day, 2, 'T', s3);
    var s1 := Field(c.month, 2, '-', s2);
    TakeField(c.year, 4, '-', s1);
    TakeField(c.month, 2, '-', s2);
    TakeField(c.day, 2, 'T', s3);
    TakeField(c.hour, 2, ':', s4);
    TakeField(c.minute, 2, ':', s5);
    TakeField(c.second, 2, 'Z', "");
  }

  lemma FormatParse(s: string)
    requires ParseTime(s).Some?
    ensures ValidDate(ParseTime(s).value) && s == Format(ParseTime(s).value)
  {
    var s1 := Take(s, 4, '-').value.rest;
    var s2 := Take(s1, 2, '-').value.rest;
    var s3 := Take(s2, 2, 'T').value.rest;
    var s4 := Take(s3, 2, ':').value.rest;
    var s5 := Take(s4, 2, ':').value.rest;
    TakenIsField(s, 4, '-');
    TakenIsField(s1, 2, '-');
    TakenIsField(s2, 2, 'T');
    TakenIsField(s3, 2, ':');
    TakenIsField(s4, 2, ':');
    TakenIsField(s5, 2, 'Z');
  }

  const SequenceLimit: nat := 1_000_000

  /** The name AddBackup gives to a backup made at `c` under sequence number `sequence`. */
  function Name(c: Civil, sequence: nat): string {
    Format(c) + "-" + Digits(sequence, 6)
  }

  datatype NameInfo = NameInfo(date: Civil, suffix: string) {
    function Timestamp(): int {
      Time(date)
    }
  }

  predicate SeparatorAt(s: string, i: nat) {
    i + 1 < |s| && s[i] == 'Z' && s[i + 1] == '-'
  }

  /** The first place, from `i` on, where `Z-` occurs. */
  function Separator(s: string, i: nat := 0): (r: Option<nat>)
    ensures r.Some? ==> i <= r.value && SeparatorAt(s, r.value)
    ensures forall j | i <= j && SeparatorAt(s, j) :: r.Some? && r.value <= j
    decreases |s| - i
  {
    if i + 1 >= |s| then None
    else if SeparatorAt(s, i) then Some(i)
    else Separator(s, i + 1)
  }

  function ParseName(name: string): Option<NameInfo> {
    var z := Separator(name);
    var timeString := if z.Some? then name[..z.value + 1] else name;
    var suffix := if z.Some? then name[z.value + 2..] else "";
    var date :- ParseTime(timeString);
    Some(NameInfo(date, suffix))
  }

  lemma StampShape(c: Civil, rest: string)
    ensures Stamp(c, rest) == Format(c) + rest
    ensures |Format(c)| == 20 && Format(c)[19] == 'Z'
    ensures forall i | 0 <= i < 19 :: Format(c)[i] != 'Z'
  {
  }

  lemma NameParts(c: Civil, suffix: string)
    ensures var name := Format(c) + "-" + suffix;
      Separator(name) == Some(19) && name[..20] == Format(c) && name[21..] == suffix
  {
    StampShape(c, "");
    var name := Format(c) + "-" + suffix;
    assert SeparatorAt(name, 19);
    assert forall j | 0 <= j < 19 :: name[j] == Format(c)[j];
  }

  lemma ParseNamed(c: Civil, suffix: string)
    requires ValidDate(c)
    ensures ParseName(Format(c) + "-" + suffix) == Some(NameInfo(c, suffix))
  {
    NameParts(c, suffix);
    ParseFormat(c);
  }

  lemma ParseUnnamed(c: Civil)
    requires ValidDate(c)
    ensures ParseName(Format(c)) == Some(NameInfo(c, ""))
  {
    StampShape(c, "");
    assert forall j: nat :: !SeparatorAt(Format(c), j);
    ParseFormat(c);
  }

  lemma SplitAt(s: string, z: nat)
    requires SeparatorAt(s, z)
    ensures s == s[..z + 1] + "-" + s[z + 2..]
  {
  }

  lemma ParsedName(name: string)
    requires ParseName(name).Some?
    ensures var info := ParseName(name).value;
      ValidDate(info.date) &&
      (name == Format(info.date) + "-" + info.suffix || (name == Format(info.date) && info.suffix == ""))
  {
    var z := Separator(name);
    if z.Some? {
      FormatParse(name[..z.value + 1]);
      SplitAt(name, z.value);
    } else {
      FormatParse(name);
    }
  }

  /** A name is read exactly if it is a formatted date, alone or with `-` and any suffix after it. */
  lemma ParseNameExactly(name: string, c: Civil, suffix: string)
    ensures
      ParseName(name) == Some(NameInfo(c, suffix)) <==>
      ValidDate(c) && (name == Format(c) + "-" + suffix || (name == Format(c) && suffix == ""))
  {
    if ParseName(name) == Some(NameInfo(c, suffix)) {
      ParsedName(name);
    } else if ValidDate(c) {
      ParseNamed(c, suffix);
      ParseUnnamed(c);
    }
  }

  lemma StampOrder(c: Civil, d: Civil, x: string, y: string)
    requires ValidDate(c) && ValidDate(d)
    ensures LessEq(Stamp(c, x), Stamp(d, y)) <==> Earlier(c, d) || (c == d && LessEq(x, y))
  {
    TwoDigits(c);
    TwoDigits(d);
    var c5, d5 := Field(c.second, 2, 'Z', x), Field(d.second, 2, 'Z', y);
    var c4, d4 := Field(c.minute, 2, ':', c5), Field(d.minute, 2, ':', d5);
    var c3, d3 := Field(c.hour, 2, ':', c4), Field(d.hour, 2, ':', d4);
    var c2, d2 := Field(c.day, 2, 'T', c3), Field(d.day, 2, 'T', d3);
    var c1, d1 := Field(c.month, 2, '-', c2), Field(d.month, 2, '-', d2);
    FieldOrder(c.year, d.year, 4, '-', c1, d1);
    FieldOrder(c.month, d.month, 2, '-', c2, d2);
    FieldOrder(c.day, d.day, 2, 'T', c3, d3);
    FieldOrder(c.hour, d.hour, 2, ':', c4, d4);
    FieldOrder(c.minute, d.minute, 2, ':', c5, d5);
    FieldOrder(c.second, d.second, 2, 'Z', x, y);
  }

  lemma SixDigits()
    ensures Power(6) == SequenceLimit
  {
  }

  lemma NameIsStamp(c: Civil, n: nat)
    ensures Name(c, n) == Stamp(c, "-" + Digits(n, 6))
  {
  }

  lemma SequenceOrder(m: nat, n: nat)
    requires m < SequenceLimit && n < SequenceLimit
    ensures LessEq("-" + Digits(m, 6), "-" + Digits(n, 6)) <==> m <= n
  {
    SixDigits();
    DigitsOrder(m, n, 6);
    Concatenated("-", "-", Digits(m, 6), Digits(n, 6));
  }

  /** Names compare as strings as their times compare, the sequence number breaking ties. */
  lemma NameOrder(c: Civil, m: nat, d: Civil, n: nat)
    requires ValidDate(c) && ValidDate(d) && m < SequenceLimit && n < SequenceLimit
    ensures LessEq(Name(c, m), Name(d, n)) <==> Time(c) < Time(d) || (Time(c) == Time(d) && m <= n)
  {
    NameIsStamp(c, m);
    NameIsStamp(d, n);
    StampOrder(c, d, "-" + Digits(m, 6), "-" + Digits(n, 6));
    SequenceOrder(m, n);
    EarlierMeansLess(c, d);
  }

  /** A name determines its second and its sequence number. */
  lemma NamesDetermine(c: Civil, m: nat, d: Civil, n: nat)
    requires ValidDate(c) && ValidDate(d) && m < SequenceLimit && n < SequenceLimit
    ensures Name(c, m) == Name(d, n) <==> Time(c) == Time(d) && m == n
  {
    EarlierMeansLess(c, d);
    if Name(c, m) == Name(d, n) {
      ParseNamed(c, Digits(m, 6));
      ParseNamed(d, Digits(n, 6));
      SixDigits();
      DigitsOrder(m, n, 6);
    }
  }

  /** How a cleanup reads the time of a backup from its name. */
  function TimeOfName(name: string): Option<int> {
    var info :- ParseName(name);
    Some(info.Timestamp())
  }

  lemma TimeOfMade(c: Civil, n: nat)
    requires ValidDate(c)
    ensures TimeOfName(Name(c, n)) == Some(Time(c))
  {
    ParseNamed(c, Digits(n, 6));
  }

  // ---------- listing ----------

  datatype Made = Made(date: Civil, sequence: nat)

  predicate ValidMade(b: Made) {
    ValidDate(b.date) && b.sequence < SequenceLimit
  }

  predicate NoLater(a: Made, b: Made) {
    Time(a.date) < Time(b.date) || (Time(a.date) == Time(b.date) && a.sequence <= b.sequence)
  }

  function Names(made: seq<Made>): seq<string> {
    seq(|made|, i requires 0 <= i < |made| => Name(made[i].date, made[i].sequence))
  }

  /** A listing is sorted as strings exactly if it is in the order of time and sequence. */
  lemma ListingIsChronological(made: seq<Made>)
    requires forall i | 0 <= i < |made| :: ValidMade(made[i])
    ensures Sorted(Names(made)) <==> forall i, j | 0 <= i < j < |made| :: NoLater(made[i], made[j])
  {
    forall i, j | 0 <= i < j < |made|
      ensures LessEq(Names(made)[i], Names(made)[j]) <==> NoLater(made[i], made[j])
    {
      assert ValidMade(made[i]) && ValidMade(made[j]);
      NameOrder(made[i].date, made[i].sequence, made[j].date, made[j].sequence);
    }
  }

  // ---------- the sequence counter ----------

  /** The counter of one process: every upload takes the next number, and the numbers wrap. */
  class Uploader {
    var sequence: nat

    constructor ()
      ensures sequence == 0
    {
      sequence := 0;
    }

    /** uploadBackup, as far as the name goes. */
    method Upload(now: Civil) returns (name: string)
      requires sequence < SequenceLimit && ValidDate(now)
      modifies this
      ensures sequence == Following(old(sequence))
      ensures ParseName(name) == Some(NameInfo(now, Digits(sequence, 6)))
    {
      sequence := sequence + 1;
      if sequence > 999999 {
        sequence := 0;
      }
      name := Format(now) + "-" + Digits(sequence, 6);
      ParseNamed(now, Digits(sequence, 6));
    }
  }

  function Following(n: nat): nat {
    if n + 1 < SequenceLimit then n + 1 else 0
  }

  /** The sequence number of upload number `i` after the counter stood at `start`. */
  function Nth(start: nat, i: nat): nat {
    if i == 0 then start else Following(Nth(start, i - 1))
  }

  /** The numbers wrap exactly once in a million. */
  lemma {:induction false} NthIs(start: nat, i: nat)
    requires start < SequenceLimit && i <= SequenceLimit
    ensures Nth(start, i) == if start + i < SequenceLimit then start + i else start + i - SequenceLimit
  {
    if i > 0 {
      NthIs(start, i - 1);
    }
  }

  lemma {:induction false} NthAdds(start: nat, i: nat, j: nat)
    requires start < SequenceLimit
    ensures Nth(start, i) < SequenceLimit
    ensures Nth(start, i + j) == Nth(Nth(start, i), j)
  {
    if j > 0 {
      NthAdds(start, i, j - 1);
    } else if i > 0 {
      NthAdds(start, i - 1, 0);
    }
  }

  lemma NumbersDiffer(start: nat, i: nat, j: nat)
    requires start < SequenceLimit && i < j < i + SequenceLimit
    ensures Nth(start, i) < SequenceLimit && Nth(start, j) < SequenceLimit
    ensures Nth(start, i) != Nth(start, j)
  {
    NthAdds(start, i, j - i);
    NthIs(Nth(start, i), j - i);
  }

  lemma NumbersTellNamesApart(c: Civil, m: nat, d: Civil, n: nat)
    requires ValidDate(c) && ValidDate(d) && m < SequenceLimit && n < SequenceLimit && m != n
    ensures Name(c, m) != Name(d, n)
  {
    NamesDetermine(c, m, d, n);
  }

  /** Two of any million consecutive uploads of one process never get the same name, whatever the clock says. */
  lemma NamesAreUnique(start: nat, i: nat, j: nat, c: Civil, d: Civil)
    requires start < SequenceLimit && ValidDate(c) && ValidDate(d)
    requires i < j < i + SequenceLimit
    ensures Name(c, Nth(start, i)) != Name(d, Nth(start, j))
  {
    NumbersDiffer(start, i, j);
    NumbersTellNamesApart(c, Nth(start, i), d, Nth(start, j));
  }
}
