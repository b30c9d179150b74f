/** `Chrono::Date` of the Date program (Stroustrup_PPP/Date_class_ch9): the calendar rules
    `leapyear` and `is_date`, the `Date` class with its validating constructor, default
    constructor, accessors and setters, equality, and the text format `(y,m,d)` written by `<<`
    and read back by `>>`. The stream `>>` reads from is a sequence of characters and a cursor;
    it skips white space as the calculators' streams do, so the character classes are shared. */
module Chrono {
  import opened Errors
  import opened Lexing

  /** `enum class Month { jan=1, feb, ..., dec }` */
  datatype Month = Jan | Feb | Mar | Apr | May | Jun | Jul | Aug | Sep | Oct | Nov | Dec

  /** The enumerator's underlying `int`. A `Date` stores its month as this number, because
      `Month(n)` in `set_month` and `>>` converts any `int`, named enumerator or not. */
  function MonthNumber(m: Month): (n: int)
    ensures 1 <= n <= 12
  {
    match m
    case Jan => 1 case Feb => 2 case Mar => 3 case Apr => 4 case May => 5 case Jun => 6
    case Jul => 7 case Aug => 8 case Sep => 9 case Oct => 10 case Nov => 11 case Dec => 12
  }

  /** The enumerator whose value is `n`, if there is one. */
  function MonthNamed(n: int): (r: Option<Month>)
    ensures r.Some? <==> 1 <= n <= 12
    ensures r.Some? ==> MonthNumber(r.value) == n
  {
    if n == 1 then Some(Jan) else if n == 2 then Some(Feb) else if n == 3 then Some(Mar)
    else if n == 4 then Some(Apr) else if n == 5 then Some(May) else if n == 6 then Some(Jun)
    else if n == 7 then Some(Jul) else if n == 8 then Some(Aug) else if n == 9 then Some(Sep)
    else if n == 10 then Some(Oct) else if n == 11 then Some(Nov) else if n == 12 then Some(Dec)
    else None
  }

  /** The twelve enumerators are numbered 1 to 12, each number used once: `MonthNamed` and
      `MonthNumber` are inverse bijections between `Month` and 1..12. */
  lemma MonthNumbering(m: Month, n: int)
    ensures MonthNamed(MonthNumber(m)) == Some(m)
    ensures 1 <= n <= 12 ==> MonthNumber(MonthNamed(n).value) == n
    ensures MonthNumber(Jan) == 1 && MonthNumber(Dec) == 12
  {
  }

  /** `leapyear(y)`: divisible by 4 and not by 100, or divisible by 400. C++'s `%` truncates
      toward zero, but its remainder is zero exactly when Dafny's is, so the rule holds for
      negative years as written. */
  predicate LeapYear(y: int): (r: bool)
    ensures r ==> y % 4 == 0
    ensures y % 400 == 0 ==> r
    ensures y % 4 == 0 && y % 100 != 0 ==> r
    ensures y % 100 == 0 && y % 400 != 0 ==> !r
  {
    DivisorChain(y);
    (y % 4 == 0 && y % 100 != 0) || y % 400 == 0
  }

  /** The number of leap years among the years 1 to `n`. */
  function LeapYearsThrough(n: nat): nat {
    if n == 0 then 0 else LeapYearsThrough(n - 1) + (if LeapYear(n) then 1 else 0)
  }

  /** The Gregorian count: `n/4 - n/100 + n/400` leap years among the years 1 to `n`. */
  lemma {:induction false} LeapYearsThroughFormula(n: nat)
    ensures LeapYearsThrough(n) == n / 4 - n / 100 + n / 400
  {
    if n > 0 {
      LeapYearsThroughFormula(n - 1);
      QuotientSteps(n);
      DivisorChain(n);
    }
  }

  /** Counting up to `n` passes one more multiple of 4, 100 or 400 exactly when `n` is one. */
  lemma QuotientSteps(n: nat)
    requires 0 < n
    ensures n / 4 == (n - 1) / 4 + (if n % 4 == 0 then 1 else 0)
    ensures n / 100 == (n - 1) / 100 + (if n % 100 == 0 then 1 else 0)
    ensures n / 400 == (n - 1) / 400 + (if n % 400 == 0 then 1 else 0)
  {
  }

  /** A multiple of 400 is a multiple of 100, and a multiple of 100 one of 4. */
  lemma DivisorChain(n: int)
    ensures n % 100 == 0 ==> n % 4 == 0
    ensures n % 400 == 0 ==> n % 100 == 0
  {
    if n % 100 == 0 {
      FourDivides(25 * (n / 100));
    }
    if n % 400 == 0 {
      HundredDivides(4 * (n / 400));
    }
  }

  lemma FourDivides(k: int)
    ensures (4 * k) % 4 == 0
  {
  }

  lemma HundredDivides(k: int)
    ensures (100 * k) % 100 == 0
  {
  }

  /** Every 400 consecutive years (after year 0) hold exactly 97 leap years. */
  lemma LeapYearsPerCycle(y: nat)
    ensures LeapYearsThrough(y + 400) - LeapYearsThrough(y) == 97
  {
    LeapYearsThroughFormula(y);
    LeapYearsThroughFormula(y + 400);
    assert (y + 400) / 4 == y / 4 + 100;
    assert (y + 400) / 100 == y / 100 + 4;
    assert (y + 400) / 400 == y / 400 + 1;
  }

  /** The `days_in_month` that `is_date` computes: 31 unless the `switch` picks February or
      one of April, June, September and November. A month number outside 1..12 matches no
      case and keeps 31. */
  function DaysInMonth(y: int, m: int): (n: int)
    ensures 28 <= n <= 31
  {
    if m == 2 then (if LeapYear(y) then 29 else 28)
    else if m == 4 || m == 6 || m == 9 || m == 11 then 30
    else 31
  }

  /** The lengths of January to December in a common year. */
  const MonthLengths: seq<int> := [31, 28, 31, 30, 31, 30, 31, 31, 30, 31, 30, 31]

  /** The `switch` agrees with the table of month lengths, February gaining a day in a leap
      year, and gives 31 to a number that names no month. */
  lemma DaysInMonthTable(y: int, m: int)
    ensures 1 <= m <= 12 ==>
              DaysInMonth(y, m) == MonthLengths[m - 1] + (if m == 2 && LeapYear(y) then 1 else 0)
    ensures !(1 <= m <= 12) ==> DaysInMonth(y, m) == 31
  {
  }

  /** The days of months 1 to `k` of year `y`. */
  function DaysBefore(y: int, k: int): int
    decreases k
  {
    if k <= 0 then 0 else DaysBefore(y, k - 1) + DaysInMonth(y, k)
  }

  /** The twelve months add up to 366 days in a leap year and 365 otherwise. */
  lemma YearLength(y: int)
    ensures DaysBefore(y, 12) == if LeapYear(y) then 366 else 365
  {
    assert DaysBefore(y, 1) == 31;
    assert DaysBefore(y, 2) == 31 + DaysInMonth(y, 2);
    assert DaysBefore(y, 6) == DaysBefore(y, 2) + 122;
    assert DaysBefore(y, 12) == DaysBefore(y, 6) + 184;
  }

  /** `is_date(y, m, d)`: the day is at least 1 and at most the month's length. The year is
      not checked, and neither is the month. */
  predicate IsDate(y: int, m: int, d: int): (r: bool)
    ensures r ==> 1 <= d <= 31
    ensures 1 <= d <= 28 ==> r
    ensures m == 2 ==> (r <==> 1 <= d <= if LeapYear(y) then 29 else 28)
    ensures (m == 4 || m == 6 || m == 9 || m == 11) ==> (r <==> 1 <= d <= 30)
  {
    0 < d && d <= DaysInMonth(y, m)
  }

  /** `is_date` accepts the 31st of a month number that names no month. */
  lemma UnnamedMonthIsDate(y: int, m: int, d: int)
    requires MonthNamed(m).None?
    ensures IsDate(y, m, d) <==> 1 <= d <= 31
  {
  }

  /** The three fields `y`, `m`, `d` of a `Date`, as one value. */
  datatype DateValue = DateValue(year: int, month: int, day: int)

  predicate Valid(v: DateValue) {
    IsDate(v.year, v.month, v.day)
  }

  /** `default_date()`: 1 January 2001, built with the validating constructor. */
  function DefaultDate(): (v: DateValue)
    ensures Valid(v)
    ensures v.year == 2001 && MonthNamed(v.month) == Some(Jan) && v.day == 1
  {
    DateValue(2001, MonthNumber(Jan), 1)
  }

  /** The date `set_year(n)` leaves: `n` years later, 29 February becoming 1 March when the new
      year is not a leap year. */
  function YearsAdded(v: DateValue, n: int): (r: DateValue)
    ensures r.year == v.year + n
  {
    if v.month == MonthNumber(Feb) && v.day == 29 && !LeapYear(v.year + n) then
      DateValue(v.year + n, MonthNumber(Mar), 1)
    else
      v.(year := v.year + n)
  }

  /** `set_year` moves a valid date to a valid date, keeps month and day unless the date is a
      29 February moved to a common year, and then gives 1 March. */
  lemma YearsAddedKeepsValid(v: DateValue, n: int)
    requires Valid(v)
    ensures Valid(YearsAdded(v, n))
    ensures v.month == 2 && v.day == 29 && !LeapYear(v.year + n) ==>
              YearsAdded(v, n) == DateValue(v.year + n, 3, 1)
    ensures !(v.month == 2 && v.day == 29) || LeapYear(v.year + n) ==>
              YearsAdded(v, n).month == v.month && YearsAdded(v, n).day == v.day
  {
  }

  /** Adding `n` years and then `-n` years restores every date but a 29 February that was
      moved to a common year. */
  lemma YearsAddedUndone(v: DateValue, n: int)
    requires Valid(v)
    requires !(v.month == 2 && v.day == 29) || LeapYear(v.year + n)
    ensures YearsAdded(YearsAdded(v, n), -n) == v
  {
  }

  /** `class Date { int y; Month m; int d; }` */
  class Date {
    var y: int
    var m: int
    var d: int

    /** The whole state of the object: `Date` has no other field. */
    function Value(): DateValue
      reads this
    {
      DateValue(y, m, d)
    }

    /** `year()` */
    function Year(): (r: int)
      reads this
      ensures r == Value().year
    {
      y
    }

    /** `month()`, as the enumerator's number */
    function Month(): (r: int)
      reads this
      ensures r == Value().month
    {
      m
    }

    /** `day()` */
    function Day(): (r: int)
      reads this
      ensures r == Value().day
    {
      d
    }

    /** `Date()`: a copy of `default_date()`. */
    constructor ()
      ensures Value() == DefaultDate()
    {
      y := 2001;
      m := MonthNumber(Jan);
      d := 1;
    }

    /** The member initialisers of `Date(yy, mm, dd)`, reached only when `is_date` holds. */
    constructor Checked(yy: int, mm: int, dd: int)
      requires IsDate(yy, mm, dd)
      ensures Value() == DateValue(yy, mm, dd)
    {
      y := yy;
      m := mm;
      d := dd;
    }

    /** `set_day(n)`: no validity check. */
    method SetDay(n: int)
      modifies this
      ensures Value() == old(Value()).(day := n)
    {
      d := n;
    }

    /** `set_month(n)`: `m = Month(n)`, no validity check. */
    method SetMonth(n: int)
      modifies this
      ensures Value() == old(Value()).(month := n)
    {
      m := n;
    }

    /** `set_year(n)` */
    method SetYear(n: int)
      modifies this
      ensures Value() == YearsAdded(old(Value()), n)
    {
      if m == MonthNumber(Feb) && d == 29 && !LeapYear(y + n) {
        m := MonthNumber(Mar);
        d := 1;
      }
      y := y + n;
    }
  }

  /** `Date(yy, mm, dd)`: throws `Invalid` (here `None`) exactly when `is_date` fails, and
      otherwise holds exactly the three arguments. */
  method NewDate(yy: int, mm: int, dd: int) returns (r: Option<Date>)
    ensures r.None? <==> !IsDate(yy, mm, dd)
    ensures r.Some? ==> fresh(r.value) && r.value.Value() == DateValue(yy, mm, dd)
  {
    if !IsDate(yy, mm, dd) {
      return None;
    }
    var date := new Date.Checked(yy, mm, dd);
    return Some(date);
  }

  /** `a == b`: field by field, which is equality of the whole state. */
  function Equal(a: Date, b: Date): (r: bool)
    reads a, b
    ensures r <==> a.Value() == b.Value()
  {
    a.Year() == b.Year() && a.Month() == b.Month() && a.Day() == b.Day()
  }

  /** `a != b` */
  function NotEqual(a: Date, b: Date): (r: bool)
    reads a, b
    ensures r <==> a.y != b.y || a.m != b.m || a.d != b.d
  {
    !Equal(a, b)
  }

  // ---------------------------------------------------------------------------------------
  // The text format.

  function DigitChar(k: nat): (c: char)
    requires k < 10
    ensures IsDigit(c)
  {
    ('0' as int + k) as char
  }

  /** The decimal digits of `n`, without leading zeros. */
  function Digits(n: nat): (w: string)
    ensures 0 < |w| && forall k :: 0 <= k < |w| ==> IsDigit(w[k])
  {
    if n < 10 then [DigitChar(n)] else Digits(n / 10) + [DigitChar(n % 10)]
  }

  /** What `os << i` writes for an `int`. */
  function IntToString(i: int): (w: string)
  {
    if i < 0 then "-" + Digits(-i) else Digits(i)
  }

  /** The text of an `int` is a `-` for a negative number, then a non-empty run of digits. */
  lemma IntToStringDigits(i: int)
    ensures var w := IntToString(i);
            0 < |w| && (w[0] == '-' <==> i < 0) && (i < 0 ==> 1 < |w|) &&
            forall k :: (if i < 0 then 1 else 0) <= k < |w| ==> IsDigit(w[k])
  {
    var w := IntToString(i);
    if i < 0 {
      assert forall k :: 1 <= k < |w| ==> w[k] == Digits(-i)[k - 1];
    }
  }

  /** `os << '(' << d.year() << ',' << int(d.month()) << ',' << d.day() << ')'` */
  function Format(v: DateValue): (w: string)
  {
    "(" + IntToString(v.year) + "," + IntToString(v.month) + "," + IntToString(v.day) + ")"
  }

  /** The text of a date ends with `)` and holds exactly the two `,` delimiters, because the
      text of a number holds none. */
  lemma FormatDelimiters(v: DateValue)
    ensures 7 <= |Format(v)| && Format(v)[0] == '(' && Format(v)[|Format(v)| - 1] == ')'
    ensures multiset(Format(v))[','] == 2
  {
    NoCommaInNumber(v.year);
    NoCommaInNumber(v.month);
    NoCommaInNumber(v.day);
  }

  /** The text of a number holds no `,`. */
  lemma NoCommaInNumber(i: int)
    ensures multiset(IntToString(i))[','] == 0
  {
    var w := IntToString(i);
    IntToStringDigits(i);
    assert forall k :: 0 <= k < |w| ==> w[k] != ',' by {
      forall k | 0 <= k < |w|
        ensures w[k] != ','
      {
        if i < 0 && k == 0 {
        } else {
          assert IsDigit(w[k]);
        }
      }
    }
    assert ',' !in w;
  }

  /** The number a run of decimal digits spells. */
  function DigitsValue(w: string): nat
    requires forall k :: 0 <= k < |w| ==> IsDigit(w[k])
  {
    if w == [] then 0
    else
      var c := w[|w| - 1];
      assert IsDigit(c);
      DigitsValue(w[..|w| - 1]) * 10 + (c as int - '0' as int)
  }

  /** The values of a 32-bit `int`. */
  predicate IsInt(i: int) {
    -0x8000_0000 <= i < 0x8000_0000
  }

  /** A value extracted from the stream and the cursor after it. */
  datatype Scan<T> = Scan(value: T, next: nat)

  /** `is >> ch`: skip white space, then take one character; fails at the end of input. */
  function ReadChar(s: string, i: nat): (r: Option<Scan<char>>)
    ensures r.Some? ==> i < r.value.next <= |s|
  {
    var j := SkipSpace(s, i);
    if j < |s| then Some(Scan(s[j], j + 1)) else None
  }

  /** `is >> ch` takes the first non-blank character after `i`, and fails exactly when only
      white space is left. */
  lemma ReadCharSkipsSpace(s: string, i: nat)
    ensures var r := ReadChar(s, i);
            r.Some? ==> r.value.value == s[r.value.next - 1] && !IsSpace(r.value.value) &&
                        forall k :: i <= k < r.value.next - 1 ==> IsSpace(s[k])
    ensures ReadChar(s, i).None? <==> forall k :: i <= k < |s| ==> IsSpace(s[k])
  {
    var j := SkipSpace(s, i);
    if j < |s| {
      assert !IsSpace(s[j]);
    }
  }

  /** `is >> n` for an `int`: skip white space, an optional sign, then the longest run of
      decimal digits, of which there must be one; a value beyond 32 bits fails. */
  function ReadInt(s: string, i: nat): (r: Option<Scan<int>>)
    ensures r.Some? ==> IsInt(r.value.value) && i < r.value.next <= |s|
  {
    var j := SkipSpace(s, i);
    var k := if j < |s| && (s[j] == '-' || s[j] == '+') then j + 1 else j;
    var e := DigitsEnd(s, k);
    if e == k then None
    else
      assert forall q :: 0 <= q < e - k ==> s[k..e][q] == s[k + q];
      var n := DigitsValue(s[k..e]);
      var v: int := if k == j + 1 && s[j] == '-' then -(n as int) else n;
      if IsInt(v) then Some(Scan(v, e)) else None
  }

  /** What `is >> ch1 >> y >> ch2 >> m >> ch3 >> d >> ch4` extracts, or `None` when one of the
      extractions fails and leaves the stream in the fail state. */
  datatype Fields = Fields(open: char, y: int, sep1: char, m: int, sep2: char, d: int, close: char)

  function ReadFields(s: string, i: nat): (r: Option<Scan<Fields>>)
    ensures r.Some? ==> i < r.value.next <= |s|
  {
    match ReadChar(s, i)
    case None => None
    case Some(c1) =>
      match ReadInt(s, c1.next)
      case None => None
      case Some(y) =>
        match ReadChar(s, y.next)
        case None => None
        case Some(c2) =>
          match ReadInt(s, c2.next)
          case None => None
          case Some(m) =>
            match ReadChar(s, m.next)
            case None => None
            case Some(c3) =>
              match ReadInt(s, c3.next)
              case None => None
              case Some(d) =>
                match ReadChar(s, d.next)
                case None => None
                case Some(c4) =>
                  Some(Scan(Fields(c1.value, y.value, c2.value, m.value, c3.value, d.value, c4.value),
                            c4.next))
  }

  /** The delimiters `>>` insists on. */
  predicate WellDelimited(f: Fields) {
    f.open == '(' && f.sep1 == ',' && f.sep2 == ',' && f.close == ')'
  }

  /** How `is >> dd` ends: `dd` updated; the fail state set (a failed extraction or a wrong
      delimiter) with `dd` untouched; or `Invalid` thrown by the constructor, `dd` untouched. */
  datatype Extraction = Extracted | StreamFailed | ThrewInvalid

  /** `is >> dd` on the characters of `s` from `i`. `next` is where the cursor stops when all
      seven extractions succeed. */
  method ReadDate(dd: Date, s: string, i: nat) returns (outcome: Extraction, next: nat)
    modifies dd
    ensures ReadFields(s, i).None? ==> outcome == StreamFailed && dd.Value() == old(dd.Value())
    ensures ReadFields(s, i).Some? ==> next == ReadFields(s, i).value.next
    ensures ReadFields(s, i).Some? ==>
              var f := ReadFields(s, i).value.value;
              if !WellDelimited(f) then outcome == StreamFailed && dd.Value() == old(dd.Value())
              else if !IsDate(f.y, f.m, f.d) then
                outcome == ThrewInvalid && dd.Value() == old(dd.Value())
              else outcome == Extracted && dd.Value() == DateValue(f.y, f.m, f.d)
  {
    var scan := ReadFields(s, i);
    if scan.None? {
      return StreamFailed, i;
    }
    var f := scan.value.value;
    next := scan.value.next;
    if !WellDelimited(f) {
      return StreamFailed, next;
    }
    var made := NewDate(f.y, f.m, f.d);
    if made.None? {
      return ThrewInvalid, next;
    }
    dd.y, dd.m, dd.d := made.value.y, made.value.m, made.value.d;
    outcome := Extracted;
  }

  // ---------------------------------------------------------------------------------------
  // Reading back what `<<` writes.

  lemma {:induction false} DigitsRoundTrip(n: nat)
    ensures DigitsValue(Digits(n)) == n
  {
    var w := Digits(n);
    if n < 10 {
      assert w[..|w| - 1] == [];
    } else {
      assert w[..|w| - 1] == Digits(n / 10);
      DigitsRoundTrip(n / 10);
    }
  }

  /** The digit run that starts at `k` is exactly `w` when `w` is followed by a non-digit. */
  lemma {:induction false} DigitsEndOfRun(s: string, k: nat, w: string)
    requires k + |w| <= |s| && s[k..k + |w|] == w
    requires forall q :: 0 <= q < |w| ==> IsDigit(w[q])
    requires k + |w| == |s| || !IsDigit(s[k + |w|])
    ensures DigitsEnd(s, k) == k + |w|
    decreases |w|
  {
    if w != [] {
      assert s[k] == w[0];
      assert s[k + 1..k + 1 + |w[1..]|] == w[1..];
      DigitsEndOfRun(s, k + 1, w[1..]);
    }
  }

  /** The digits of `n` written at `k`, followed by a non-digit, are read as `n`. */
  lemma DigitsAt(s: string, k: nat, n: nat)
    requires k + |Digits(n)| <= |s| && s[k..k + |Digits(n)|] == Digits(n)
    requires k + |Digits(n)| == |s| || !IsDigit(s[k + |Digits(n)|])
    ensures DigitsEnd(s, k) == k + |Digits(n)|
    ensures DigitsValue(s[k..k + |Digits(n)|]) == n
  {
    var w := Digits(n);
    DigitsEndOfRun(s, k, w);
    DigitsRoundTrip(n);
  }

  /** `ReadInt` in terms of where its sign and its digits lie. */
  lemma ReadIntParts(s: string, i: nat, k: nat, e: nat, v: int)
    requires SkipSpace(s, i) < |s|
    requires var j := SkipSpace(s, i);
             if s[j] == '-' || s[j] == '+' then k == j + 1 else k == j
    requires DigitsEnd(s, k) == e && k < e
    requires v == if s[SkipSpace(s, i)] == '-' then -(DigitsValue(s[k..e]) as int) else DigitsValue(s[k..e])
    requires IsInt(v)
    ensures ReadInt(s, i) == Some(Scan(v, e))
  {
  }

  /** `>>` reads back the `int` that `<<` wrote, stopping at the first character after it. */
  lemma ReadIntOfText(i: int, s: string, p: nat)
    requires IsInt(i) && p + |IntToString(i)| <= |s| && s[p..p + |IntToString(i)|] == IntToString(i)
    requires p + |IntToString(i)| == |s| || !IsDigit(s[p + |IntToString(i)|])
    ensures ReadInt(s, p) == Some(Scan(i, p + |IntToString(i)|))
  {
    if i < 0 {
      ReadNegativeOfText(-i, s, p);
    } else {
      ReadNaturalOfText(i, s, p);
    }
  }

  lemma ReadNaturalOfText(n: nat, s: string, p: nat)
    requires IsInt(n) && p + |Digits(n)| <= |s| && s[p..p + |Digits(n)|] == Digits(n)
    requires p + |Digits(n)| == |s| || !IsDigit(s[p + |Digits(n)|])
    ensures ReadInt(s, p) == Some(Scan(n as int, p + |Digits(n)|))
  {
    assert s[p] == Digits(n)[0];
    DigitsAt(s, p, n);
    ReadIntParts(s, p, p, p + |Digits(n)|, n);
  }

  lemma ReadNegativeOfText(n: nat, s: string, p: nat)
    requires 0 < n && IsInt(-(n as int))
    requires p + 1 + |Digits(n)| <= |s| && s[p..p + 1 + |Digits(n)|] == "-" + Digits(n)
    requires p + 1 + |Digits(n)| == |s| || !IsDigit(s[p + 1 + |Digits(n)|])
    ensures ReadInt(s, p) == Some(Scan(-(n as int), p + 1 + |Digits(n)|))
  {
    var w := Digits(n);
    SignThenDigits(s, p, w);
    ReadNegativeParts(n, w, s, p);
  }

  lemma ReadNegativeParts(n: nat, w: string, s: string, p: nat)
    requires w == Digits(n) && IsInt(-(n as int))
    requires p + 1 + |w| <= |s| && s[p] == '-' && s[p + 1..p + 1 + |w|] == w
    requires p + 1 + |w| == |s| || !IsDigit(s[p + 1 + |w|])
    ensures ReadInt(s, p) == Some(Scan(-(n as int), p + 1 + |w|))
  {
    DigitsAt(s, p + 1, n);
    ReadIntParts(s, p, p + 1, p + 1 + |w|, -(n as int));
  }

  lemma SignThenDigits(s: string, p: nat, w: string)
    requires p + 1 + |w| <= |s| && s[p..p + 1 + |w|] == "-" + w
    ensures s[p] == '-' && s[p + 1..p + 1 + |w|] == w
  {
    var e := p + 1 + |w|;
    assert s[p] == s[p..e][0];
    assert s[p + 1..e] == s[p..e][1..];
    assert ("-" + w)[1..] == w;
  }

  /** `>>` reads back a character `<<` wrote, when it is not white space. */
  lemma ReadCharOfText(c: char, s: string, p: nat)
    requires !IsSpace(c) && p < |s| && s[p] == c
    ensures ReadChar(s, p) == Some(Scan(c, p + 1))
  {
  }

  /** What a prefix holds, its extension holds at the same places. */
  lemma SliceOfPrefix(x: string, y: string, k: nat, l: nat)
    requires k <= l <= |x|
    ensures (x + y)[k..l] == x[k..l]
  {
  }

  /** Where the three numbers and the four delimiters of `Format(v)` lie: `(` at 0, the
      year from 1 to `p1`, `,` at `p1`, the month from `p1 + 1` to `p3`, `,` at `p3`, the day
      from `p3 + 1` to `p5` and `)` at `p5`. */
  lemma FormatLayout(v: DateValue, rest: string) returns (p1: nat, p3: nat, p5: nat)
    ensures p5 + 1 == |Format(v)| && LaidOut(Format(v) + rest, v, p1, p3, p5)
  {
    var a, b, c := IntToString(v.year), IntToString(v.month), IntToString(v.day);
    var s2 := "(" + a;
    var s3 := s2 + ",";
    var s4 := s3 + b;
    var s5 := s4 + ",";
    var s6 := s5 + c;
    var s7 := s6 + ")";
    var s := s7 + rest;
    p1, p3, p5 := |s2|, |s4|, |s6|;
    SliceOfPrefix(s7, rest, 0, |s6|);
    SliceOfPrefix(s6, ")", 0, |s6|);
    assert s[..|s6|] == s6;
    SliceOfPrefix(s5, c, 0, |s4|);
    SliceOfPrefix(s4, ",", 0, |s4|);
    assert s6[..|s4|] == s4;
    SliceOfPrefix(s3, b, 0, |s2|);
    SliceOfPrefix(s2, ",", 0, |s2|);
    assert s4[..|s2|] == s2;
    assert s[1..|s2|] == s2[1..] == a;
    assert s[|s3|..|s4|] == s6[|s3|..|s4|] == s4[|s3|..] == b;
    assert s[|s5|..|s6|] == s6[|s5|..] == c;
    assert s[|s2|] == s4[|s2|] == ',';
    assert s[|s4|] == s6[|s4|] == ',';
    assert s[|s6|] == s7[|s6|] == ')';
  }

  /** Round trip: the text `<<` writes for a date whose fields fit in an `int` is read back by
      `>>` as those fields with the right delimiters, whatever follows it. */
  lemma FormatThenReadFields(v: DateValue, rest: string)
    requires IsInt(v.year) && IsInt(v.month) && IsInt(v.day)
    ensures ReadFields(Format(v) + rest, 0) ==
            Some(Scan(Fields('(', v.year, ',', v.month, ',', v.day, ')'), |Format(v)|))
  {
    var p1, p3, p5 := FormatLayout(v, rest);
    ReadLaidOut(Format(v) + rest, v, p1, p3, p5);
  }

  /** `s` starts with the text `Format(v)`: `(` at 0, the year from 1 to `p1`, `,` at `p1`,
      the month from `p1 + 1` to `p3`, `,` at `p3`, the day from `p3 + 1` to `p5`, `)` at `p5`. */
  predicate LaidOut(s: string, v: DateValue, p1: nat, p3: nat, p5: nat)
  {
    && p1 == 1 + |IntToString(v.year)| && p3 == p1 + 1 + |IntToString(v.month)|
    && p5 == p3 + 1 + |IntToString(v.day)| && p5 < |s|
    && s[0] == '(' && s[p1] == ',' && s[p3] == ',' && s[p5] == ')'
    && s[1..p1] == IntToString(v.year)
    && s[p1 + 1..p3] == IntToString(v.month)
    && s[p3 + 1..p5] == IntToString(v.day)
  }

  /** The seven extractions over text laid out as `Format` lays it out. */
  lemma ReadLaidOut(s: string, v: DateValue, p1: nat, p3: nat, p5: nat)
    requires IsInt(v.year) && IsInt(v.month) && IsInt(v.day)
    requires LaidOut(s, v, p1, p3, p5)
    ensures ReadFields(s, 0) == Some(Scan(Fields('(', v.year, ',', v.month, ',', v.day, ')'), p5 + 1))
  {
    ReadCharOfText('(', s, 0);
    ReadFieldOfText(v.year, ',', s, 1, p1);
    ReadFromMonth(s, v, p1, p3, p5);
  }

  /** The extractions after the year, once the `(`, the year and the first `,` were read. */
  lemma ReadFromMonth(s: string, v: DateValue, p1: nat, p3: nat, p5: nat)
    requires IsInt(v.month) && IsInt(v.day)
    requires p3 == p1 + 1 + |IntToString(v.month)| && p5 == p3 + 1 + |IntToString(v.day)| && p5 < |s|
    requires s[p3] == ',' && s[p5] == ')'
    requires s[p1 + 1..p3] == IntToString(v.month)
    requires s[p3 + 1..p5] == IntToString(v.day)
    requires ReadChar(s, 0) == Some(Scan('(', 1))
    requires ReadInt(s, 1) == Some(Scan(v.year, p1)) && ReadChar(s, p1) == Some(Scan(',', p1 + 1))
    ensures ReadFields(s, 0) == Some(Scan(Fields('(', v.year, ',', v.month, ',', v.day, ')'), p5 + 1))
  {
    ReadFieldOfText(v.month, ',', s, p1 + 1, p3);
    ReadFromDay(s, v, p1, p3, p5);
  }

  /** The last extractions, once everything up to the second `,` was read. */
  lemma ReadFromDay(s: string, v: DateValue, p1: nat, p3: nat, p5: nat)
    requires IsInt(v.day) && p5 == p3 + 1 + |IntToString(v.day)| && p5 < |s|
    requires s[p5] == ')' && s[p3 + 1..p5] == IntToString(v.day)
    requires ReadChar(s, 0) == Some(Scan('(', 1))
    requires ReadInt(s, 1) == Some(Scan(v.year, p1)) && ReadChar(s, p1) == Some(Scan(',', p1 + 1))
    requires ReadInt(s, p1 + 1) == Some(Scan(v.month, p3)) && ReadChar(s, p3) == Some(Scan(',', p3 + 1))
    ensures ReadFields(s, 0) == Some(Scan(Fields('(', v.year, ',', v.month, ',', v.day, ')'), p5 + 1))
  {
    assert ReadInt(s, p3 + 1) == Some(Scan(v.day, p5)) && ReadChar(s, p5) == Some(Scan(')', p5 + 1)) by {
      ReadFieldOfText(v.day, ')', s, p3 + 1, p5);
    }
    ReadFieldsParts(s, v.year, v.month, v.day, ')', p1, p3, p5);
  }

  /** One number `<<` wrote from `p` to `q`, then the delimiter `c` at `q`, read back. */
  lemma ReadFieldOfText(i: int, c: char, s: string, p: nat, q: nat)
    requires IsInt(i) && q == p + |IntToString(i)| && q < |s|
    requires s[p..q] == IntToString(i) && s[q] == c && !IsSpace(c) && !IsDigit(c)
    ensures ReadInt(s, p) == Some(Scan(i, q)) && ReadChar(s, q) == Some(Scan(c, q + 1))
  {
    ReadIntOfText(i, s, p);
    ReadCharOfText(c, s, q);
  }

  /** `ReadFields` from the start, in terms of the seven extractions and where each stops. */
  lemma ReadFieldsParts(s: string, y: int, m: int, d: int, close: char, p1: nat, p3: nat, p5: nat)
    requires ReadChar(s, 0) == Some(Scan('(', 1))
    requires ReadInt(s, 1) == Some(Scan(y, p1))
    requires ReadChar(s, p1) == Some(Scan(',', p1 + 1))
    requires ReadInt(s, p1 + 1) == Some(Scan(m, p3))
    requires ReadChar(s, p3) == Some(Scan(',', p3 + 1))
    requires ReadInt(s, p3 + 1) == Some(Scan(d, p5))
    requires ReadChar(s, p5) == Some(Scan(close, p5 + 1))
    ensures ReadFields(s, 0) == Some(Scan(Fields('(', y, ',', m, ',', d, close), p5 + 1))
  {
  }

  /** Reading back the text of a valid date yields an equal `Date`. */
  method FormatThenReadDate(v: DateValue, rest: string, dd: Date) returns (outcome: Extraction)
    requires IsInt(v.year) && IsInt(v.month) && IsInt(v.day) && Valid(v)
    modifies dd
    ensures outcome == Extracted && dd.Value() == v
  {
    FormatThenReadFields(v, rest);
    var next;
    outcome, next := ReadDate(dd, Format(v) + rest, 0);
  }

  /** The text of a date made invalid through `set_day` or `set_month` does not read back:
      the constructor behind `>>` throws `Invalid`. */
  lemma FormatOfInvalidDateThrows(v: DateValue, rest: string)
    requires IsInt(v.year) && IsInt(v.month) && IsInt(v.day) && !Valid(v)
    ensures ReadFields(Format(v) + rest, 0).Some?
    ensures var f := ReadFields(Format(v) + rest, 0).value.value;
            WellDelimited(f) && !IsDate(f.y, f.m, f.d)
  {
    FormatThenReadFields(v, rest);
  }

  /** A wrong opening delimiter leaves the stream failed: the first non-blank character must
      be `(`. */
  lemma WrongOpeningFails(s: string, i: nat)
    requires SkipSpace(s, i) < |s| && s[SkipSpace(s, i)] != '('
    ensures ReadFields(s, i).None? || !WellDelimited(ReadFields(s, i).value.value)
  {
  }
}
