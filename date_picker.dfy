/**
 * The date picker: the month grid (blank cells up to the weekday of the 1st,
 * then one cell per day), the 20-year list, stepping between months, and the
 * `YYYY-MM-DD` text a selection hands back. Dates are proleptic Gregorian
 * year/month/day triples with `getMonth`'s 0-based months; the time-zone
 * shift of `toISOString` is not modelled, so the date handed to
 * `Selected` is the UTC calendar date of the chosen day.
 */
module DatePicker {
  import opened Base
  import opened Text

  datatype Date = Date(year: int, month: int, day: int)

  // ---------------------------------------------------------------- the calendar

  predicate IsLeap(y: int) {
    y % 4 == 0 && (y % 100 != 0 || y % 400 == 0)
  }

  /** `new Date(year, month + 1, 0).getDate()`: the length of the month. */
  function DaysInMonth(y: int, m: int): (n: nat)
    requires 0 <= m < 12
    ensures 28 <= n <= 31
  {
    if m == 1 then (if IsLeap(y) then 29 else 28)
    else if m == 3 || m == 5 || m == 8 || m == 10 then 30
    else 31
  }

  /** A date `new Date(year, month, day)` names without rolling over. */
  predicate Valid(d: Date) {
    0 <= d.month < 12 && 1 <= d.day <= DaysInMonth(d.year, d.month)
  }

  /** Days since 1970-01-01 of a date (the civil-from-days count). */
  function DayNumber(d: Date): int
    requires Valid(d)
  {
    var m1 := d.month + 1;
    var y := if m1 <= 2 then d.year - 1 else d.year;
    var era := y / 400;
    var yoe := y - era * 400;
    var mp := if m1 > 2 then m1 - 3 else m1 + 9;
    var doy := (153 * mp + 2) / 5 + d.day - 1;
    var doe := yoe * 365 + yoe / 4 - yoe / 100 + doy;
    era * 146097 + doe - 719468
  }

  /** `getDay()`: 0 for Sunday; 1970-01-01 was a Thursday. */
  function Weekday(d: Date): (w: nat)
    requires Valid(d)
    ensures w < 7
  {
    (DayNumber(d) + 4) % 7
  }

  /** Within a month consecutive days have consecutive numbers. */
  lemma DayNumberInMonth(y: int, m: int, i: int)
    requires 0 <= m < 12 && 1 <= i <= DaysInMonth(y, m)
    ensures DayNumber(Date(y, m, i)) == DayNumber(Date(y, m, 1)) + (i - 1)
  {
  }

  /** Shifting by whole weeks keeps the remainder. */
  lemma ModSeven(a: int, b: int)
    requires b >= 0
    ensures (a % 7 + b) % 7 == (a + b) % 7
  {
    var q := a / 7;
    assert a == 7 * q + a % 7;
    assert a + b == 7 * q + (a % 7 + b);
  }

  // ---------------------------------------------------------------- the grid

  /** `startingDayOfWeek`: the weekday of the 1st. */
  function FirstWeekday(y: int, m: int): (w: nat)
    requires 0 <= m < 12
    ensures w < 7
  {
    Weekday(Date(y, m, 1))
  }

  /**
   * The cells `getDaysInMonth` returns: `null` up to the weekday of the 1st,
   * then the days of the month in order.
   */
  function Grid(y: int, m: int): (g: seq<Option<Date>>)
    requires 0 <= m < 12
    ensures |g| == FirstWeekday(y, m) + DaysInMonth(y, m)
    ensures forall k :: 0 <= k < FirstWeekday(y, m) ==> g[k].None?
    ensures forall i :: 1 <= i <= DaysInMonth(y, m) ==> g[FirstWeekday(y, m) + i - 1] == Some(Date(y, m, i))
  {
    var start := FirstWeekday(y, m);
    seq(start + DaysInMonth(y, m), k requires 0 <= k < start + DaysInMonth(y, m) =>
      if k < start then None else Some(Date(y, m, k - start + 1)))
  }

  /** `getDaysInMonth(date)`: two `for` loops pushing onto `days`. */
  method DaysOfMonth(y: int, m: int) returns (days: seq<Option<Date>>)
    requires 0 <= m < 12
    ensures days == Grid(y, m)
  {
    var start := FirstWeekday(y, m);
    var n := DaysInMonth(y, m);
    days := [];
    var i := 0;
    while i < start
      invariant 0 <= i <= start && |days| == i
      invariant forall k :: 0 <= k < i ==> days[k] == None
    {
      days := days + [None];
      i := i + 1;
    }
    i := 1;
    while i <= n
      invariant 1 <= i <= n + 1 && |days| == start + i - 1
      invariant forall k :: 0 <= k < start ==> days[k] == None
      invariant forall k :: 1 <= k < i ==> days[start + k - 1] == Some(Date(y, m, k))
    {
      days := days + [Some(Date(y, m, i))];
      i := i + 1;
    }
    var g := Grid(y, m);
    assert |days| == |g|;
    forall k | 0 <= k < |g| ensures days[k] == g[k] {
      if k >= start {
        assert days[start + (k - start + 1) - 1] == Some(Date(y, m, k - start + 1));
      }
    }
  }

  /**
   * The grid is drawn seven cells to a row under `Su Mo Tu We Th Fr Sa`: every
   * day lands in the column of its own weekday, and the grid is at most six
   * rows long.
   */
  lemma GridColumns(y: int, m: int)
    requires 0 <= m < 12
    ensures |Grid(y, m)| <= 37
    ensures forall k :: 0 <= k < |Grid(y, m)| && Grid(y, m)[k].Some? ==>
      Valid(Grid(y, m)[k].value) && Weekday(Grid(y, m)[k].value) == k % 7
  {
    var g, start := Grid(y, m), FirstWeekday(y, m);
    forall k | 0 <= k < |g| && g[k].Some? ensures Valid(g[k].value) && Weekday(g[k].value) == k % 7 {
      var i := k - start + 1;
      assert g[start + i - 1] == Some(Date(y, m, i));
      DayNumberInMonth(y, m, i);
      ModSeven(DayNumber(Date(y, m, 1)) + 4, i - 1);
    }
  }

  // ---------------------------------------------------------------- months and years

  /** A month as `getFullYear()` and `getMonth()` see it. */
  datatype Month = Month(year: int, month: int)

  /** Months counted from year 0. */
  function MonthNumber(c: Month): int {
    c.year * 12 + c.month
  }

  /** `new Date(year, month + delta)`: the month index rolls over into the year. */
  function Shifted(c: Month, delta: int): (r: Month)
    requires 0 <= c.month < 12
    ensures 0 <= r.month < 12 && MonthNumber(r) == MonthNumber(c) + delta
  {
    var t := MonthNumber(c) + delta;
    Month(t / 12, t % 12)
  }

  /** `handlePrevMonth`. */
  function PrevMonth(c: Month): (r: Month)
    requires 0 <= c.month < 12
    ensures 0 <= r.month < 12
    ensures c.month > 0 ==> r == Month(c.year, c.month - 1)
    ensures c.month == 0 ==> r == Month(c.year - 1, 11)
  {
    Shifted(c, -1)
  }

  /** `handleNextMonth`. */
  function NextMonth(c: Month): (r: Month)
    requires 0 <= c.month < 12
    ensures 0 <= r.month < 12
    ensures c.month < 11 ==> r == Month(c.year, c.month + 1)
    ensures c.month == 11 ==> r == Month(c.year + 1, 0)
  {
    Shifted(c, 1)
  }

  /** The two arrows undo each other. */
  lemma MonthArrowsInverse(c: Month)
    requires 0 <= c.month < 12
    ensures PrevMonth(NextMonth(c)) == c && NextMonth(PrevMonth(c)) == c
  {
  }

  /** `handleYearChange`: the chosen year, the month kept. */
  function WithYear(c: Month, year: int): (r: Month)
    ensures r.year == year
    ensures MonthNumber(r) == MonthNumber(c) + 12 * (year - c.year)
  {
    Month(year, c.month)
  }

  /** Choosing a year moves the calendar by whole years: twelve months per year of difference. */
  lemma WithYearShifts(c: Month, year: int)
    requires 0 <= c.month < 12
    ensures WithYear(c, year) == Shifted(c, 12 * (year - c.year))
  {
    var r := Shifted(c, 12 * (year - c.year));
    assert MonthNumber(r) == year * 12 + c.month;
    assert r.year * 12 + r.month == year * 12 + c.month;
  }

  /** `Array.from({ length: 20 }, (_, i) => currentYear - 10 + i)`. */
  function Years(currentYear: int): (r: seq<int>)
    ensures |r| == 20
    ensures forall i :: 0 <= i < 20 ==> r[i] == currentYear - 10 + i
  {
    seq(20, i => currentYear - 10 + i)
  }

  /** The year list runs upwards from ten years back to nine ahead and holds the current year. */
  lemma YearsAround(currentYear: int)
    ensures var ys := Years(currentYear);
      && ys[0] == currentYear - 10 && ys[19] == currentYear + 9
      && currentYear in ys
      && forall i, j :: 0 <= i < j < 20 ==> ys[i] < ys[j]
  {
    assert Years(currentYear)[10] == currentYear;
  }

  // ---------------------------------------------------------------- `YYYY-MM-DD`

  function Zeros(k: nat): (r: string)
    ensures |r| == k
  {
    if k == 0 then [] else Zeros(k - 1) + ['0']
  }

  /** `String(n).padStart(w, '0')`. */
  function Pad(n: nat, w: nat): (r: string)
    ensures |r| >= w
  {
    var d := Decimal(n);
    if |d| >= w then d else Zeros(w - |d|) + d
  }

  /** The year field of `toISOString`: four digits, or a sign and six digits outside 0..9999. */
  function IsoYear(y: int): string {
    if 0 <= y <= 9999 then Pad(y, 4)
    else (if y < 0 then "-" else "+") + Pad(if y < 0 then -y else y, 6)
  }

  /** The date part of `date.toISOString()`. */
  function IsoDate(d: Date): string
    requires Valid(d)
  {
    IsoYear(d.year) + "-" + Pad(d.month + 1, 2) + "-" + Pad(d.day, 2)
  }

  /** `toISOString()`: the date part, `T`, then the time of day. */
  function IsoString(d: Date, time: string): string
    requires Valid(d)
  {
    IsoDate(d) + "T" + time
  }

  /**
   * `handleDateSelect`: `date.toISOString().split('T')[0]` goes to `onChange`
   * and the popup closes (`isOpen` becomes false).
   */
  function Selected(d: Date, time: string): (r: (string, bool))
    requires Valid(d)
    ensures r.0 == IsoDate(d) && !r.1
  {
    var s := IsoString(d, time);
    IsoDateNoT(d);
    assert OccursAt(s, "T", |IsoDate(d)|);
    assert s[..|IsoDate(d)|] == IsoDate(d);
    FirstByChar(s, "T", |IsoDate(d)|, 0);
    (Before(s, "T"), false)
  }

  /**
   * `handleToday`: the calendar jumps to the month of today's date, that date
   * is handed on exactly as a picked day would be, and the popup closes.
   */
  function Today(d: Date, time: string): (r: (Month, string, bool))
    requires Valid(d)
    ensures r.0 == Month(d.year, d.month) && r.1 == IsoDate(d) && !r.2
  {
    var s := Selected(d, time);
    (Month(d.year, d.month), s.0, s.1)
  }

  /** `formatDisplayDate`: empty without a selection; the locale text of the date otherwise. */
  function DisplayDate(selected: Option<Date>, format: Date -> string): (r: string)
    ensures selected.None? ==> r == ""
    ensures selected.Some? ==> r == format(selected.value)
    ensures (forall d :: format(d) != "") ==> (r == "" <==> selected.None?)
  {
    if selected.None? then "" else format(selected.value)
  }

  /**
   * After a day of years 0..9999 is picked, the field shows the locale text of
   * the same date that the handed-on text reads back as.
   */
  lemma PickedDayShown(d: Date, time: string, format: Date -> string)
    requires Valid(d) && 0 <= d.year <= 9999
    ensures |Selected(d, time).0| == 10
    ensures DisplayDate(Some(d), format) == format(ParseIso(Selected(d, time).0))
  {
    IsoRoundTrip(d);
  }

  // ---------------------------------------------------------------- reading the text back

  predicate IsDigit(c: char) {
    '0' <= c <= '9'
  }

  /** The number a string of decimal digits spells. */
  function Value(s: string): int {
    if s == [] then 0 else Value(s[..|s| - 1]) * 10 + (s[|s| - 1] as int - '0' as int)
  }

  /** Reads `YYYY-MM-DD` for a four-digit year. */
  function ParseIso(s: string): Date
    requires |s| == 10
  {
    Date(Value(s[..4]), Value(s[5..7]) - 1, Value(s[8..10]))
  }

  function Pow10(k: nat): (p: nat)
    ensures p >= 1
  {
    if k == 0 then 1 else 10 * Pow10(k - 1)
  }

  /** `toString()` prints digits only. */
  lemma {:induction false} DecimalDigits(n: nat)
    ensures forall c :: c in Decimal(n) ==> IsDigit(c)
    decreases n
  {
    if n >= 10 {
      DecimalDigits(n / 10);
    }
  }

  /** A number below `10^k` prints in at most `k` digits. */
  lemma {:induction false} DecimalLength(n: nat, k: nat)
    requires 1 <= k && n < Pow10(k)
    ensures |Decimal(n)| <= k
    decreases n
  {
    if n >= 10 {
      assert Pow10(1) == 10;
      DecimalLength(n / 10, k - 1);
    }
  }

  /** Reading back what `toString()` printed gives the number. */
  lemma {:induction false} DecimalValue(n: nat)
    ensures Value(Decimal(n)) == n
    decreases n
  {
    var s := Decimal(n);
    if n < 10 {
      assert s[..0] == [];
    } else {
      DecimalValue(n / 10);
      assert s[..|s| - 1] == Decimal(n / 10);
    }
  }

  lemma {:induction false} ZerosValue(k: nat)
    ensures Value(Zeros(k)) == 0
    ensures forall c :: c in Zeros(k) ==> c == '0'
  {
    if k > 0 {
      ZerosValue(k - 1);
      assert Zeros(k)[..k - 1] == Zeros(k - 1);
    }
  }

  /** Leading zeros do not change the number. */
  lemma {:induction false} LeadingZeros(k: nat, s: string)
    ensures Value(Zeros(k) + s) == Value(s)
    decreases |s|
  {
    if s == [] {
      assert Zeros(k) + s == Zeros(k);
      ZerosValue(k);
    } else {
      var t := Zeros(k) + s;
      assert t[..|t| - 1] == Zeros(k) + s[..|s| - 1];
      LeadingZeros(k, s[..|s| - 1]);
    }
  }

  /** A padded number below `10^w` is exactly `w` digits that read back as the number. */
  lemma PadValue(n: nat, w: nat)
    requires 1 <= w && n < Pow10(w)
    ensures |Pad(n, w)| == w && Value(Pad(n, w)) == n
  {
    DecimalLength(n, w);
    DecimalValue(n);
    var d := Decimal(n);
    if |d| < w {
      assert Pad(n, w) == Zeros(w - |d|) + d;
      LeadingZeros(w - |d|, d);
    }
  }

  /** A padded number is digits only. */
  lemma PadDigits(n: nat, w: nat)
    ensures forall c :: c in Pad(n, w) ==> IsDigit(c)
  {
    DecimalDigits(n);
    if |Decimal(n)| < w {
      ZerosValue(w - |Decimal(n)|);
    }
  }

  /** The date part holds digits, dashes and a sign, never a `T`. */
  lemma IsoDateNoT(d: Date)
    requires Valid(d)
    ensures 'T' !in IsoDate(d)
  {
    var y := if d.year < 0 then -d.year else d.year;
    PadDigits(y, 4);
    PadDigits(y, 6);
    PadDigits(d.month + 1, 2);
    PadDigits(d.day, 2);
    assert 'T' !in IsoYear(d.year);
  }

  /** For years 0..9999 the emitted text is ten characters that read back as the date. */
  lemma IsoRoundTrip(d: Date)
    requires Valid(d) && 0 <= d.year <= 9999
    ensures |IsoDate(d)| == 10 && ParseIso(IsoDate(d)) == d
  {
    assert Pow10(4) == 10000 && Pow10(2) == 100;
    PadValue(d.year, 4);
    PadValue(d.month + 1, 2);
    PadValue(d.day, 2);
    IsoFields(Pad(d.year, 4), Pad(d.month + 1, 2), Pad(d.day, 2));
  }

  /** Where the three fields of a `YYYY-MM-DD` text sit. */
  lemma IsoFields(y: string, m: string, day: string)
    requires |y| == 4 && |m| == 2 && |day| == 2
    ensures var s := y + "-" + m + "-" + day;
      |s| == 10 && s[..4] == y && s[5..7] == m && s[8..10] == day
  {
  }

  /** Different days of years 0..9999 hand back different text. */
  lemma SelectionDistinguishes(a: Date, b: Date, time: string, time': string)
    requires Valid(a) && Valid(b) && 0 <= a.year <= 9999 && 0 <= b.year <= 9999
    requires Selected(a, time).0 == Selected(b, time').0
    ensures a == b
  {
    IsoRoundTrip(a);
    IsoRoundTrip(b);
  }
}
