/** Dates: counting days, the closed formula that must agree with it, and the
    IMF-fixdate text of section 7.1.1.1 of RFC 7231 (lib/CloudSync/CloudProtocol.cpp). */
module Calendar {
  // ---- counting ----

  predicate Leap(y: int) {
    y % 4 == 0 && (y % 100 != 0 || y % 400 == 0)
  }

  function YearDays(y: int): nat {
    if Leap(y) then 366 else 365
  }

  function MonthDays(y: int, m: int): nat {
    if m == 2 then (if Leap(y) then 29 else 28)
    else if m == 4 || m == 6 || m == 9 || m == 11 then 30
    else 31
  }

  /** Days from the start of year 0 to the start of year y. */
  function DaysToYear(y: nat): nat {
    if y == 0 then 0 else DaysToYear(y - 1) + YearDays(y - 1)
  }

  /** Days from the start of year y to the start of its month m. */
  function DaysToMonth(y: nat, m: nat): nat
    requires 1 <= m
  {
    if m == 1 then 0 else DaysToMonth(y, m - 1) + MonthDays(y, m - 1)
  }

  datatype Date = Date(year: nat, month: nat, day: nat)

  predicate Real(d: Date) {
    1 <= d.month <= 12 && 1 <= d.day <= MonthDays(d.year, d.month)
  }

  /** Days since 1 January 1970, counted year by year and month by month. */
  function DayNumber(d: Date): int
    requires Real(d)
  {
    DaysToYear(d.year) - DaysToYear(1970) + DaysToMonth(d.year, d.month) + d.day - 1
  }

  // ---- the formula ----

  /** The same by arithmetic alone, on years that start in March. */
  function FormulaDays(d: Date): int
    requires Real(d)
  {
    var y := if d.month <= 2 then d.year - 1 else d.year;
    var era := y / 400;
    var yearOfEra := y - era * 400;
    var dayOfYear := (153 * (d.month + if 2 < d.month then -3 else 9) + 2) / 5 + d.day - 1;
    var dayOfEra := yearOfEra * 365 + yearOfEra / 4 - yearOfEra / 100 + dayOfYear;
    era * 146097 + dayOfEra - 719468
  }

  /** Whether y is a multiple of k, as a number. */
  function Every(y: int, k: nat): nat
    requires 0 < k
  {
    if y % k == 0 then 1 else 0
  }

  /** One year more: a division by k steps up after every multiple of k. */
  lemma StepsUp(x: nat, k: nat)
    requires 0 < k
    ensures (x + k) / k == (x + k - 1) / k + Every(x, k) == x / k + 1
  {
    var q, r := x / k, x % k;
    assert x == q * k + r;
    DivIs(x + k, k, q + 1, r);
    if r == 0 { DivIs(x + k - 1, k, q, k - 1); } else { DivIs(x + k - 1, k, q + 1, r - 1); }
  }

  lemma DivIs(n: int, k: nat, q: int, r: nat)
    requires r < k && n == q * k + r
    ensures n / k == q
  {
    var p := n / k - q;
    assert p * k == r - n % k;
    assert 1 <= p ==> k <= p * k;
    assert p <= -1 ==> p * k <= 0 - k;
  }

  lemma LeapByDivision(y: nat)
    ensures YearDays(y) == 365 + Every(y, 4) - Every(y, 100) + Every(y, 400)
  {
    if y % 400 == 0 { DivIs(y, 100, 4 * (y / 400), 0); }
    if y % 100 == 0 { DivIs(y, 4, 25 * (y / 100), 0); }
  }

  lemma {:induction false} YearsInClosedForm(y: nat)
    ensures DaysToYear(y) == 365 * y + (y + 3) / 4 - (y + 99) / 100 + (y + 399) / 400
  {
    hide Leap, YearDays, Every;
    if y != 0 {
      YearsInClosedForm(y - 1);
      LeapByDivision(y - 1);
      StepsUp(y - 1, 4);
      StepsUp(y - 1, 100);
      StepsUp(y - 1, 400);
    }
  }

  lemma MonthsInClosedForm(y: nat, m: nat)
    requires 1 <= m <= 12
    ensures DaysToMonth(y, m) ==
              if m <= 2 then (153 * (m + 9) + 2) / 5 - 306
              else (153 * (m - 3) + 2) / 5 + YearDays(y) - 306
  {
    assert DaysToMonth(y, 1) == 0;
    assert DaysToMonth(y, 2) == 31;
    var f := if Leap(y) then 1 else 0;
    assert DaysToMonth(y, 3) == 59 + f;
    assert DaysToMonth(y, 4) == 90 + f;
    assert DaysToMonth(y, 5) == 120 + f;
    assert DaysToMonth(y, 6) == 151 + f;
    assert DaysToMonth(y, 7) == 181 + f;
    assert DaysToMonth(y, 8) == 212 + f;
    assert DaysToMonth(y, 9) == 243 + f;
    assert DaysToMonth(y, 10) == 273 + f;
    assert DaysToMonth(y, 11) == 304 + f;
    assert DaysToMonth(y, 12) == 334 + f;
  }

  lemma ErasAreYears(y: nat)
    ensures var era := y / 400; var r := y - era * 400;
            era * 146097 + r * 365 + r / 4 - r / 100 == 365 * y + y / 4 - y / 100 + y / 400
  {
    var era := y / 400;
    assert y / 4 == era * 100 + (y - era * 400) / 4;
    assert y / 100 == era * 4 + (y - era * 400) / 100;
  }

  lemma FormulaInClosedForm(d: Date, y: nat, m: nat)
    requires Real(d) && 1 <= d.year
    requires y == (if d.month <= 2 then d.year - 1 else d.year) && m == (if d.month <= 2 then d.month + 9 else d.month - 3)
    ensures FormulaDays(d) == 365 * y + y / 4 - y / 100 + y / 400 + (153 * m + 2) / 5 + d.day - 1 - 719468
  {
    hide Real;
    ErasAreYears(y);
  }

  lemma FormulaInAFirstMonth(d: Date)
    requires Real(d) && 1 <= d.year && d.month <= 2
    ensures FormulaDays(d) == DayNumber(d)
  {
    hide DaysToYear, DaysToMonth, MonthDays, YearDays, FormulaDays;
    YearsInClosedForm(d.year);
    YearsInClosedForm(1970);
    MonthsInClosedForm(d.year, d.month);
    FormulaInClosedForm(d, d.year - 1, d.month + 9);
    PreviousYear(d.year);
  }

  lemma FormulaInALaterMonth(d: Date)
    requires Real(d) && 1 <= d.year && 2 < d.month
    ensures FormulaDays(d) == DayNumber(d)
  {
    hide DaysToYear, DaysToMonth, MonthDays, YearDays, FormulaDays;
    YearsInClosedForm(d.year);
    YearsInClosedForm(1970);
    MonthsInClosedForm(d.year, d.month);
    FormulaInClosedForm(d, d.year, d.month - 3);
    ThisYear(d.year);
  }

  /** The formula counts days exactly, for every real date from year 1 on. */
  lemma FormulaCountsDays(d: Date)
    requires Real(d) && 1 <= d.year
    ensures FormulaDays(d) == DayNumber(d)
  {
    hide DayNumber, FormulaDays;
    if d.month <= 2 { FormulaInAFirstMonth(d); } else { FormulaInALaterMonth(d); }
  }

  lemma PreviousYear(y: nat)
    requires 1 <= y
    ensures (y + 3) / 4 == (y - 1) / 4 + 1 && (y + 99) / 100 == (y - 1) / 100 + 1 && (y + 399) / 400 == (y - 1) / 400 + 1
  {
  }

  lemma ThisYear(y: nat)
    ensures (y + 3) / 4 - (y + 99) / 100 + (y + 399) / 400 + YearDays(y)
         == y / 4 - y / 100 + y / 400 + 366
  {
    hide Leap, YearDays, Every;
    LeapByDivision(y);
    StepsUp(y, 4);
    StepsUp(y, 100);
    StepsUp(y, 400);
  }

  // ---- every day has one date ----

  lemma {:induction false} YearsGoUp(a: nat, b: nat)
    requires a < b
    ensures DaysToYear(a) + YearDays(a) <= DaysToYear(b)
  {
    if a < b - 1 { YearsGoUp(a, b - 1); }
  }

  lemma {:induction false} MonthsGoUp(y: nat, a: nat, b: nat)
    requires 1 <= a < b
    ensures DaysToMonth(y, a) + MonthDays(y, a) <= DaysToMonth(y, b)
  {
    if a < b - 1 { MonthsGoUp(y, a, b - 1); }
  }

  lemma WithinTheYear(d: Date)
    requires Real(d)
    ensures 0 <= DaysToMonth(d.year, d.month) + d.day - 1 < YearDays(d.year)
  {
    hide DaysToMonth, MonthDays, YearDays;
    MonthsInClosedForm(d.year, 12);
    if d.month < 12 { MonthsGoUp(d.year, d.month, 12); }
    assert MonthDays(d.year, 12) == 31 && YearDays(d.year) <= 366 by { DecemberHas31(d.year); }
    YearIsTwelveMonths(d.year);
  }

  lemma DecemberHas31(y: nat)
    ensures MonthDays(y, 12) == 31 && YearDays(y) <= 366
  {
  }

  lemma YearIsTwelveMonths(y: nat)
    ensures DaysToMonth(y, 12) + 31 == YearDays(y)
  {
    hide DaysToMonth;
    MonthsInClosedForm(y, 12);
  }

  lemma OneDateADay(a: Date, b: Date)
    requires Real(a) && Real(b) && DayNumber(a) == DayNumber(b)
    ensures a == b
  {
    hide DaysToYear, DaysToMonth, MonthDays, YearDays;
    WithinTheYear(a);
    WithinTheYear(b);
    if a.year < b.year { YearsGoUp(a.year, b.year); }
    if b.year < a.year { YearsGoUp(b.year, a.year); }
    if a.month < b.month { MonthsGoUp(a.year, a.month, b.month); }
    if b.month < a.month { MonthsGoUp(a.year, b.month, a.month); }
  }

  /** The year that day n after the start of year y falls in, and the day within it. */
  function YearOf(y: nat, n: nat): (r: (nat, nat))
    ensures y <= r.0 && r.1 < YearDays(r.0) && DaysToYear(r.0) + r.1 == DaysToYear(y) + n
    decreases n
  {
    if n < YearDays(y) then (y, n) else YearOf(y + 1, n - YearDays(y))
  }

  /** The month and day of the month of day n of year y, counted from month m on. */
  function MonthOf(y: nat, m: nat, n: nat): (r: (nat, nat))
    requires 1 <= m <= 12 && DaysToMonth(y, m) <= n < YearDays(y)
    ensures 1 <= r.0 <= 12 && 1 <= r.1 <= MonthDays(y, r.0) && DaysToMonth(y, r.0) + r.1 - 1 == n
    decreases 12 - m
  {
    if m == 12 then
      YearIsTwelveMonths(y);
      (12, n - DaysToMonth(y, 12) + 1)
    else if n < DaysToMonth(y, m + 1) then (m, n - DaysToMonth(y, m) + 1)
    else MonthOf(y, m + 1, n)
  }

  /** The date of a day since 1 January 1970. */
  function DateOf(n: nat): (d: Date)
    ensures Real(d) && DayNumber(d) == n && 1970 <= d.year
  {
    var (y, rest) := YearOf(1970, n);
    var (m, day) := MonthOf(y, 1, rest);
    Date(y, m, day)
  }

  // ---- the text ----

  const WEEKDAYS: seq<string> := ["Sun", "Mon", "Tue", "Wed", "Thu", "Fri", "Sat"]
  const MONTHS: seq<string> :=
    ["Jan", "Feb", "Mar", "Apr", "May", "Jun", "Jul", "Aug", "Sep", "Oct", "Nov", "Dec"]

  function Digit(n: nat): char
    requires n < 10
  {
    '0' + n as char
  }

  function Two(n: nat): string
    requires n < 100
  {
    [Digit(n / 10), Digit(n % 10)]
  }

  function Four(n: nat): string
    requires n < 10000
  {
    Two(n / 100) + Two(n % 100)
  }

  // 1 January 2020 and 1 January 2100
  const FIRST: nat := 1577836800
  const LAST: nat := 4102444800

  /** The weekday of a day since 1 January 1970, a Thursday. */
  function Weekday(n: nat): (w: nat)
    ensures w < 7
  {
    (n + 4) % 7
  }

  predicate InRange(t: nat) {
    FIRST <= t < LAST
  }

  /** The IMF-fixdate of an instant in seconds since 1970. */
  function ImfDate(t: nat): string
    requires InRange(t)
  {
    var n, s := t / 86400, t % 86400;
    var d := DateOf(n);
    YearInRange(t);
    WEEKDAYS[Weekday(n)] + ", " + Two(d.day) + " " + MONTHS[d.month - 1] + " " + Four(d.year) + " "
    + Two(s / 3600) + ":" + Two(s / 60 % 60) + ":" + Two(s % 60) + " GMT"
  }

  lemma Decades()
    ensures DaysToYear(2020) - DaysToYear(1970) == FIRST / 86400
    ensures DaysToYear(2100) - DaysToYear(1970) == LAST / 86400
  {
    hide DaysToYear;
    YearsInClosedForm(1970);
    YearsInClosedForm(2020);
    YearsInClosedForm(2100);
  }

  lemma YearInRange(t: nat)
    requires InRange(t)
    ensures 2020 <= DateOf(t / 86400).year <= 2099
  {
    hide DaysToYear, DateOf, DaysToMonth, MonthDays, YearDays;
    var d := DateOf(t / 86400);
    WithinTheYear(d);
    Decades();
    if d.year < 2020 { YearsGoUp(d.year, 2020); }
    if 2100 < d.year { YearsGoUp(2100, d.year); }
  }
}
