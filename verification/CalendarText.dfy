/** Reading an IMF-fixdate: accepted exactly when it is the text of an instant
    of 2020-2099, with its right weekday (lib/CloudSync/CloudProtocol.cpp). */
module CalendarText {
  import opened Calendar

  // ---- layout ----

  function Laid(w: string, day: string, month: string, year: string, h: string, mi: string, s: string): string {
    w + ", " + day + " " + month + " " + year + " " + h + ":" + mi + ":" + s + " GMT"
  }

  /** The separators are in place. */
  predicate Fits(date: string) {
    && |date| == 29
    && date[3] == ',' && date[4] == ' ' && date[7] == ' ' && date[11] == ' ' && date[16] == ' '
    && date[19] == ':' && date[22] == ':' && date[25..] == " GMT"
  }

  lemma LaidOut(w: string, day: string, month: string, year: string, h: string, mi: string, s: string)
    requires |w| == 3 && |day| == 2 && |month| == 3 && |year| == 4 && |h| == 2 && |mi| == 2 && |s| == 2
    ensures var date := Laid(w, day, month, year, h, mi, s);
            && Fits(date)
            && date[..3] == w && date[5..7] == day && date[8..11] == month && date[12..16] == year
            && date[17..19] == h && date[20..22] == mi && date[23..25] == s
  {
  }

  lemma FitsIsLaid(date: string)
    requires Fits(date)
    ensures date == Laid(date[..3], date[5..7], date[8..11], date[12..16], date[17..19], date[20..22], date[23..25])
  {
  }

  // ---- numbers ----

  /** The number decimal digits spell; -1 if one is not a digit. */
  function Value(s: string): (v: int)
    ensures -1 <= v
  {
    if s == [] then 0
    else
      var v := Value(s[..|s| - 1]);
      var c := s[|s| - 1];
      if v == -1 || c < '0' || '9' < c then -1 else v * 10 + (c as int - '0' as int)
  }

  lemma TwoRead(s: string)
    requires |s| == 2
    ensures Value(s) == -1 || (0 <= Value(s) < 100 && s == Two(Value(s)))
  {
    assert s[..1][..0] == "" && s[..1][0] == s[0];
    assert Value(s[..1]) == if s[0] < '0' || '9' < s[0] then -1 else s[0] as int - '0' as int;
  }

  lemma TwoPrinted(n: nat)
    requires n < 100
    ensures Value(Two(n)) == n
  {
    var s := Two(n);
    assert s[..1][..0] == "" && s[..1] == [Digit(n / 10)];
    assert Value(s[..1]) == n / 10;
  }

  lemma FourIsTwice(s: string)
    requires |s| == 4
    ensures Value(s) == if Value(s[..2]) == -1 || Value(s[2..]) == -1 then -1 else Value(s[..2]) * 100 + Value(s[2..])
  {
    assert s[..3][..2] == s[..2];
    assert s[2..][..1] == [s[2]] && [s[2]][..0] == "";
    assert Value([s[2]]) == if s[2] < '0' || '9' < s[2] then -1 else s[2] as int - '0' as int;
  }

  lemma FourRead(s: string)
    requires |s| == 4
    ensures Value(s) == -1 || (0 <= Value(s) < 10000 && s == Four(Value(s)))
  {
    hide Value, Two;
    FourIsTwice(s);
    TwoRead(s[..2]);
    TwoRead(s[2..]);
    assert s == s[..2] + s[2..];
    var a, b := Value(s[..2]), Value(s[2..]);
    if a != -1 && b != -1 { DivIs(a * 100 + b, 100, a, b); }
  }

  lemma FourPrinted(n: nat)
    requires n < 10000
    ensures Value(Four(n)) == n
  {
    FourIsTwice(Four(n));
    assert Four(n)[..2] == Two(n / 100) && Four(n)[2..] == Two(n % 100);
    TwoPrinted(n / 100);
    TwoPrinted(n % 100);
  }

  // ---- what a date text says ----

  /** The instant t has every field the text shows. */
  ghost predicate Shows(date: string, t: nat)
    requires InRange(t)
  {
    var n, s := t / 86400, t % 86400;
    var d := DateOf(n);
    && Fits(date)
    && date[..3] == WEEKDAYS[Weekday(n)]
    && Value(date[5..7]) == d.day
    && date[8..11] == MONTHS[d.month - 1]
    && Value(date[12..16]) == d.year
    && Value(date[17..19]) == s / 3600
    && Value(date[20..22]) == s / 60 % 60
    && Value(date[23..25]) == s % 60
  }

  lemma NamesAreThreeLetters()
    ensures forall i :: 0 <= i < 7 ==> |WEEKDAYS[i]| == 3
    ensures forall i :: 0 <= i < 12 ==> |MONTHS[i]| == 3
  {
  }

  lemma ImfDateIsLaid(t: nat)
    requires InRange(t)
    ensures var n, s := t / 86400, t % 86400; var d := DateOf(n);
            && 2020 <= d.year <= 2099
            && ImfDate(t) == Laid(WEEKDAYS[Weekday(n)], Two(d.day), MONTHS[d.month - 1], Four(d.year),
                                  Two(s / 3600), Two(s / 60 % 60), Two(s % 60))
  {
    hide DateOf, Two, Four;
    YearInRange(t);
  }

  lemma ImfDateShows(t: nat)
    requires InRange(t)
    ensures Shows(ImfDate(t), t)
  {
    hide DateOf, Two, Four, Value, Laid, Fits, ImfDate, Weekday;
    var n, s := t / 86400, t % 86400;
    var d := DateOf(n);
    ImfDateIsLaid(t);
    NamesAreThreeLetters();
    FieldsPrinted(d.day, d.year, s);
    LaidOut(WEEKDAYS[Weekday(n)], Two(d.day), MONTHS[d.month - 1], Four(d.year),
            Two(s / 3600), Two(s / 60 % 60), Two(s % 60));
  }

  lemma ShowsIsImfDate(date: string, t: nat)
    requires InRange(t) && Shows(date, t)
    ensures date == ImfDate(t)
  {
    hide DateOf, Two, Four, Value, Laid, Fits, ImfDate, Weekday;
    ImfDateIsLaid(t);
    FitsHasRoom(date);
    FitsIsLaid(date);
    TwoRead(date[5..7]);
    FourRead(date[12..16]);
    TwoRead(date[17..19]);
    TwoRead(date[20..22]);
    TwoRead(date[23..25]);
  }

  lemma FitsHasRoom(date: string)
    requires Fits(date)
    ensures |date| == 29
  {
  }

  lemma FieldsPrinted(day: nat, year: nat, s: nat)
    requires day < 100 && year < 10000 && s < 86400
    ensures Value(Two(day)) == day && |Two(day)| == 2
    ensures Value(Four(year)) == year && |Four(year)| == 4
    ensures Value(Two(s / 3600)) == s / 3600 && Value(Two(s / 60 % 60)) == s / 60 % 60 && Value(Two(s % 60)) == s % 60
    ensures |Two(s / 3600)| == 2 && |Two(s / 60 % 60)| == 2 && |Two(s % 60)| == 2
  {
    hide Value;
    TwoPrinted(day);
    FourPrinted(year);
    TwoPrinted(s / 3600);
    TwoPrinted(s / 60 % 60);
    TwoPrinted(s % 60);
  }

  // ---- reading ----

  method Digits(date: string, offset: nat, length: nat) returns (value: int)
    requires offset + length <= |date|
    ensures value == Value(date[offset..offset + length])
  {
    value := 0;
    for i := 0 to length
      invariant value == Value(date[offset..offset + i]) && value != -1
    {
      var c := date[offset + i];
      assert date[offset..offset + i + 1][..i] == date[offset..offset + i];
      if c < '0' || '9' < c {
        NoNumber(date[offset..offset + length], i);
        return -1;
      }
      value := value * 10 + (c as int - '0' as int);
    }
  }

  lemma {:induction false} NoNumber(s: string, i: nat)
    requires i < |s| && (s[i] < '0' || '9' < s[i])
    ensures Value(s) == -1
  {
    if i < |s| - 1 { NoNumber(s[..|s| - 1], i); }
  }

  /** The last name that the text holds at the offset, or -1. */
  method FindName(date: string, offset: nat, names: seq<string>) returns (found: int)
    requires offset + 3 <= |date|
    ensures -1 <= found < |names|
    ensures if found == -1 then date[offset..offset + 3] !in names else date[offset..offset + 3] == names[found]
  {
    found := -1;
    for i := 0 to |names|
      invariant -1 <= found < i
      invariant if found == -1 then date[offset..offset + 3] !in names[..i] else date[offset..offset + 3] == names[found]
    {
      if date[offset..offset + 3] == names[i] { found := i; }
    }
  }

  lemma OneWeekday(i: nat, j: nat)
    requires i < 7 && j < 7 && WEEKDAYS[i] == WEEKDAYS[j]
    ensures i == j
  {
    var a, b := WEEKDAYS[i], WEEKDAYS[j];
    assert a[0] == b[0] && a[1] == b[1] && a[2] == b[2];
  }

  lemma OneMonth(i: nat, j: nat)
    requires i < 12 && j < 12 && MONTHS[i] == MONTHS[j]
    ensures i == j
  {
    var a, b := MONTHS[i], MONTHS[j];
    assert a[0] == b[0] && a[1] == b[1] && a[2] == b[2];
  }

  /** The fields are in range and t is the instant they name, on that weekday. */
  ghost predicate Names(t: nat, w: int, m: int, day: int, year: int, h: int, mi: int, s: int) {
    && 0 <= w && 0 <= m && 0 <= day && 2020 <= year <= 2099 && 0 <= h <= 23 && 0 <= mi <= 59 && 0 <= s <= 59
    && Real(Date(year, m + 1, day))
    && var days := DayNumber(Date(year, m + 1, day));
       w == (days + 4) % 7 && t == days * 86400 + h * 3600 + mi * 60 + s
  }

  /** What a text can show, if it shows any instant. */
  lemma WhatItShows(date: string, t: nat, w: int, m: int, day: int, year: int, h: int, mi: int, s: int)
    requires InRange(t) && Shows(date, t)
    requires -1 <= w < 7 && if w == -1 then date[..3] !in WEEKDAYS else date[..3] == WEEKDAYS[w]
    requires -1 <= m < 12 && if m == -1 then date[8..11] !in MONTHS else date[8..11] == MONTHS[m]
    requires day == Value(date[5..7]) && year == Value(date[12..16])
    requires h == Value(date[17..19]) && mi == Value(date[20..22]) && s == Value(date[23..25])
    ensures Names(t, w, m, day, year, h, mi, s)
  {
    hide DateOf, Value, Fits, DayNumber;
    YearInRange(t);
    var d, v := DateOf(t / 86400), Weekday(t / 86400);
    assert WEEKDAYS[v] in WEEKDAYS && MONTHS[d.month - 1] in MONTHS;
    OneWeekday(w, v);
    OneMonth(m, d.month - 1);
  }

  lemma Clock(day: nat, h: nat, mi: nat, s: nat)
    requires h < 24 && mi < 60 && s < 60
    ensures var t := day * 86400 + h * 3600 + mi * 60 + s;
            t / 86400 == day && t % 86400 / 3600 == h && t % 86400 / 60 % 60 == mi && t % 86400 % 60 == s
  {
    var t, r := day * 86400 + h * 3600 + mi * 60 + s, h * 3600 + mi * 60 + s;
    DivIs(t, 86400, day, r);
    assert t % 86400 == r;
    DivIs(r, 3600, h, mi * 60 + s);
    DivIs(r, 60, h * 60 + mi, s);
  }

  lemma InTheseYears(d: Date)
    requires Real(d) && 2020 <= d.year <= 2099
    ensures FIRST / 86400 <= DayNumber(d) < LAST / 86400
  {
    hide DaysToYear, DaysToMonth, MonthDays, YearDays;
    WithinTheYear(d);
    Decades();
    if 2020 < d.year { YearsGoUp(2020, d.year); }
    YearsGoUp(d.year, 2100);
  }

  /** The instant the fields name, if they are in range and the weekday is right. */
  method EpochOf(weekday: int, month: int, day: int, year: int, hour: int, minute: int, second: int) returns (epoch: nat)
    requires month < 12
    ensures epoch != 0 ==> Names(epoch, weekday, month, day, year, hour, minute, second)
    ensures forall t: nat :: Names(t, weekday, month, day, year, hour, minute, second) ==> epoch == t
  {
    hide DayNumber, FormulaDays, Leap;
    if weekday < 0 || month < 0 || year < 2020 || year > 2099
       || hour < 0 || hour > 23 || minute < 0 || minute > 59 || second < 0 || second > 59 {
      return 0;
    }
    var m := month + 1;
    var monthDays := [0, 31, 28, 31, 30, 31, 30, 31, 31, 30, 31, 30, 31];
    if day < 1 || day > monthDays[m] + if m == 2 && Leap(year) then 1 else 0 { return 0; }
    var d := Date(year, m, day);
    var days := FormulaDays(d);
    FormulaCountsDays(d);
    InTheseYears(d);
    if (days + 4) % 7 != weekday { return 0; }
    epoch := days * 86400 + hour * 3600 + minute * 60 + second;
  }

  /** The seconds since 1970 of a date text, 0 for anything else: accepted are
      exactly the texts of the instants of 2020-2099. */
  method HttpDateEpoch(date: string) returns (epoch: nat)
    ensures epoch != 0 ==> InRange(epoch) && date == ImfDate(epoch)
    ensures forall t: nat :: InRange(t) && date == ImfDate(t) ==> epoch == t
  {
    hide ImfDate, Shows, DateOf, Value, InRange, DayNumber, FormulaDays, DaysToYear, DaysToMonth;
    forall t: nat | InRange(t) && date == ImfDate(t)
      ensures Fits(date) && Shows(date, t)
    {
      ImfDateShows(t);
      ShownFits(date, t);
    }
    if |date| != 29 || date[3] != ',' || date[4] != ' ' || date[7] != ' ' || date[11] != ' ' || date[16] != ' '
       || date[19] != ':' || date[22] != ':' || date[25..] != " GMT" {
      return 0;
    }
    var weekday := FindName(date, 0, WEEKDAYS);
    var month := FindName(date, 8, MONTHS);
    var day := Digits(date, 5, 2);
    var year := Digits(date, 12, 4);
    var hour := Digits(date, 17, 2);
    var minute := Digits(date, 20, 2);
    var second := Digits(date, 23, 2);
    forall t: nat | InRange(t) && date == ImfDate(t)
      ensures Names(t, weekday, month, day, year, hour, minute, second)
    {
      WhatItShows(date, t, weekday, month, day, year, hour, minute, second);
    }
    epoch := EpochOf(weekday, month, day, year, hour, minute, second);
    if epoch != 0 { Accepted(date, epoch, weekday, month, day, year, hour, minute, second); }
  }

  lemma InstantOf(d: Date, h: nat, mi: nat, s: nat)
    requires Real(d) && 2020 <= d.year <= 2099 && h < 24 && mi < 60 && s < 60
    ensures var t := DayNumber(d) * 86400 + h * 3600 + mi * 60 + s;
            && 0 <= t && InRange(t) && t / 86400 == DayNumber(d) && DateOf(t / 86400) == d
            && t % 86400 / 3600 == h && t % 86400 / 60 % 60 == mi && t % 86400 % 60 == s
  {
    hide DateOf, DayNumber;
    InTheseYears(d);
    Clock(DayNumber(d), h, mi, s);
    OneDateADay(d, DateOf(DayNumber(d)));
  }

  lemma Accepted(date: string, t: nat, w: int, m: int, day: int, year: int, h: int, mi: int, s: int)
    requires Fits(date) && Names(t, w, m, day, year, h, mi, s) && w < 7 && m < 12
    requires date[..3] == WEEKDAYS[w] && date[8..11] == MONTHS[m]
    requires day == Value(date[5..7]) && year == Value(date[12..16])
    requires h == Value(date[17..19]) && mi == Value(date[20..22]) && s == Value(date[23..25])
    ensures InRange(t) && date == ImfDate(t)
  {
    hide DateOf, DayNumber, Value, Fits, ImfDate, InRange;
    InstantOf(Date(year, m + 1, day), h, mi, s);
    hide Real;
    ShowsIsImfDate(date, t);
  }

  lemma ShownFits(date: string, t: nat)
    requires InRange(t) && Shows(date, t)
    ensures Fits(date)
  {
  }

  // ---- the printed names ----

  /** The day's name, counted from 1 January 1970, a Thursday. */
  function DayName(n: nat): string {
    var w := n % 7;
    if w == 0 then "Thu" else if w == 1 then "Fri" else if w == 2 then "Sat" else if w == 3 then "Sun"
    else if w == 4 then "Mon" else if w == 5 then "Tue" else "Wed"
  }

  function MonthName(m: nat): string {
    if m == 1 then "Jan" else if m == 2 then "Feb" else if m == 3 then "Mar" else if m == 4 then "Apr"
    else if m == 5 then "May" else if m == 6 then "Jun" else if m == 7 then "Jul" else if m == 8 then "Aug"
    else if m == 9 then "Sep" else if m == 10 then "Oct" else if m == 11 then "Nov" else "Dec"
  }

  /** The text of an instant: the words and places of an IMF-fixdate, for the date
      that has its day number and the time of day. */
  lemma DateIsPrinted(d: Date, t: nat)
    requires Real(d) && InRange(t) && DayNumber(d) == t / 86400
    ensures d.year < 10000 && d.month <= 12 && d.day < 100
    ensures ImfDate(t) ==
              Laid(DayName(t / 86400), Two(d.day), MonthName(d.month), Four(d.year),
                   Two(t % 86400 / 3600), Two(t % 86400 / 60 % 60), Two(t % 86400 % 60))
  {
    RealFits(d);
    hide DayNumber, DateOf, Two, Four, ImfDate, Real, Laid, DayName, MonthName, Weekday;
    OneDateADay(DateOf(t / 86400), d);
    YearInRange(t);
    NamesAreThese(t / 86400, d.month);
    ImfDateIsLaid(t);
  }

  lemma RealFits(d: Date)
    requires Real(d)
    ensures 1 <= d.month <= 12 && 1 <= d.day <= 31
  {
  }

  lemma NamesAreThese(n: nat, m: nat)
    requires 1 <= m <= 12
    ensures WEEKDAYS[Weekday(n)] == DayName(n) && MONTHS[m - 1] == MonthName(m)
  {
  }

  lemma MonthIsReal(d: Date)
    requires Real(d)
    ensures 1 <= d.month <= 12
  {
  }

  lemma TimeOfDay(h: nat, mi: nat, s: nat)
    requires h < 24 && mi < 60 && s < 60
    ensures var t := h * 3600 + mi * 60 + s; t / 3600 == h && t / 60 % 60 == mi && t % 60 == s
  {
    assert (h * 3600 + mi * 60 + s) / 60 == h * 60 + mi;
  }

  lemma FirstDay()
    ensures Real(Date(2020, 1, 1)) && DayNumber(Date(2020, 1, 1)) == 18262
  {
    Decades();
    hide DaysToYear;
  }

  lemma FirstDigits()
    ensures Two(1) == "01" && Two(0) == "00" && Four(2020) == "2020"
  {
    assert Two(20) == "20";
  }

  lemma FirstLaid()
    ensures Laid(DayName(18262), Two(1), MonthName(1), Four(2020), Two(0), Two(0), Two(0)) == "Wed, 01 Jan 2020 00:00:00 GMT"
  {
    FirstDigits();
    hide Two, Four;
    assert DayName(18262) == "Wed" && MonthName(1) == "Jan";
  }

  lemma FirstFields()
    ensures InRange(1577836800)
    ensures ImfDate(1577836800) == Laid(DayName(18262), Two(1), MonthName(1), Four(2020), Two(0), Two(0), Two(0))
  {
    hide DayNumber, ImfDate, Real, Two, Four, Laid, DayName, MonthName;
    FirstDay();
    DateIsPrinted(Date(2020, 1, 1), 1577836800);
  }

  /** The first instant accepted, letter for letter. */
  lemma FirstText()
    ensures InRange(1577836800) && ImfDate(1577836800) == "Wed, 01 Jan 2020 00:00:00 GMT"
  {
    hide ImfDate, Laid, Two, Four, DayName, MonthName;
    FirstFields();
    FirstLaid();
  }
}
