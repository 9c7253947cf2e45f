/** Calendar dates as the itinerary request's default window uses them:
    `Date.today - 7.days` and `Date#iso8601`, on the proleptic Gregorian
    calendar from year 1 on. */
module Dates {
  import opened Numbers
  import opened Strings
  import opened Values

  datatype Date = Date(year: int, month: int, day: int)

  predicate Leap(y: int) {
    (y % 4 == 0 && y % 100 != 0) || y % 400 == 0
  }

  function DaysIn(y: int, m: int): int
    requires 1 <= m <= 12
  {
    if m == 2 then (if Leap(y) then 29 else 28)
    else if m == 4 || m == 6 || m == 9 || m == 11 then 30
    else 31
  }

  predicate Valid(d: Date) {
    d.year >= 1 && 1 <= d.month <= 12 && 1 <= d.day <= DaysIn(d.year, d.month)
  }

  function YearDays(y: int): int {
    if Leap(y) then 366 else 365
  }

  function DaysBeforeYear(y: int): nat
    requires y >= 1
  {
    if y == 1 then 0 else DaysBeforeYear(y - 1) + YearDays(y - 1)
  }

  function DaysBeforeMonth(y: int, m: int): nat
    requires 1 <= m <= 12
  {
    if m == 1 then 0 else DaysBeforeMonth(y, m - 1) + DaysIn(y, m - 1)
  }

  /** The day's number, counting 0001-01-01 as day 1. */
  function Ordinal(d: Date): nat
    requires Valid(d)
  {
    DaysBeforeYear(d.year) + DaysBeforeMonth(d.year, d.month) + d.day
  }

  lemma YearEnd(y: int)
    ensures DaysBeforeMonth(y, 12) + DaysIn(y, 12) == YearDays(y)
  {
    var feb := DaysIn(y, 2);
    assert DaysBeforeMonth(y, 2) == 31;
    assert DaysBeforeMonth(y, 3) == 31 + feb;
    assert DaysBeforeMonth(y, 4) == 62 + feb;
    assert DaysBeforeMonth(y, 5) == 92 + feb;
    assert DaysBeforeMonth(y, 6) == 123 + feb;
    assert DaysBeforeMonth(y, 7) == 153 + feb;
    assert DaysBeforeMonth(y, 8) == 184 + feb;
    assert DaysBeforeMonth(y, 9) == 215 + feb;
    assert DaysBeforeMonth(y, 10) == 245 + feb;
    assert DaysBeforeMonth(y, 11) == 276 + feb;
    assert DaysBeforeMonth(y, 12) == 306 + feb;
  }

  /** The day before `d`. */
  function PrevDay(d: Date): (r: Date)
    requires Valid(d) && Ordinal(d) > 1
    ensures Valid(r) && Ordinal(r) == Ordinal(d) - 1
  {
    if d.day > 1 then Date(d.year, d.month, d.day - 1)
    else if d.month > 1 then Date(d.year, d.month - 1, DaysIn(d.year, d.month - 1))
    else
      YearEnd(d.year - 1);
      Date(d.year - 1, 12, 31)
  }

  /** `d - k.days`. */
  function MinusDays(d: Date, k: nat): (r: Date)
    requires Valid(d) && Ordinal(d) > k
    ensures Valid(r) && Ordinal(r) == Ordinal(d) - k
    decreases k
  {
    if k == 0 then d else MinusDays(PrevDay(d), k - 1)
  }

  /** Distinct dates have distinct day numbers. */
  lemma OrdinalInjective(a: Date, b: Date)
    requires Valid(a) && Valid(b) && Ordinal(a) == Ordinal(b)
    ensures a == b
  {
    if a.year < b.year {
      YearBound(a);
      LaterYear(a.year, b.year);
    } else if b.year < a.year {
      YearBound(b);
      LaterYear(b.year, a.year);
    } else if a.month < b.month {
      MonthBound(a.year, a.month, a.day);
      LaterMonth(a.year, a.month, b.month);
    } else if b.month < a.month {
      MonthBound(b.year, b.month, b.day);
      LaterMonth(b.year, b.month, a.month);
    }
  }

  lemma MonthBound(y: int, m: int, d: int)
    requires 1 <= m <= 12 && 1 <= d <= DaysIn(y, m)
    ensures DaysBeforeMonth(y, m) + d <= DaysBeforeMonth(y, m) + DaysIn(y, m)
  {
  }

  lemma {:induction false} LaterMonth(y: int, m: int, n: int)
    requires 1 <= m < n <= 12
    ensures DaysBeforeMonth(y, m) + DaysIn(y, m) <= DaysBeforeMonth(y, n)
    decreases n - m
  {
    if m + 1 < n {
      LaterMonth(y, m + 1, n);
    }
  }

  lemma YearBound(d: Date)
    requires Valid(d)
    ensures Ordinal(d) <= DaysBeforeYear(d.year) + YearDays(d.year)
  {
    if d.month < 12 {
      LaterMonth(d.year, d.month, 12);
    }
    YearEnd(d.year);
  }

  lemma {:induction false} LaterYear(y: int, z: int)
    requires 1 <= y < z
    ensures DaysBeforeYear(y) + YearDays(y) <= DaysBeforeYear(z)
    decreases z - y
  {
    if y + 1 < z {
      LaterYear(y + 1, z);
    }
  }

  /** `n` written with at least `w` digits, zero-padded on the left. */
  function Padded(n: nat, w: nat): (s: string)
    ensures AllDigits(s) && |s| >= w
  {
    var t := NatText(n);
    if |t| >= w then t else Zeros(w - |t|) + t
  }

  function Zeros(k: nat): (s: string)
    ensures |s| == k && AllDigits(s)
  {
    if k == 0 then "" else "0" + Zeros(k - 1)
  }

  /** Leading zeros do not change a number's value. */
  lemma {:induction false} ZerosValue(k: nat, t: string)
    requires AllDigits(t)
    ensures DigitsValue(Zeros(k) + t) == DigitsValue(t)
    decreases k
  {
    if k > 0 {
      var u := Zeros(k - 1) + t;
      ZerosValue(k - 1, t);
      assert AllDigits(u);
      assert Zeros(k) + t == "0" + u;
      LeadingZero(u);
      assert DigitsValue("0" + u) == DigitsValue(u);
    } else {
      assert Zeros(k) + t == t;
    }
  }

  lemma {:induction false} LeadingZero(t: string)
    requires AllDigits(t)
    ensures DigitsValue("0" + t) == DigitsValue(t)
    decreases |t|
  {
    if |t| > 0 {
      var s := "0" + t;
      assert s[..|s| - 1] == "0" + t[..|t| - 1];
      LeadingZero(t[..|t| - 1]);
    } else {
      assert DigitsValue("0") == DigitsValue("") * 10 + DigitValue('0');
    }
  }

  lemma PaddedValue(n: nat, w: nat)
    ensures DigitsValue(Padded(n, w)) == n
  {
    var t := NatText(n);
    NatTextValue(n);
    if |t| < w {
      assert Padded(n, w) == Zeros(w - |t|) + t;
      ZerosValue(w - |t|, t);
    } else {
      assert Padded(n, w) == t;
    }
  }

  /** `Date#iso8601`: `YYYY-MM-DD`, the year with at least four digits. */
  function Iso8601(d: Date): string
    requires Valid(d)
  {
    Join([Padded(d.year, 4), Padded(d.month, 2), Padded(d.day, 2)], "-")
  }

  /** Reads `YYYY-MM-DD` back: three dash-separated runs of digits. */
  function ParseIso(s: string): Option<Date> {
    var parts := SplitOn(s, '-');
    if |parts| == 3 && AllDigits(parts[0]) && AllDigits(parts[1]) && AllDigits(parts[2]) then
      Some(Date(DigitsValue(parts[0]), DigitsValue(parts[1]), DigitsValue(parts[2])))
    else None
  }

  lemma DigitsFree(s: string)
    requires AllDigits(s)
    ensures '-' !in s
  {
    assert forall i :: 0 <= i < |s| ==> s[i] != '-';
  }

  /** The ISO text of a date reads back as that date. */
  lemma IsoRoundTrip(d: Date)
    requires Valid(d)
    ensures ParseIso(Iso8601(d)) == Some(d)
  {
    var parts := [Padded(d.year, 4), Padded(d.month, 2), Padded(d.day, 2)];
    DigitsFree(parts[0]);
    DigitsFree(parts[1]);
    DigitsFree(parts[2]);
    SplitJoin(parts, '-');
    PaddedValue(d.year, 4);
    PaddedValue(d.month, 2);
    PaddedValue(d.day, 2);
  }

  /** A month and day always take exactly two digits, and a year before
      10000 exactly four, so the text is ten characters long. */
  lemma IsoLength(d: Date)
    requires Valid(d) && d.year < 10000
    ensures |Iso8601(d)| == 10
  {
    assert Pow10(2) == 100 && Pow10(4) == 10000;
    var y, m, x := Padded(d.year, 4), Padded(d.month, 2), Padded(d.day, 2);
    PaddedLength(d.year, 4);
    PaddedLength(d.month, 2);
    PaddedLength(d.day, 2);
    assert [y, m, x][1..] == [m, x];
    assert Join([m, x], "-") == m + "-" + x;
    assert Iso8601(d) == y + "-" + (m + "-" + x);
  }

  lemma PaddedLength(n: nat, w: nat)
    requires w >= 1 && n < Pow10(w)
    ensures |Padded(n, w)| == w
  {
    NatTextLength(n, w);
  }

  lemma {:induction false} NatTextLength(n: nat, w: nat)
    requires w >= 1 && n < Pow10(w)
    ensures |NatText(n)| <= w
    decreases w
  {
    if n >= 10 {
      assert w >= 2;
      NatTextLength(n / 10, w - 1);
    }
  }

  function Pow10(w: nat): nat {
    if w == 0 then 1 else 10 * Pow10(w - 1)
  }
}
