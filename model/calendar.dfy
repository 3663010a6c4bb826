/** Calendar dates as JavaScript's `Date` treats them: `new Date(y, m, d)`
    with overflowing months and days, and `new Date("YYYY-MM-DD")` for the
    ISO date strings the reports carry. A date is compared through the key
    `year * 10000 + month * 100 + day`, which orders dates like their time
    values. */
module Calendar {
  import opened Wrappers
  import opened JsText

  datatype Date = Date(year: int, month: int, day: int)

  predicate IsLeap(y: int)
  {
    (y % 4 == 0 && y % 100 != 0) || y % 400 == 0
  }

  function DaysIn(y: int, m: int): (n: int)
    requires 1 <= m <= 12
    ensures 28 <= n <= 31
  {
    if m == 2 then (if IsLeap(y) then 29 else 28)
    else if m == 4 || m == 6 || m == 9 || m == 11 then 30
    else 31
  }

  predicate ValidDate(d: Date)
  {
    1 <= d.month <= 12 && 1 <= d.day <= DaysIn(d.year, d.month)
  }

  function DayKey(d: Date): int
  {
    d.year * 10000 + d.month * 100 + d.day
  }

  /** The key orders valid dates by year, then month, then day. */
  lemma DayKeyOrder(a: Date, b: Date)
    requires ValidDate(a) && ValidDate(b)
    ensures DayKey(a) < DayKey(b) <==>
      a.year < b.year || (a.year == b.year && (a.month < b.month || (a.month == b.month && a.day < b.day)))
    ensures DayKey(a) == DayKey(b) <==> a == b
  {
    var ka, kb := a.month * 100 + a.day, b.month * 100 + b.day;
    assert 101 <= ka <= 1231 && 101 <= kb <= 1231;
    if a.year < b.year {
      assert a.year * 10000 + 10000 <= b.year * 10000;
    } else if a.year > b.year {
      assert b.year * 10000 + 10000 <= a.year * 10000;
    }
  }

  /** Day overflow as `Date` resolves it: day 0 is the last day of the
      previous month, day 32 of January is the 1st of February. */
  function NormalizeDay(y: int, m: int, d: int): (r: Date)
    requires 1 <= m <= 12
    ensures ValidDate(r)
    decreases if d < 1 then 1 else 0, if d < 1 then -d else d
  {
    if d < 1 then
      var py, pm := if m == 1 then y - 1 else y, if m == 1 then 12 else m - 1;
      NormalizeDay(py, pm, d + DaysIn(py, pm))
    else if d > DaysIn(y, m) then
      var ny, nm := if m == 12 then y + 1 else y, if m == 12 then 1 else m + 1;
      NormalizeDay(ny, nm, d - DaysIn(y, m))
    else Date(y, m, d)
  }

  /** `new Date(year, monthIndex, day)`: two-digit years count from 1900,
      then month and day overflow carry into the year and month. */
  function Construct(year: int, monthIndex: int, day: int): (r: Date)
    ensures ValidDate(r)
  {
    var y := if 0 <= year <= 99 then 1900 + year else year;
    NormalizeDay(y + monthIndex / 12, monthIndex % 12 + 1, day)
  }

  /** A date already in range is left as it is. */
  lemma ConstructValid(year: int, monthIndex: int, day: int)
    requires year < 0 || year > 99
    requires 0 <= monthIndex < 12 && 1 <= day <= DaysIn(year, monthIndex + 1)
    ensures Construct(year, monthIndex, day) == Date(year, monthIndex + 1, day)
  {
  }

  /** The 31st of February 2023 is the 3rd of March. */
  lemma ConstructOverflowExample()
    ensures Construct(2023, 1, 31) == Date(2023, 3, 3)
  {
    assert DaysIn(2023, 2) == 28;
  }

  /** The shape matched by `/^(\d{4})-(\d{2})-(\d{2})$/`. */
  predicate IsIsoShape(s: string)
  {
    |s| == 10 && AllDigits(s[0..4]) && s[4] == '-' && AllDigits(s[5..7]) && s[7] == '-' && AllDigits(s[8..10])
  }

  function IsoYear(s: string): nat
    requires IsIsoShape(s)
  {
    DigitsValue(s[0..4])
  }

  function IsoMonth(s: string): nat
    requires IsIsoShape(s)
  {
    DigitsValue(s[5..7])
  }

  function IsoDay(s: string): nat
    requires IsIsoShape(s)
  {
    DigitsValue(s[8..10])
  }

  /** The time order of `new Date(s)`: a key when `s` is an ISO date of a
      real calendar day, `None` when the parse gives NaN or a value the
      language leaves to the implementation. */
  function IsoDateKey(s: string): Option<int>
  {
    if IsIsoShape(s) && ValidDate(Date(IsoYear(s), IsoMonth(s), IsoDay(s))) then
      Some(DayKey(Date(IsoYear(s), IsoMonth(s), IsoDay(s))))
    else None
  }

  /** `${y}-${pad2(m)}-${pad2(d)}` */
  function IsoString(y: int, m: int, d: int): string
  {
    IntToString(y) + "-" + Pad2(IntToString(m)) + "-" + Pad2(IntToString(d))
  }

  /** Writing a four-digit-year date and reading it back gives the same date. */
  lemma IsoRoundTrip(y: int, m: int, d: int)
    requires 1000 <= y <= 9999 && 0 <= m < 100 && 0 <= d < 100
    ensures IsIsoShape(IsoString(y, m, d))
    ensures IsoYear(IsoString(y, m, d)) == y
    ensures IsoMonth(IsoString(y, m, d)) == m
    ensures IsoDay(IsoString(y, m, d)) == d
  {
    var s := IsoString(y, m, d);
    NatToStringDigits(y);
    Pad2Digits(m);
    Pad2Digits(d);
    var ys, ms, ds := NatToString(y), Pad2(NatToString(m)), Pad2(NatToString(d));
    assert s == ys + "-" + ms + "-" + ds;
    IsoLayout(ys, ms, ds);
  }

  /** Where the three fields sit in `a-b-c`. */
  lemma IsoLayout(a: string, b: string, c: string)
    requires |a| == 4 && |b| == 2 && |c| == 2
    ensures var s := a + "-" + b + "-" + c;
      |s| == 10 && s[0..4] == a && s[4] == '-' && s[5..7] == b && s[7] == '-' && s[8..10] == c
  {
  }

  /** The ISO string of a real date sorts by its key. */
  lemma IsoDateKeyOf(y: int, m: int, d: int)
    requires 1000 <= y <= 9999 && ValidDate(Date(y, m, d))
    ensures IsoDateKey(IsoString(y, m, d)) == Some(DayKey(Date(y, m, d)))
  {
    IsoRoundTrip(y, m, d);
  }
}
