/**
 * The dates a UPS reports (manufacture, last and next battery replacement),
 * read with the subset of `strptime` the exporter uses: `%m/%d/%Y` and
 * `%m/%d/%y`, Gregorian calendar validity, and the two-digit-year pivot
 * (00-68 are 20xx, 69-99 are 19xx).
 */
module Dates {
  import opened Wrappers
  import opened Text
  import opened Numbers

  datatype Date = Date(year: int, month: int, day: int)

  predicate IsLeapYear(y: int) {
    y % 4 == 0 && (y % 100 != 0 || y % 400 == 0)
  }

  function DaysInMonth(y: int, m: int): int
    requires 1 <= m <= 12
  {
    if m == 2 then (if IsLeapYear(y) then 29 else 28)
    else if m == 4 || m == 6 || m == 9 || m == 11 then 30
    else 31
  }

  /** A date `datetime.date` accepts after a four- or two-digit year has been read. */
  predicate ValidDate(d: Date) {
    && 1 <= d.year <= 9999
    && 1 <= d.month <= 12
    && 1 <= d.day <= DaysInMonth(d.year, d.month)
  }

  predicate IsNonZeroDigit(c: char) { '1' <= c <= '9' }

  /** The text `%m` matches in full: `1`-`9`, `01`-`09` or `10`-`12`. */
  function MonthToken(s: string): (m: Option<int>)
    ensures m.Some? ==> 1 <= m.value <= 12
  {
    if |s| == 1 && IsNonZeroDigit(s[0]) then Some(DigitValue(s[0]))
    else if |s| == 2 && s[0] == '0' && IsNonZeroDigit(s[1]) then Some(DigitValue(s[1]))
    else if |s| == 2 && s[0] == '1' && '0' <= s[1] <= '2' then Some(10 + DigitValue(s[1]))
    else None
  }

  /** The text `%d` matches in full: `1`-`9`, `01`-`09`, `10`-`29`, `30`, `31`, or a space and `1`-`9`. */
  function DayToken(s: string): (d: Option<int>)
    ensures d.Some? ==> 1 <= d.value <= 31
  {
    if |s| == 1 && IsNonZeroDigit(s[0]) then Some(DigitValue(s[0]))
    else if |s| == 2 && (s[0] == '0' || s[0] == ' ') && IsNonZeroDigit(s[1]) then Some(DigitValue(s[1]))
    else if |s| == 2 && (s[0] == '1' || s[0] == '2') && IsDigit(s[1]) then Some(10 * DigitValue(s[0]) + DigitValue(s[1]))
    else if |s| == 2 && s[0] == '3' && (s[1] == '0' || s[1] == '1') then Some(30 + DigitValue(s[1]))
    else None
  }

  lemma RunValueBound(s: string)
    requires AllDigits(s)
    ensures RunValue(s) < Pow10(|s|)
    decreases |s|
  {
    if |s| > 0 {
      RunValueBound(s[..|s| - 1]);
    }
  }

  /** `%Y`: exactly four digits. */
  function LongYear(s: string): (y: Option<int>)
    ensures y.Some? ==> 0 <= y.value <= 9999
  {
    if |s| == 4 && AllDigits(s) then RunValueBound(s); Some(RunValue(s)) else None
  }

  /** `%y`: exactly two digits, 00-68 read as 2000-2068 and 69-99 as 1969-1999. */
  function ShortYear(s: string): (y: Option<int>)
    ensures y.Some? ==> 1969 <= y.value <= 2068
  {
    if |s| == 2 && AllDigits(s) then
      RunValueBound(s);
      var v := RunValue(s);
      Some(if v <= 68 then 2000 + v else 1900 + v)
    else None
  }

  /** The date the three `/`-separated fields of a text denote, if they form one. */
  function FromFields(parts: seq<string>, longYear: bool): (r: Option<Date>)
    ensures r.Some? ==> ValidDate(r.value)
  {
    if |parts| != 3 then None
    else
      var m := MonthToken(parts[0]);
      var d := DayToken(parts[1]);
      var y := if longYear then LongYear(parts[2]) else ShortYear(parts[2]);
      if m.None? || d.None? || y.None? then None
      else
        var date := Date(y.value, m.value, d.value);
        if ValidDate(date) then Some(date) else None
  }

  /** `strptime(s, '%m/%d/%Y')` (`longYear`) or `strptime(s, '%m/%d/%y')`; `None` where it raises `ValueError`. */
  function Strptime(s: string, longYear: bool): (r: Option<Date>)
    ensures r.Some? ==> ValidDate(r.value)
  {
    FromFields(Split(s, '/'), longYear)
  }

  /**
   * How `fetch_ups` reads a reported date: `%m/%d/%Y` when the text is longer
   * than 8 characters, `%m/%d/%y` otherwise; with `retryLongYear` (the
   * manufacture date only) a failure is retried as `%m/%d/%Y`.  A date that
   * cannot be read is `None`; it never fails the cycle.
   */
  function ParseDate(s: string, retryLongYear: bool): (r: Option<Date>)
    ensures r.Some? ==> ValidDate(r.value)
  {
    var first := Strptime(s, |s| > 8);
    if first.Some? then first
    else if retryLongYear then Strptime(s, true)
    else None
  }

  /** `MM/DD/YYYY`, as most devices report a date. */
  function FormatLong(d: Date): (s: string)
    requires ValidDate(d)
    ensures |s| == 10
  {
    Pad2(d.month) + "/" + Pad2(d.day) + "/" + Pad4(d.year)
  }

  /** `MM/DD/YY`, for the years the two-digit pivot can express. */
  function FormatShort(d: Date): (s: string)
    requires ValidDate(d) && 1969 <= d.year <= 2068
    ensures |s| == 8
  {
    Pad2(d.month) + "/" + Pad2(d.day) + "/" + Pad2(d.year % 100)
  }

  lemma {:induction false} SplitThree(a: string, b: string, c: string)
    requires '/' !in a && '/' !in b && '/' !in c
    ensures Split(a + "/" + b + "/" + c, '/') == [a, b, c]
  {
    assert Join("/", [a, b, c]) == a + "/" + b + "/" + c by {
      assert [a, b, c][1..] == [b, c];
      assert [b, c][1..] == [c];
      assert Join("/", [b, c]) == b + "/" + c;
    }
    SplitJoin([a, b, c], '/');
  }

  lemma Pad2Tokens(n: nat)
    requires 1 <= n <= 31
    ensures n <= 12 ==> MonthToken(Pad2(n)) == Some(n)
    ensures DayToken(Pad2(n)) == Some(n)
    ensures '/' !in Pad2(n)
  {
  }

  /** Every valid date survives a write as `MM/DD/YYYY` and a read back, with or without the retry. */
  lemma LongFormatRoundTrip(d: Date, retryLongYear: bool)
    requires ValidDate(d)
    ensures ParseDate(FormatLong(d), retryLongYear) == Some(d)
  {
    Pad2Tokens(d.month);
    Pad2Tokens(d.day);
    RunValueOfPad4(d.year);
    SplitThree(Pad2(d.month), Pad2(d.day), Pad4(d.year));
  }

  /** Every valid date from 1969 to 2068 survives a write as `MM/DD/YY` and a read back. */
  lemma ShortFormatRoundTrip(d: Date, retryLongYear: bool)
    requires ValidDate(d) && 1969 <= d.year <= 2068
    ensures ParseDate(FormatShort(d), retryLongYear) == Some(d)
  {
    Pad2Tokens(d.month);
    Pad2Tokens(d.day);
    RunValueOfPad2(d.year % 100);
    SplitThree(Pad2(d.month), Pad2(d.day), Pad2(d.year % 100));
  }

  /**
   * The manufacture date's retry changes the outcome only for text of at most
   * 8 characters that fails as `%m/%d/%y` and is then read as `%m/%d/%Y`.
   */
  lemma RetryOnlyRescuesShortText(s: string)
    ensures ParseDate(s, true) != ParseDate(s, false) ==>
      |s| <= 8 && ParseDate(s, false) == None && ParseDate(s, true) == Strptime(s, true) != None
  {
  }

  /** A text read as a long-year date puts its four year digits last. */
  lemma {:induction false} LongYearDigitsLast(s: string)
    requires Strptime(s, true).Some?
    ensures |s| >= 8 && AllDigits(s[|s| - 4..]) && s[|s| - 5] == '/'
    ensures RunValue(s[|s| - 4..]) == Strptime(s, true).value.year
  {
    var parts := Split(s, '/');
    JoinSplit(s, '/');
    assert parts[1..] == [parts[1], parts[2]];
    assert [parts[1], parts[2]][1..] == [parts[2]];
    assert Join("/", parts[1..]) == parts[1] + "/" + parts[2];
    assert s == Join("/", parts) == parts[0] + "/" + (parts[1] + "/" + parts[2]);
    assert s[|s| - 4..] == parts[2];
  }

  lemma ExampleLongDate()
    ensures ParseDate("05/16/2027", false) == Some(Date(2027, 5, 16))
  {
    LongFormatRoundTrip(Date(2027, 5, 16), false);
    assert FormatLong(Date(2027, 5, 16)) == "05/16/2027";
  }

  lemma ExampleShortDate()
    ensures ParseDate("03/07/22", false) == Some(Date(2022, 3, 7))
  {
    ShortFormatRoundTrip(Date(2022, 3, 7), false);
    assert FormatShort(Date(2022, 3, 7)) == "03/07/22";
  }

  lemma FieldsOfRetry()
    ensures Split("3/7/2022", '/') == ["3", "7", "2022"]
  {
    SplitThree("3", "7", "2022");
    assert "3/7/2022" == "3" + "/" + "7" + "/" + "2022";
  }

  lemma YearsOf2022()
    ensures LongYear("2022") == Some(2022) && ShortYear("2022") == None
  {
    assert RunValue("2022") == 2022 by {
      assert "2022"[..3] == "202" && "202"[..2] == "20" && "20"[..1] == "2" && "2"[..0] == "";
    }
  }

  lemma FieldsOfRetryDate()
    ensures FromFields(["3", "7", "2022"], true) == Some(Date(2022, 3, 7))
    ensures FromFields(["3", "7", "2022"], false) == None
  {
    YearsOf2022();
    assert MonthToken("3") == Some(3) && DayToken("7") == Some(7);
  }

  /** `"3/7/2022"` is 8 characters long: only the manufacture date's retry reads it. */
  lemma ExampleRetry()
    ensures ParseDate("3/7/2022", true) == Some(Date(2022, 3, 7))
    ensures ParseDate("3/7/2022", false) == None
  {
    FieldsOfRetry();
    FieldsOfRetryDate();
    assert |"3/7/2022"| == 8;
  }

  lemma ExampleBadMonth()
    ensures ParseDate("13/99/2020", true) == None
  {
    var s := "13/99/2020";
    SplitThree("13", "99", "2020");
    assert s == "13" + "/" + "99" + "/" + "2020";
    assert MonthToken("13") == None;
  }

  lemma FieldsOfNoLeapDay()
    ensures Split("02/29/2023", '/') == ["02", "29", "2023"]
  {
    SplitThree("02", "29", "2023");
    assert "02/29/2023" == "02" + "/" + "29" + "/" + "2023";
  }

  lemma YearOf2023()
    ensures LongYear("2023") == Some(2023)
  {
    assert RunValue("2023") == 2023 by {
      assert "2023"[..3] == "202" && "202"[..2] == "20" && "20"[..1] == "2" && "2"[..0] == "";
    }
  }

  lemma FieldsOfNoLeapDayDate()
    ensures FromFields(["02", "29", "2023"], true) == None
  {
    YearOf2023();
    assert MonthToken("02") == Some(2) && DayToken("29") == Some(29);
    assert !ValidDate(Date(2023, 2, 29));
  }

  /** 2023 is not a leap year. */
  lemma ExampleNoLeapDay()
    ensures ParseDate("02/29/2023", true) == None
  {
    FieldsOfNoLeapDay();
    FieldsOfNoLeapDayDate();
    assert |"02/29/2023"| == 10;
  }
}
