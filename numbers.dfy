/**
 * Python's `int(str)` and `float(str)` on decimal text, and the decimal
 * rendering of integers.  Both parsers strip surrounding white space, accept
 * one sign and digit runs in which single underscores may separate digits.
 */
module Numbers {
  import opened Wrappers
  import opened Text

  predicate IsDigit(c: char) { '0' <= c <= '9' }

  function DigitValue(c: char): nat
    requires IsDigit(c)
  {
    (c as int) - ('0' as int)
  }

  function DigitChar(d: nat): (c: char)
    requires d < 10
    ensures IsDigit(c) && DigitValue(c) == d
  {
    ('0' as int + d) as char
  }

  predicate AllDigits(s: string) {
    forall i :: 0 <= i < |s| ==> IsDigit(s[i])
  }

  /** Digits, possibly with single underscores between two digits: `1_000` but not `_1`, `1_` or `1__0`. */
  predicate IsDigitRun(s: string) {
    && |s| > 0 && IsDigit(s[0]) && IsDigit(s[|s| - 1])
    && (forall i :: 0 <= i < |s| ==> IsDigit(s[i]) || s[i] == '_')
    && (forall i :: 0 < i < |s| && s[i] == '_' ==> s[i - 1] != '_')
  }

  /** The value of the digits of `s`, underscores skipped. */
  function RunValue(s: string): nat
    decreases |s|
  {
    if |s| == 0 then 0
    else if IsDigit(s[|s| - 1]) then RunValue(s[..|s| - 1]) * 10 + DigitValue(s[|s| - 1])
    else RunValue(s[..|s| - 1])
  }

  /** The number of digits of `s`, underscores skipped. */
  function DigitCount(s: string): nat
    decreases |s|
  {
    if |s| == 0 then 0
    else if IsDigit(s[|s| - 1]) then DigitCount(s[..|s| - 1]) + 1
    else DigitCount(s[..|s| - 1])
  }

  function Pow10(n: nat): (p: nat)
    ensures p >= 1
  {
    if n == 0 then 1 else 10 * Pow10(n - 1)
  }

  /** The value of the digits after a decimal point: `25` stands for 0.25. */
  function FractionValue(fraction: string): real {
    RunValue(fraction) as real / Pow10(DigitCount(fraction)) as real
  }

  /** The optional leading sign: whether it is `-`, and the text after it. */
  function SplitSign(t: string): (bool, string) {
    if |t| > 0 && t[0] == '-' then (true, t[1..])
    else if |t| > 0 && t[0] == '+' then (false, t[1..])
    else (false, t)
  }

  /** `int(s)`; `None` where Python raises `ValueError`. */
  function ParseInt(s: string): Option<int> {
    var (negative, body) := SplitSign(StripSpace(s));
    var magnitude: int := RunValue(body);
    if IsDigitRun(body) then Some(if negative then -magnitude else magnitude) else None
  }

  /** The unsigned magnitude accepted by `float()`: `digits`, `digits.`, `.digits` or `digits.digits`. */
  function Magnitude(body: string): Option<real> {
    var parts := Split(body, '.');
    if |parts| == 1 then
      if IsDigitRun(body) then Some(RunValue(body) as real) else None
    else if |parts| == 2 then
      var (whole, fraction) := (parts[0], parts[1]);
      if (whole != "" || fraction != "") && (whole == "" || IsDigitRun(whole)) && (fraction == "" || IsDigitRun(fraction))
      then Some(RunValue(whole) as real + FractionValue(fraction))
      else None
    else None
  }

  /** `float(s)` on decimal text; `None` where Python raises `ValueError`. */
  function ParseFloat(s: string): Option<real> {
    var (negative, body) := SplitSign(StripSpace(s));
    match Magnitude(body)
    case None => None
    case Some(m) => Some(if negative then -m else m)
  }

  /** Python's `str(n)` for a natural number. */
  function ShowNat(n: nat): (s: string)
    ensures |s| > 0 && AllDigits(s)
  {
    if n < 10 then [DigitChar(n)] else ShowNat(n / 10) + [DigitChar(n % 10)]
  }

  /** Python's `str(n)` (and `f'{n}'`) for an integer. */
  function ShowInt(n: int): (s: string)
    ensures |s| > 0 && s[|s| - 1] != '-' && !IsSpace(s[0]) && !IsSpace(s[|s| - 1])
  {
    if n < 0 then "-" + ShowNat(-n) else ShowNat(n)
  }

  /** Two digits, zero-padded, as `%02d` prints a number below 100. */
  function Pad2(n: nat): (s: string)
    requires n < 100
    ensures |s| == 2 && AllDigits(s)
  {
    [DigitChar(n / 10), DigitChar(n % 10)]
  }

  /** Four digits, zero-padded, as `%04d` prints a number below 10000. */
  function Pad4(n: nat): (s: string)
    requires n < 10000
    ensures |s| == 4 && AllDigits(s)
  {
    [DigitChar(n / 1000), DigitChar(n / 100 % 10), DigitChar(n / 10 % 10), DigitChar(n % 10)]
  }

  lemma AllDigitsIsRun(s: string)
    requires |s| > 0 && AllDigits(s)
    ensures IsDigitRun(s)
  {
  }

  lemma {:induction false} RunValueOfShowNat(n: nat)
    ensures RunValue(ShowNat(n)) == n
  {
    if n >= 10 {
      var s := ShowNat(n);
      assert s[..|s| - 1] == ShowNat(n / 10);
      RunValueOfShowNat(n / 10);
    }
  }

  lemma RunValueOfPad2(n: nat)
    requires n < 100
    ensures RunValue(Pad2(n)) == n
  {
    var s := Pad2(n);
    assert s[..1][..0] == [];
    assert s[..1] == [DigitChar(n / 10)];
    assert RunValue(s[..1]) == n / 10;
    assert RunValue(s) == (n / 10) * 10 + n % 10;
  }

  lemma RunValueOfPad4(n: nat)
    requires n < 10000
    ensures RunValue(Pad4(n)) == n
  {
    RunValueOfFourDigits(n / 1000, n / 100 % 10, n / 10 % 10, n % 10);
    assert n / 1000 * 10 + n / 100 % 10 == n / 100;
    assert n / 100 * 10 + n / 10 % 10 == n / 10;
  }

  lemma RunValueOfFourDigits(a: nat, b: nat, c: nat, d: nat)
    requires a < 10 && b < 10 && c < 10 && d < 10
    ensures RunValue([DigitChar(a), DigitChar(b), DigitChar(c), DigitChar(d)]) == ((a * 10 + b) * 10 + c) * 10 + d
  {
    var (w, x, y, z) := (DigitChar(a), DigitChar(b), DigitChar(c), DigitChar(d));
    assert [w][..0] == [];
    assert RunValue([w]) == a;
    assert [w, x][..1] == [w];
    assert RunValue([w, x]) == a * 10 + b;
    assert [w, x, y][..2] == [w, x];
    assert RunValue([w, x, y]) == (a * 10 + b) * 10 + c;
    assert [w, x, y, z][..3] == [w, x, y];
  }

  /** `int()` reads back what `str()` writes. */
  lemma ParseShowInt(n: int)
    ensures ParseInt(ShowInt(n)) == Some(n)
  {
    if n < 0 {
      ParseShowNegative(ShowInt(n), -n);
    } else {
      ParseIntOfDigits(ShowNat(n));
      RunValueOfShowNat(n);
    }
  }

  /** `int(str(n)) == n` for every integer at once. */
  lemma ShownIntegersParse()
    ensures forall n: int :: ParseInt(ShowInt(n)) == Some(n)
  {
    forall n: int
      ensures ParseInt(ShowInt(n)) == Some(n)
    {
      ParseShowInt(n);
    }
  }

  lemma ParseShowNegative(s: string, m: nat)
    requires s == "-" + ShowNat(m)
    ensures ParseInt(s) == Some(-(m as int))
  {
    var body := ShowNat(m);
    NegativeTrimmed(body);
    NegativeSplits(body);
    AllDigitsIsRun(body);
    RunValueOfShowNat(m);
    ParseIntOfParts(s, true, body);
  }

  /** `int()` on text with nothing to strip, given its sign and the digit run after it. */
  lemma ParseIntOfParts(s: string, negative: bool, body: string)
    requires StripSpace(s) == s && SplitSign(s) == (negative, body) && IsDigitRun(body)
    ensures ParseInt(s) == Some(if negative then -(RunValue(body) as int) else RunValue(body))
  {
  }

  lemma NegativeTrimmed(body: string)
    requires |body| > 0 && AllDigits(body)
    ensures StripSpace("-" + body) == "-" + body
  {
    var s := "-" + body;
    DigitNotSpace(body[|body| - 1]);
    assert s[|s| - 1] == body[|body| - 1];
    StripSpaceOfTrimmed(s);
  }

  lemma NegativeSplits(body: string)
    ensures SplitSign("-" + body) == (true, body)
  {
    assert ("-" + body)[1..] == body;
  }

  lemma DigitNotSpace(c: char)
    requires IsDigit(c)
    ensures !IsSpace(c)
  {
  }

  /** `int()` reads a plain digit string as its decimal value. */
  lemma ParseIntOfDigits(s: string)
    requires |s| > 0 && AllDigits(s)
    ensures ParseInt(s) == Some(RunValue(s) as int)
  {
    DigitNotSpace(s[0]);
    DigitNotSpace(s[|s| - 1]);
    StripSpaceOfTrimmed(s);
    AllDigitsIsRun(s);
    ParseIntOfParts(s, false, s);
  }

  /** A digit run that `int()` accepts `float()` accepts with the same value. */
  lemma {:induction false} FloatAgreesWithInt(s: string)
    requires ParseInt(s).Some?
    ensures ParseFloat(s) == Some(ParseInt(s).value as real)
  {
    var body := SplitSign(StripSpace(s)).1;
    assert IsDigitRun(body);
    assert forall i :: 0 <= i < |body| ==> body[i] != '.';
    SplitWithoutSeparator(body, '.');
  }

  /** Whatever `int()` accepts `float()` reads as the same number. */
  lemma FloatWhereInt(s: string)
    ensures ParseInt(s).Some? ==> ParseFloat(s) == Some(ParseInt(s).value as real)
  {
    if ParseInt(s).Some? {
      FloatAgreesWithInt(s);
    }
  }

  /** Text that starts and ends with a digit reads with `float()` as its unsigned magnitude. */
  lemma ParseFloatUnsigned(s: string)
    requires |s| > 0 && IsDigit(s[0]) && IsDigit(s[|s| - 1])
    ensures ParseFloat(s) == Magnitude(s)
  {
    StripSpaceOfTrimmed(s);
    assert SplitSign(s) == (false, s);
  }

  lemma MagnitudeOfParts(body: string, whole: string, fraction: string)
    requires Split(body, '.') == [whole, fraction] && IsDigitRun(whole) && IsDigitRun(fraction)
    ensures Magnitude(body) == Some(RunValue(whole) as real + FractionValue(fraction))
  {
  }

  lemma MagnitudeOfDecimal(s: string, whole: string, fraction: string)
    requires s == whole + "." + fraction
    requires |whole| > 0 && AllDigits(whole) && |fraction| > 0 && AllDigits(fraction)
    ensures Magnitude(s) == Some(RunValue(whole) as real + FractionValue(fraction))
  {
    NoDot(whole);
    NoDot(fraction);
    assert s == whole + ['.'] + fraction;
    SplitAtFirstSeparator(whole, '.', fraction);
    SplitWithoutSeparator(fraction, '.');
    AllDigitsIsRun(whole);
    AllDigitsIsRun(fraction);
    MagnitudeOfParts(s, whole, fraction);
  }

  lemma NoDot(digits: string)
    requires AllDigits(digits)
    ensures '.' !in digits
  {
    forall i | 0 <= i < |digits| ensures digits[i] != '.' { assert IsDigit(digits[i]); }
  }

  /** `float()` reads `whole.fraction` as the whole digits plus the fraction digits scaled down. */
  lemma ParseFloatOfDecimal(whole: string, fraction: string)
    requires |whole| > 0 && AllDigits(whole) && |fraction| > 0 && AllDigits(fraction)
    ensures ParseFloat(whole + "." + fraction) ==
      Some(RunValue(whole) as real + FractionValue(fraction))
  {
    var s := whole + "." + fraction;
    assert s[0] == whole[0] && s[|s| - 1] == fraction[|fraction| - 1];
    ParseFloatUnsigned(s);
    MagnitudeOfDecimal(s, whole, fraction);
  }

  /** `float('')` raises. */
  lemma ParseFloatEmpty()
    ensures ParseFloat("") == None
  {
    assert StripSpace("") == "";
    assert Split("", '.') == [""];
  }

  /** `float()` reads back what `str()` writes for an integer. */
  lemma ParseFloatShowInt(n: int)
    ensures ParseFloat(ShowInt(n)) == Some(n as real)
  {
    ParseShowInt(n);
    FloatAgreesWithInt(ShowInt(n));
  }
}
