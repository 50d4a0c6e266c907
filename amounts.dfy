/**
 * Reading numbers out of sheet cells: JavaScript's `parseFloat` and the two
 * cell readers built on it, one for money amounts and one for image counts.
 * `parseFloat` results are exact `real`s here; `None` stands for `NaN`.
 */
module Amounts {
  import opened Wrappers
  import opened Text

  // ---------------------------------------------------------------------------
  // Scanning
  // ---------------------------------------------------------------------------

  /** The end of the run of decimal digits starting at `i`. */
  function DigitRunEnd(s: string, i: nat): (j: nat)
    requires i <= |s|
    ensures i <= j <= |s|
    decreases |s| - i
  {
    if i < |s| && IsDigit(s[i]) then DigitRunEnd(s, i + 1) else i
  }

  lemma {:induction false} DigitRunEndBounds(s: string, i: nat)
    requires i <= |s|
    ensures var j := DigitRunEnd(s, i);
      && i <= j <= |s|
      && AllDigits(s[i..j])
      && (j == |s| || !IsDigit(s[j]))
    decreases |s| - i
  {
    if i < |s| && IsDigit(s[i]) {
      DigitRunEndBounds(s, i + 1);
      var j := DigitRunEnd(s, i);
      assert s[i..j] == [s[i]] + s[i + 1..j];
    }
  }

  /** The digit run starting at `i` is exactly the digits `d`, when `d` is followed by a non-digit or the end. */
  lemma {:induction false} DigitRunEndOf(s: string, i: nat, d: string)
    requires i + |d| <= |s| && s[i..i + |d|] == d && AllDigits(d)
    requires i + |d| == |s| || !IsDigit(s[i + |d|])
    ensures DigitRunEnd(s, i) == i + |d|
    decreases |d|
  {
    if d != [] {
      assert s[i] == d[0];
      assert s[i + 1..i + 1 + |d[1..]|] == d[1..];
      DigitRunEndOf(s, i + 1, d[1..]);
    }
  }

  /**
   * The parts of the longest prefix that reads as a StrDecimalLiteral (section
   * 19.2.4 of ECMA-262): sign, whole digits, fraction digits, decimal exponent.
   */
  datatype Numeral = Numeral(negative: bool, whole: string, fraction: string, exponent: int)

  /** Where the sign, if any, ends: the index of the first character after it. */
  function SignEnd(t: string): nat
  {
    if |t| > 0 && (t[0] == '+' || t[0] == '-') then 1 else 0
  }

  /** After the mantissa ending at `k`: the exponent value and the end of the literal. */
  function ScanExponent(t: string, k: nat): (r: (int, nat))
    requires k <= |t|
    ensures k <= r.1 <= |t|
  {
    if k < |t| && (t[k] == 'e' || t[k] == 'E') then
      var m0 := if k + 1 < |t| && (t[k + 1] == '+' || t[k + 1] == '-') then k + 2 else k + 1;
      var m := DigitRunEnd(t, m0);
      if m > m0 then
        DigitRunEndBounds(t, m0);
        var v: int := DigitsValue(t[m0..m]);
        (if m0 == k + 2 && t[k + 1] == '-' then -v else v, m)
      else (0, k)
    else (0, k)
  }

  /**
   * The numeral at the start of `t` and the index just past it, or `None`
   * when `t` does not start with one (there is no digit before or right after
   * the decimal point).
   */
  function ScanNumeral(t: string): Option<(Numeral, nat)>
  {
    var i := SignEnd(t);
    var (whole, fraction, f) := ScanMantissa(t, i);
    if whole == [] && fraction == [] then None
    else
      var (e, end) := ScanExponent(t, f);
      Some((Numeral(i == 1 && t[0] == '-', whole, fraction, e), end))
  }

  /** From `i`: the digits before an optional point, the digits after it, and where they end. */
  function ScanMantissa(t: string, i: nat): (r: (string, string, nat))
    requires i <= |t|
    ensures i <= r.2 <= |t|
  {
    var j := DigitRunEnd(t, i);
    if j < |t| && t[j] == '.' then
      var f := DigitRunEnd(t, j + 1);
      (t[i..j], t[j + 1..f], f)
    else (t[i..j], [], j)
  }

  // ---------------------------------------------------------------------------
  // Values
  // ---------------------------------------------------------------------------

  function Pow10(e: nat): (r: nat)
    ensures r >= 1
  {
    if e == 0 then 1 else 10 * Pow10(e - 1)
  }

  /** `10` raised to an integer power. */
  function Scale(e: int): (r: real)
    ensures r > 0.0
  {
    if e >= 0 then Pow10(e) as real else 1.0 / Pow10(-e) as real
  }

  /** The value of a digit string read after a decimal point. */
  function FractionValue(d: string): (r: real)
    requires AllDigits(d)
    ensures 0.0 <= r
  {
    DigitsValue(d) as real / Pow10(|d|) as real
  }

  predicate WellFormed(n: Numeral)
  {
    AllDigits(n.whole) && AllDigits(n.fraction)
  }

  function NumeralValue(n: Numeral): real
    requires WellFormed(n)
  {
    var magnitude := (DigitsValue(n.whole) as real + FractionValue(n.fraction)) * Scale(n.exponent);
    if n.negative then -magnitude else magnitude
  }

  lemma ScanWellFormed(t: string)
    requires ScanNumeral(t).Some?
    ensures WellFormed(ScanNumeral(t).value.0)
    ensures ScanNumeral(t).value.1 <= |t|
  {
    var i := SignEnd(t);
    DigitRunEndBounds(t, i);
    var j := DigitRunEnd(t, i);
    if j < |t| && t[j] == '.' {
      DigitRunEndBounds(t, j + 1);
    }
  }

  /**
   * `parseFloat(s)`: skip leading whitespace and read the longest numeric
   * prefix; `None` (NaN) when there is none.
   */
  function ParseFloat(s: string): Option<real>
  {
    var t := TrimStart(s);
    var scan := ScanNumeral(t);
    if scan.None? then None
    else
      ScanWellFormed(t);
      Some(NumeralValue(scan.value.0))
  }

  // ---------------------------------------------------------------------------
  // Properties of parseFloat
  // ---------------------------------------------------------------------------

  /** What may start a number once the sign is read: a digit, or a point followed by a digit. */
  predicate StartsNumber(u: string)
  {
    |u| > 0 && (IsDigit(u[0]) || (u[0] == '.' && |u| > 1 && IsDigit(u[1])))
  }

  /** The scan finds nothing exactly when no number starts after the sign. */
  lemma ScanNone(t: string)
    ensures ScanNumeral(t).None? <==> !StartsNumber(t[SignEnd(t)..])
  {
    var i := SignEnd(t);
    DigitRunEndBounds(t, i);
    var j := DigitRunEnd(t, i);
    if j < |t| && t[j] == '.' {
      DigitRunEndBounds(t, j + 1);
      if j + 1 < |t| && IsDigit(t[j + 1]) {
        assert DigitRunEnd(t, j + 1) > j + 1;
      }
    }
    if i < |t| && IsDigit(t[i]) {
      assert j > i;
    }
  }

  /** `parseFloat` yields NaN exactly when no number starts after the whitespace and sign. */
  lemma ParseFloatNaN(s: string)
    ensures var t := TrimStart(s);
      ParseFloat(s).None? <==> !StartsNumber(t[SignEnd(t)..])
  {
    ScanNone(TrimStart(s));
  }

  /** A successful scan of an unpadded string is what `parseFloat` returns. */
  lemma ParseFloatOfScan(t: string, n: Numeral, end: nat)
    requires TrimStart(t) == t && ScanNumeral(t) == Some((n, end))
    ensures WellFormed(n) && ParseFloat(t) == Some(NumeralValue(n))
  {
    ScanWellFormed(t);
  }

  /** Leading whitespace does not change the result. */
  lemma ParseFloatSkipsWhitespace(w: string, s: string)
    requires forall i :: 0 <= i < |w| ==> IsJsWhitespace(w[i])
    ensures ParseFloat(w + s) == ParseFloat(s)
  {
    TrimStartAfterWhitespace(w, s);
  }

  lemma TrimStartAfterWhitespace(w: string, s: string)
    requires forall i :: 0 <= i < |w| ==> IsJsWhitespace(w[i])
    ensures TrimStart(w + s) == TrimStart(s)
  {
    SkipWhitespaceBounds(s, 0);
    SkipWhitespacePrefix(w, s, 0);
    SkipWhitespaceShift(w, s, 0);
    assert (w + s)[|w| + SkipWhitespace(s, 0)..] == s[SkipWhitespace(s, 0)..];
  }

  lemma {:induction false} SkipWhitespacePrefix(w: string, s: string, i: nat)
    requires i <= |w|
    requires forall k :: 0 <= k < |w| ==> IsJsWhitespace(w[k])
    ensures SkipWhitespace(w + s, i) == SkipWhitespace(w + s, |w|)
    decreases |w| - i
  {
    if i < |w| {
      assert (w + s)[i] == w[i];
      SkipWhitespacePrefix(w, s, i + 1);
    }
  }

  lemma {:induction false} SkipWhitespaceShift(p: string, s: string, j: nat)
    requires j <= |s|
    ensures SkipWhitespace(p + s, |p| + j) == |p| + SkipWhitespace(s, j)
    decreases |s| - j
  {
    if j < |s| {
      assert (p + s)[|p| + j] == s[j];
      SkipWhitespaceShift(p, s, j + 1);
    }
  }

  /** The value of a digit string with no point and no exponent. */
  lemma WholeValue(d: string)
    requires AllDigits(d)
    ensures WellFormed(Numeral(false, d, [], 0))
    ensures NumeralValue(Numeral(false, d, [], 0)) == DigitsValue(d) as real
  {
    assert FractionValue([]) == 0.0;
    assert Scale(0) == 1.0;
  }

  /** The value of whole and fraction digits with no exponent. */
  lemma DecimalValue(w: string, f: string)
    requires AllDigits(w) && AllDigits(f)
    ensures WellFormed(Numeral(false, w, f, 0))
    ensures NumeralValue(Numeral(false, w, f, 0)) == DigitsValue(w) as real + FractionValue(f)
  {
    assert Scale(0) == 1.0;
  }

  /** A negative numeral has the opposite value. */
  lemma NegatedValue(n: Numeral)
    requires WellFormed(n)
    ensures NumeralValue(n.(negative := true)) == if n.negative then NumeralValue(n) else -NumeralValue(n)
  {
  }

  /** The scan of a string that starts with the digits `d` and nothing that continues them. */
  lemma ScanWhole(t: string, d: string)
    requires 1 <= |d| <= |t| && t[..|d|] == d && AllDigits(d)
    requires |d| == |t| || !(IsDigit(t[|d|]) || t[|d|] == '.' || t[|d|] == 'e' || t[|d|] == 'E')
    ensures ScanNumeral(t) == Some((Numeral(false, d, [], 0), |d|))
  {
    assert t[0] == d[0];
    assert SignEnd(t) == 0;
    assert t[0..|d|] == d;
    DigitRunEndOf(t, 0, d);
  }

  /** The scan of a string that starts with the digits `w`, a point, and the digits `f`. */
  lemma ScanDecimal(t: string, w: string, f: string)
    requires |w| >= 1 && AllDigits(w) && AllDigits(f)
    requires |w| + 1 + |f| <= |t| && t[..|w|] == w && t[|w|] == '.' && t[|w| + 1..|w| + 1 + |f|] == f
    requires var k := |w| + 1 + |f|; k == |t| || !(IsDigit(t[k]) || t[k] == 'e' || t[k] == 'E')
    ensures ScanNumeral(t) == Some((Numeral(false, w, f, 0), |w| + 1 + |f|))
  {
    assert t[0] == w[0];
    assert SignEnd(t) == 0;
    assert t[0..|w|] == w;
    DigitRunEndOf(t, 0, w);
    DigitRunEndOf(t, |w| + 1, f);
  }

  /**
   * A run of digits followed by something that cannot continue a number
   * reads as the integer those digits spell.
   */
  lemma ParseFloatDigits(d: string, rest: string)
    requires |d| >= 1 && AllDigits(d)
    requires rest == [] || !(IsDigit(rest[0]) || rest[0] == '.' || rest[0] == 'e' || rest[0] == 'E')
    ensures ParseFloat(d + rest) == Some(DigitsValue(d) as real)
  {
    var t := d + rest;
    assert t[0] == d[0];
    TrimStartUnpadded(t);
    assert t[..|d|] == d;
    assert |d| < |t| ==> t[|d|] == rest[0];
    ScanWhole(t, d);
    ParseFloatOfScan(t, Numeral(false, d, [], 0), |d|);
    WholeValue(d);
  }

  /** `parseFloat(String(n)) === n` for every natural number: the round trip. */
  lemma ParseFloatNat(n: nat)
    ensures ParseFloat(NatToString(n)) == Some(n as real)
  {
    assert NatToString(n) + [] == NatToString(n);
    ParseFloatDigits(NatToString(n), []);
  }

  /** `parseFloat("0")`, the reading of an empty cell. */
  lemma ParseFloatZero()
    ensures ParseFloat("0") == Some(0.0)
  {
    ParseFloatNat(0);
    assert NatToString(0) == "0";
  }

  /** Whole digits, a point and fraction digits read as whole plus fraction. */
  lemma ParseFloatDecimal(w: string, f: string, rest: string)
    requires |w| >= 1 && AllDigits(w) && AllDigits(f)
    requires rest == [] || !(IsDigit(rest[0]) || rest[0] == 'e' || rest[0] == 'E')
    ensures ParseFloat(w + "." + f + rest) == Some(DigitsValue(w) as real + FractionValue(f))
  {
    DecimalLayout(w, f, rest);
    var t := w + "." + f + rest;
    var k := |w| + 1 + |f|;
    assert |w| + 1 + |f| <= |t| && t[..|w|] == w && t[|w|] == '.' && t[|w| + 1..|w| + 1 + |f|] == f;
    assert k == |t| || !(IsDigit(t[k]) || t[k] == 'e' || t[k] == 'E');
    assert t[0] == w[0];
    ParseFloatAtDecimal(t, w, f);
    var v := DigitsValue(w) as real + FractionValue(f);
    DecimalValue(w, f);
    assert NumeralValue(Numeral(false, w, f, 0)) == v;
    assert ParseFloat(t) == Some(v);
  }

  lemma ParseFloatAtDecimal(t: string, w: string, f: string)
    requires |w| >= 1 && AllDigits(w) && AllDigits(f)
    requires |w| + 1 + |f| <= |t| && t[..|w|] == w && t[|w|] == '.' && t[|w| + 1..|w| + 1 + |f|] == f
    requires var k := |w| + 1 + |f|; k == |t| || !(IsDigit(t[k]) || t[k] == 'e' || t[k] == 'E')
    requires t[0] == w[0]
    ensures WellFormed(Numeral(false, w, f, 0))
    ensures ParseFloat(t) == Some(NumeralValue(Numeral(false, w, f, 0)))
  {
    TrimStartUnpadded(t);
    ScanDecimal(t, w, f);
  }

  lemma DecimalLayout(w: string, f: string, rest: string)
    requires |w| >= 1
    ensures var t := w + "." + f + rest; var k := |w| + 1 + |f|;
      && k <= |t| && t[0] == w[0] && t[..|w|] == w && t[|w|] == '.' && t[|w| + 1..k] == f
      && (k < |t| ==> t[k] == rest[0])
  {
  }

  /** A minus sign negates what follows it. */
  lemma ParseFloatNegative(s: string)
    requires s == [] || (s[0] != '+' && s[0] != '-' && !IsJsWhitespace(s[0]))
    ensures ParseFloat("-" + s) == (if ParseFloat(s).Some? then Some(-ParseFloat(s).value) else None)
  {
    var t := "-" + s;
    assert t[0] == '-' && t[1..] == s;
    ParseFloatAfterMinus(t, s);
  }

  lemma ParseFloatAfterMinus(t: string, s: string)
    requires |t| >= 1 && t[0] == '-' && t[1..] == s
    requires s == [] || (s[0] != '+' && s[0] != '-' && !IsJsWhitespace(s[0]))
    ensures ParseFloat(t) == (if ParseFloat(s).Some? then Some(-ParseFloat(s).value) else None)
  {
    TrimStartUnpadded(t);
    TrimStartUnpadded(s);
    ScanNegative(t, s);
    if ScanNumeral(s).Some? {
      var (n, end) := ScanNumeral(s).value;
      assert SignEnd(s) == 0 && !n.negative;
      ParseFloatOfScan(s, n, end);
      ParseFloatOfScan(t, n.(negative := true), end + 1);
      NegatedValue(n);
    }
  }

  /** The scan after a minus sign is the scan of the rest, made negative and shifted by one. */
  lemma ScanNegative(t: string, s: string)
    requires |t| >= 1 && t[0] == '-' && t[1..] == s
    requires s == [] || (s[0] != '+' && s[0] != '-')
    ensures ScanNumeral(s).None? ==> ScanNumeral(t).None?
    ensures ScanNumeral(s).Some? ==>
      ScanNumeral(t) == Some((ScanNumeral(s).value.0.(negative := true), ScanNumeral(s).value.1 + 1))
  {
    assert SignEnd(t) == 1;
    assert SignEnd(s) == 0;
    MantissaShift(t, s, 0);
    var (w, f, k) := ScanMantissa(s, 0);
    assert ScanMantissa(t, 1) == (w, f, k + 1);
    ExponentShift(t, s, k);
    var (e, end) := ScanExponent(s, k);
    assert ScanExponent(t, k + 1) == (e, end + 1);
    assert ScanNumeral(s) == if w == [] && f == [] then None else Some((Numeral(false, w, f, e), end));
  }

  /** The mantissa scan after a one-character prefix is the shifted scan of the rest. */
  lemma MantissaShift(t: string, s: string, i: nat)
    requires |t| >= 1 && t[1..] == s && i <= |s|
    ensures var (w, f, k) := ScanMantissa(s, i); ScanMantissa(t, i + 1) == (w, f, k + 1)
  {
    DigitRunShift(t, s, i);
    var j := DigitRunEnd(s, i);
    SliceShift(t, s, i, j);
    assert j < |s| ==> t[j + 1] == s[j];
    if j < |s| && s[j] == '.' {
      DigitRunShift(t, s, j + 1);
      SliceShift(t, s, j + 1, DigitRunEnd(s, j + 1));
    }
  }

  lemma SliceShift(t: string, s: string, a: nat, b: nat)
    requires |t| >= 1 && t[1..] == s && a <= b <= |s|
    ensures t[a + 1..b + 1] == s[a..b]
  {
    forall i | 0 <= i < b - a
      ensures t[a + 1..b + 1][i] == s[a..b][i]
    {
      assert t[a + 1 + i] == s[a + i];
    }
  }

  /** The exponent scan after a one-character prefix is the shifted scan of the rest. */
  lemma ExponentShift(t: string, s: string, k: nat)
    requires |t| >= 1 && t[1..] == s && k <= |s|
    ensures ScanExponent(t, k + 1) == (ScanExponent(s, k).0, ScanExponent(s, k).1 + 1)
  {
    if k < |s| && (s[k] == 'e' || s[k] == 'E') {
      assert t[k + 1] == s[k];
      var m0 := if k + 1 < |s| && (s[k + 1] == '+' || s[k + 1] == '-') then k + 2 else k + 1;
      assert k + 1 < |s| ==> t[k + 2] == s[k + 1];
      DigitRunShift(t, s, m0);
      var m := DigitRunEnd(s, m0);
      SliceShift(t, s, m0, m);
    }
  }

  /** Scanning digits after a one-character prefix is scanning the rest, shifted by one. */
  lemma {:induction false} DigitRunShift(t: string, s: string, i: nat)
    requires |t| >= 1 && t[1..] == s && i <= |s|
    ensures DigitRunEnd(t, i + 1) == DigitRunEnd(s, i) + 1
    decreases |s| - i
  {
    if i < |s| {
      assert t[i + 1] == s[i];
      if IsDigit(s[i]) {
        DigitRunShift(t, s, i + 1);
      }
    }
  }

  // ---------------------------------------------------------------------------
  // Cell readers
  // ---------------------------------------------------------------------------

  /** `s.replace(/[$,]/g, "")`: every dollar sign and comma removed. */
  function StripCurrency(s: string): (r: string)
    ensures |r| <= |s|
    ensures forall c :: c in r <==> c in s && c != '$' && c != ','
  {
    if s == [] then []
    else if s[0] == '$' || s[0] == ',' then StripCurrency(s[1..])
    else
      var rest := StripCurrency(s[1..]);
      assert forall c :: c in s <==> c == s[0] || c in s[1..];
      [s[0]] + rest
  }

  lemma {:induction false} StripCurrencyConcat(a: string, b: string)
    ensures StripCurrency(a + b) == StripCurrency(a) + StripCurrency(b)
  {
    if a == [] {
      assert a + b == b;
    } else {
      assert (a + b)[0] == a[0] && (a + b)[1..] == a[1..] + b;
      StripCurrencyConcat(a[1..], b);
    }
  }

  /** A string without dollar signs or commas is left as it is. */
  lemma {:induction false} StripCurrencyPlain(s: string)
    requires '$' !in s && ',' !in s
    ensures StripCurrency(s) == s
  {
    if s != [] {
      assert s[0] in s;
      assert forall c :: c in s[1..] ==> c in s;
      StripCurrencyPlain(s[1..]);
    }
  }

  /** Stripping twice is stripping once. */
  lemma StripCurrencyIdempotent(s: string)
    ensures StripCurrency(StripCurrency(s)) == StripCurrency(s)
  {
    StripCurrencyPlain(StripCurrency(s));
  }

  /**
   * An amount cell: `parseFloat((raw || "0").replace(/[$,]/g, "")) || 0`.
   * A missing or empty cell counts 0 and so does an unreadable one, so the
   * result is always a number.
   */
  function ParseAmount(raw: string): (r: real)
    ensures raw == "" ==> r == 0.0
    ensures raw != "" && ParseFloat(StripCurrency(raw)).None? ==> r == 0.0
    ensures raw != "" && ParseFloat(StripCurrency(raw)).Some? ==> r == ParseFloat(StripCurrency(raw)).value
  {
    // An empty cell is read as "0", which parses to 0 (EmptyCellReadsAsZero).
    if raw == "" then 0.0
    else
      match ParseFloat(StripCurrency(raw))
      case None => 0.0
      case Some(v) => v
  }

  /** The image-count cell: `parseFloat(raw || "0")`, with no currency stripping; `None` is NaN. */
  function ParseImages(raw: string): (r: Option<real>)
    ensures raw == "" ==> r == Some(0.0)
    ensures raw != "" ==> r == ParseFloat(raw)
  {
    // An empty cell is read as "0", which parses to 0 (EmptyCellReadsAsZero).
    if raw == "" then Some(0.0) else ParseFloat(raw)
  }

  /** The empty-cell default "0" reads as 0, with or without currency stripping. */
  lemma EmptyCellReadsAsZero()
    ensures ParseFloat("0") == Some(0.0)
    ensures ParseFloat(StripCurrency("0")) == Some(0.0)
  {
    ParseFloatZero();
    StripZero();
  }

  lemma StripZero()
    ensures StripCurrency("0") == "0"
  {
    StripCurrencyPlain("0");
  }

  /** A dollar sign in front of a whole number is ignored. */
  lemma ParseAmountDollars(n: nat)
    ensures ParseAmount("$" + NatToString(n)) == n as real
  {
    var d := NatToString(n);
    StripCurrencyConcat("$", d);
    assert StripCurrency("$") == [];
    assert forall i :: 0 <= i < |d| ==> d[i] != '$' && d[i] != ',';
    StripCurrencyPlain(d);
    ParseFloatNat(n);
  }

  /** "$1,200.50" reads as 1200.5: the sign and the thousands separator are ignored. */
  lemma ParseAmountExample()
    ensures ParseAmount("$1,200.50") == 1200.5
  {
    StripExample();
    DigitsExample();
    ParseFloatDecimal("1200", "50", []);
  }

  lemma StripExample()
    ensures StripCurrency("$1,200.50") == "1200" + "." + "50" + []
  {
    StripExampleParts();
    StripCurrencyConcat("$1", ",200.50");
    StripCurrencyConcat("$", "1");
    StripCurrencyConcat(",", "200.50");
    StripCurrencyPlain("1");
    StripCurrencyPlain("200.50");
  }

  lemma StripExampleParts()
    ensures "$1,200.50" == "$1" + ",200.50" && "$1" == "$" + "1" && ",200.50" == "," + "200.50"
    ensures StripCurrency("$") == [] && StripCurrency(",") == []
    ensures '$' !in "1" && ',' !in "1" && '$' !in "200.50" && ',' !in "200.50"
    ensures "1" + "200.50" == "1200" + "." + "50" + []
  {
  }

  lemma DigitsExample()
    ensures AllDigits("1200") && DigitsValue("1200") == 1200
    ensures AllDigits("50") && FractionValue("50") == 0.5
  {
    assert "1200"[..3] == "120" && "120"[..2] == "12" && "12"[..1] == "1";
    assert "50"[..1] == "5";
  }

  /** Unreadable text and an empty cell both count 0. */
  lemma ParseAmountNoNumber()
    ensures ParseAmount("") == 0.0
    ensures ParseAmount("abc") == 0.0
  {
    assert StripCurrency("abc") == "abc";
    TrimStartUnpadded("abc");
    ParseFloatNaN("abc");
  }
}
