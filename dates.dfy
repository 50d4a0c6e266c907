/**
 * The month key of a project: `toYearMonth` turns the date cell of the first
 * row seen for a project into `YYYY-MM`, or gives nothing when the cell does
 * not name a date. The JavaScript `Date` parser itself is not modelled: it is
 * the parameter `parse`, which gives the calendar year and month (local time)
 * of the date a string names, or `None` where `new Date(s)` is an invalid date.
 */
module Dates {
  import opened Wrappers
  import opened Text

  /** `getMonth() + 1`. */
  type Month = m: nat | 1 <= m <= 12 witness 1

  datatype YearMonth = YearMonth(year: int, month: Month)

  /** `new Date(s)` followed by `getFullYear()` and `getMonth() + 1`; `None` is an invalid date. */
  type DateParser = string -> Option<YearMonth>

  /** The month key stored for a project whose date cell gives no month. */
  const UNKNOWN_MONTH: string := "Unknown"

  // ---------------------------------------------------------------------------
  // Formatting
  // ---------------------------------------------------------------------------

  /** `String(m).padStart(2, "0")`. */
  function MonthDigits(m: Month): (r: string)
    ensures |r| == 2 && AllDigits(r) && DigitsValue(r) == m
  {
    var d := NatToString(m);
    if m < 10 then
      assert d == [DigitChar(m)];
      var r := PadStart(d, 2, '0');
      assert r == ['0'] + d;
      assert r[..1] == ['0'];
      r
    else
      assert d == NatToString(m / 10) + [DigitChar(m % 10)];
      assert NatToString(m / 10) == [DigitChar(m / 10)];
      PadStart(d, 2, '0')
  }

  /** `` `${getFullYear()}-${month padded to two digits}` ``. */
  function FormatYearMonth(ym: YearMonth): (r: string)
    ensures |r| >= 4 && r[|r| - 3] == '-'
    ensures var mm := r[|r| - 2..]; AllDigits(mm) && DigitsValue(mm) == ym.month
    ensures IsDigit(r[0]) || r[0] == '-'
  {
    var y := IntToString(ym.year);
    var m := MonthDigits(ym.month);
    assert IsDigit(y[0]) || y[0] == '-';
    KeyShape(y, m);
    y + ['-'] + m
  }

  /** Where the parts of `Y-MM` sit in the joined string. */
  lemma KeyShape(y: string, m: string)
    requires |y| >= 1 && |m| == 2
    ensures var r := y + ['-'] + m;
      |r| >= 4 && r[|r| - 3] == '-' && r[|r| - 2..] == m && r[0] == y[0]
  {
    var r := y + ['-'] + m;
    assert r[|r| - 2..] == m;
  }

  /** Reads a `YYYY-MM` key back: four digits, a hyphen, two digits naming a month. */
  function DecodeYearMonth(s: string): Option<YearMonth>
  {
    if |s| == 7 && AllDigits(s[..4]) && s[4] == '-' && AllDigits(s[5..])
      && 1 <= DigitsValue(s[5..]) <= 12
    then Some(YearMonth(DigitsValue(s[..4]), DigitsValue(s[5..])))
    else None
  }

  /** `String(n)` has four digits exactly for the years 1000 to 9999. */
  lemma FourDigitYear(n: nat)
    requires 1000 <= n <= 9999
    ensures |NatToString(n)| == 4
  {
    var n1 := n / 10;
    var n2 := n1 / 10;
    assert 100 <= n1 <= 999 && 10 <= n2 <= 99 && 1 <= n2 / 10 <= 9;
    NatToStringStep(n);
    NatToStringStep(n1);
    NatToStringStep(n2);
  }

  lemma NatToStringStep(n: nat)
    requires n >= 10
    ensures |NatToString(n)| == |NatToString(n / 10)| + 1
  {
  }

  /** A four-digit year, a hyphen and two month digits read back as that year and month. */
  lemma DecodeParts(y: string, m: string)
    requires |y| == 4 && AllDigits(y) && |m| == 2 && AllDigits(m) && 1 <= DigitsValue(m) <= 12
    ensures DecodeYearMonth(y + ['-'] + m) == Some(YearMonth(DigitsValue(y), DigitsValue(m)))
  {
    var r := y + ['-'] + m;
    assert r[..4] == y;
    assert r[5..] == m;
  }

  /** For a four-digit year the key is exactly `YYYY-MM`, and it reads back as the same month. */
  lemma FormatDecodes(ym: YearMonth)
    requires 1000 <= ym.year <= 9999
    ensures |FormatYearMonth(ym)| == 7
    ensures DecodeYearMonth(FormatYearMonth(ym)) == Some(ym)
  {
    FourDigitYear(ym.year);
    FormatParts(ym);
    DecodeParts(NatToString(ym.year), MonthDigits(ym.month));
  }

  // ---------------------------------------------------------------------------
  // Order of keys
  // ---------------------------------------------------------------------------

  /** Comparing two strings whose first parts have the same length. */
  lemma {:induction false} StrLessSplit(p: string, q: string, u: string, v: string)
    requires |p| == |q|
    ensures StrLess(p + u, q + v) <==> StrLess(p, q) || (p == q && StrLess(u, v))
  {
    if p == [] {
      assert p + u == u && q + v == v;
    } else {
      assert (p + u)[0] == p[0] && (q + v)[0] == q[0];
      assert (p + u)[1..] == p[1..] + u && (q + v)[1..] == q[1..] + v;
      assert p == [p[0]] + p[1..] && q == [q[0]] + q[1..];
      StrLessSplit(p[1..], q[1..], u, v);
    }
  }

  /** On digit strings of one length, string order is numeric order. */
  lemma {:induction false} DigitsOrder(x: string, y: string)
    requires |x| == |y| && AllDigits(x) && AllDigits(y)
    ensures StrLess(x, y) <==> DigitsValue(x) < DigitsValue(y)
    ensures x == y <==> DigitsValue(x) == DigitsValue(y)
  {
    if x != [] {
      var n := |x| - 1;
      var x', y' := x[..n], y[..n];
      var c, d := x[n], y[n];
      assert x == x' + [c] && y == y' + [d];
      assert AllDigits(x') && AllDigits(y');
      DigitsOrder(x', y');
      StrLessSplit(x', y', [c], [d]);
      assert StrLess([c], [d]) <==> c < d by {
        assert [c][1..] == [] && [d][1..] == [];
      }
      assert DigitsValue(x) == DigitsValue(x') * 10 + DigitValue(c);
      assert DigitsValue(y) == DigitsValue(y') * 10 + DigitValue(d);
      Positional(DigitsValue(x'), DigitsValue(y'), DigitValue(c), DigitValue(d));
    }
  }

  /** Appending one more decimal digit keeps the order of the prefixes, digits breaking ties. */
  lemma Positional(a: nat, b: nat, c: nat, d: nat)
    requires c < 10 && d < 10
    ensures a * 10 + c < b * 10 + d <==> a < b || (a == b && c < d)
    ensures a * 10 + c == b * 10 + d <==> a == b && c == d
  {
    if a < b {
      assert a * 10 + 10 <= b * 10;
    } else if b < a {
      assert b * 10 + 10 <= a * 10;
    }
  }

  /** Two four-digit-year keys compare as strings the way their months compare in time. */
  lemma KeysChronological(a: YearMonth, b: YearMonth)
    requires 1000 <= a.year <= 9999 && 1000 <= b.year <= 9999
    ensures StrLess(FormatYearMonth(a), FormatYearMonth(b))
            <==> a.year < b.year || (a.year == b.year && a.month < b.month)
  {
    FormatParts(a);
    FormatParts(b);
    FourDigitYear(a.year);
    FourDigitYear(b.year);
    KeyOrder(NatToString(a.year), NatToString(b.year), MonthDigits(a.month), MonthDigits(b.month));
  }

  lemma FormatParts(ym: YearMonth)
    requires ym.year >= 0
    ensures FormatYearMonth(ym) == NatToString(ym.year) + ['-'] + MonthDigits(ym.month)
  {
  }

  /** The order of `Y-M` strings built from digit strings of matching lengths. */
  lemma KeyOrder(ya: string, yb: string, ma: string, mb: string)
    requires |ya| == |yb| && |ma| == |mb|
    requires AllDigits(ya) && AllDigits(yb) && AllDigits(ma) && AllDigits(mb)
    ensures StrLess(ya + ['-'] + ma, yb + ['-'] + mb)
            <==> DigitsValue(ya) < DigitsValue(yb)
                 || (DigitsValue(ya) == DigitsValue(yb) && DigitsValue(ma) < DigitsValue(mb))
  {
    assert ya + ['-'] + ma == ya + (['-'] + ma);
    assert yb + ['-'] + mb == yb + (['-'] + mb);
    StrLessSplit(ya, yb, ['-'] + ma, ['-'] + mb);
    StrLessCommonPrefix(['-'], ma, mb);
    DigitsOrder(ya, yb);
    DigitsOrder(ma, mb);
  }

  /** Every key sorts before "Unknown": its first character is a digit or `-`. */
  lemma KeyBeforeUnknown(ym: YearMonth)
    ensures StrLess(FormatYearMonth(ym), UNKNOWN_MONTH)
    ensures !StrLess(UNKNOWN_MONTH, FormatYearMonth(ym))
  {
    var r := FormatYearMonth(ym);
    assert UNKNOWN_MONTH[0] == 'U';
    assert StrLess(r, UNKNOWN_MONTH);
    StrLessAsymmetric(r, UNKNOWN_MONTH);
  }

  // ---------------------------------------------------------------------------
  // toYearMonth
  // ---------------------------------------------------------------------------

  /** The `A/B/C` cell rebuilt as `C-B-A`; `None` unless `split("/")` gives three parts. */
  function Reinterpreted(s: string): (r: Option<string>)
    ensures r.Some? <==> Occurrences(s, '/') == 2
  {
    var parts := Split(s, '/');
    if |parts| == 3 then Some(parts[2] + "-" + parts[1] + "-" + parts[0]) else None
  }

  /** The date `d` holds after the fallback; `None` is an invalid date. */
  function ResolveDate(parse: DateParser, s: string): Option<YearMonth>
  {
    if parse(s).Some? then parse(s)
    else match Reinterpreted(s)
      case None => None
      case Some(t) => parse(t)
  }

  /** `toYearMonth(s)`: `None` stands for `null`. */
  function ToYearMonth(parse: DateParser, s: string): (r: Option<string>)
    ensures s == [] ==> r.None?
    ensures r.Some? ==> |r.value| >= 4 && r.value[|r.value| - 3] == '-'
  {
    if s == [] then None
    else match ResolveDate(parse, s)
      case None => None
      case Some(ym) => Some(FormatYearMonth(ym))
  }

  /** `toYearMonth(s) || "Unknown"`. */
  function MonthKey(parse: DateParser, s: string): (r: string)
    ensures r != []
  {
    match ToYearMonth(parse, s)
    case Some(k) => if k != [] then k else UNKNOWN_MONTH
    case None => UNKNOWN_MONTH
  }

  /** A cell the primary parser accepts is never reinterpreted. */
  lemma PrimaryParseWins(parse: DateParser, s: string, ym: YearMonth)
    requires s != [] && parse(s) == Some(ym)
    ensures ToYearMonth(parse, s) == Some(FormatYearMonth(ym))
    ensures MonthKey(parse, s) == FormatYearMonth(ym)
  {
  }

  /**
   * `A/B/C` that the primary parser rejects is read as the date `C-B-A`
   * (day/month/year becomes year-month-day).
   */
  lemma FallbackRebuilds(parse: DateParser, a: string, b: string, c: string)
    requires '/' !in a && '/' !in b && '/' !in c
    requires parse(a + "/" + b + "/" + c).None?
    ensures var t := c + "-" + b + "-" + a;
            ToYearMonth(parse, a + "/" + b + "/" + c)
            == if parse(t).Some? then Some(FormatYearMonth(parse(t).value)) else None
  {
    var s := a + "/" + b + "/" + c;
    assert Join([a, b, c], '/') == s by {
      assert Join([b, c], '/') == b + "/" + c;
    }
    SplitJoin([a, b, c], '/');
  }

  /** A rejected cell without exactly two slashes gives no month. */
  lemma NoFallback(parse: DateParser, s: string)
    requires parse(s).None? && Occurrences(s, '/') != 2
    ensures ToYearMonth(parse, s).None?
    ensures MonthKey(parse, s) == UNKNOWN_MONTH
  {
  }

  /** An empty cell gives "Unknown" whatever the parser does. */
  lemma EmptyCellUnknown(parse: DateParser)
    ensures MonthKey(parse, []) == UNKNOWN_MONTH
  {
  }

  /** A month key is either a formatted month or "Unknown". */
  lemma MonthKeyCases(parse: DateParser, s: string)
    ensures MonthKey(parse, s) == UNKNOWN_MONTH
            || exists ym :: MonthKey(parse, s) == FormatYearMonth(ym)
  {
    var r := ToYearMonth(parse, s);
    if r.Some? {
      var ym := ResolveDate(parse, s).value;
      assert MonthKey(parse, s) == FormatYearMonth(ym);
    }
  }
}
