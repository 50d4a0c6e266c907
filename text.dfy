/**
 * The string primitives the engine relies on: JavaScript's `trim`,
 * `toLowerCase`, `split`, `<` on strings, `String(n)` and `padStart`.
 */
module Text {

  /** WhiteSpace and LineTerminator code points, the characters `trim` and `parseFloat` skip. */
  predicate IsJsWhitespace(c: char)
  {
    c == '\t' || c == '\n' || c == '\U{B}' || c == '\U{C}' || c == '\r' || c == ' '
    || c == '\U{A0}' || c == '\U{1680}' || ('\U{2000}' <= c <= '\U{200A}')
    || c == '\U{2028}' || c == '\U{2029}' || c == '\U{202F}' || c == '\U{205F}'
    || c == '\U{3000}' || c == '\U{FEFF}'
  }

  /** The index of the first non-whitespace character at or after `i`, or `|s|`. */
  function SkipWhitespace(s: string, i: nat): (j: nat)
    requires i <= |s|
    ensures i <= j <= |s|
    decreases |s| - i
  {
    if i < |s| && IsJsWhitespace(s[i]) then SkipWhitespace(s, i + 1) else i
  }

  lemma {:induction false} SkipWhitespaceBounds(s: string, i: nat)
    requires i <= |s|
    ensures var j := SkipWhitespace(s, i);
      && (j == |s| || !IsJsWhitespace(s[j]))
      && (forall k :: i <= k < j ==> IsJsWhitespace(s[k]))
    decreases |s| - i
  {
    if i < |s| && IsJsWhitespace(s[i]) {
      SkipWhitespaceBounds(s, i + 1);
    }
  }

  /** The index just past the last non-whitespace character before `j`, or 0. */
  function SkipWhitespaceBack(s: string, j: nat): (i: nat)
    requires j <= |s|
    ensures i <= j
  {
    if j > 0 && IsJsWhitespace(s[j - 1]) then SkipWhitespaceBack(s, j - 1) else j
  }

  lemma {:induction false} SkipWhitespaceBackBounds(s: string, j: nat)
    requires j <= |s|
    ensures var i := SkipWhitespaceBack(s, j);
      && (i == 0 || !IsJsWhitespace(s[i - 1]))
      && (forall k :: i <= k < j ==> IsJsWhitespace(s[k]))
  {
    if j > 0 && IsJsWhitespace(s[j - 1]) {
      SkipWhitespaceBackBounds(s, j - 1);
    }
  }

  /** `String.prototype.trimStart`. */
  function TrimStart(s: string): (r: string)
    ensures |r| <= |s|
  {
    s[SkipWhitespace(s, 0)..]
  }

  /** `trimStart` leaves the suffix after the longest whitespace prefix. */
  lemma TrimStartSpec(s: string)
    ensures var r := TrimStart(s);
      && r == s[|s| - |r|..]
      && (r == [] || !IsJsWhitespace(r[0]))
      && (forall i :: 0 <= i < |s| - |r| ==> IsJsWhitespace(s[i]))
  {
    SkipWhitespaceBounds(s, 0);
  }

  /** A string that does not start with whitespace is its own `trimStart`. */
  lemma TrimStartUnpadded(s: string)
    requires s == [] || !IsJsWhitespace(s[0])
    ensures TrimStart(s) == s
  {
    assert SkipWhitespace(s, 0) == 0;
  }

  /** `String.prototype.trimEnd`. */
  function TrimEnd(s: string): (r: string)
    ensures |r| <= |s|
  {
    s[..SkipWhitespaceBack(s, |s|)]
  }

  /** `trimEnd` leaves the prefix before the longest whitespace suffix. */
  lemma TrimEndSpec(s: string)
    ensures var r := TrimEnd(s);
      && r == s[..|r|]
      && (r == [] || !IsJsWhitespace(r[|r| - 1]))
      && (forall i :: |r| <= i < |s| ==> IsJsWhitespace(s[i]))
  {
    SkipWhitespaceBackBounds(s, |s|);
  }

  /** `String.prototype.trim`: `trimEnd` after `trimStart`. */
  function Trim(s: string): (r: string)
    ensures |r| <= |s|
  {
    TrimEnd(TrimStart(s))
  }

  /**
   * `trim` removes whitespace from both ends and nothing else: the result is
   * the infix of `s` between a whitespace prefix and a whitespace suffix, and
   * it neither starts nor ends with whitespace.
   */
  lemma TrimSpec(s: string)
    ensures IsTrimmed(Trim(s))
    ensures var r := Trim(s); var a := |s| - |TrimStart(s)|;
      && a + |r| <= |s| && r == s[a..a + |r|]
      && (forall i :: 0 <= i < a ==> IsJsWhitespace(s[i]))
      && (forall i :: a + |r| <= i < |s| ==> IsJsWhitespace(s[i]))
  {
    var t := TrimStart(s);
    TrimStartSpec(s);
    TrimEndSpec(t);
    var r := TrimEnd(t);
    var a := |s| - |t|;
    assert r == s[a..a + |r|];
  }

  /** A string with no whitespace at either end. */
  predicate IsTrimmed(s: string)
  {
    s == [] || (!IsJsWhitespace(s[0]) && !IsJsWhitespace(s[|s| - 1]))
  }

  lemma TrimOfTrimmed(s: string)
    requires IsTrimmed(s)
    ensures Trim(s) == s
  {
    TrimStartUnpadded(s);
    assert SkipWhitespaceBack(s, |s|) == |s|;
  }

  /** Trimming twice is trimming once. */
  lemma TrimIdempotent(s: string)
    ensures Trim(Trim(s)) == Trim(s)
  {
    TrimSpec(s);
    TrimOfTrimmed(Trim(s));
  }

  /** `toLowerCase` on one character (ASCII letters only; see README). */
  function LowerChar(c: char): (r: char)
    ensures 'A' <= c <= 'Z' ==> r as int == c as int + 32
    ensures !('A' <= c <= 'Z') ==> r == c
  {
    if 'A' <= c <= 'Z' then (c as int + 32) as char else c
  }

  /** `String.prototype.toLowerCase`, character by character. */
  function ToLower(s: string): string
  {
    seq(|s|, i requires 0 <= i < |s| => LowerChar(s[i]))
  }

  /** Lower-casing never creates or removes whitespace. */
  lemma LowerCharWhitespace(c: char)
    ensures IsJsWhitespace(LowerChar(c)) <==> IsJsWhitespace(c)
  {
  }

  /** Lower-casing twice is lower-casing once. */
  lemma ToLowerIdempotent(s: string)
    ensures ToLower(ToLower(s)) == ToLower(s)
  {
  }

  /** Lower-casing preserves trimmed-ness, so trimming and lower-casing commute. */
  lemma TrimToLowerCommute(s: string)
    ensures Trim(ToLower(s)) == ToLower(Trim(s))
  {
    var a := SkipWhitespace(s, 0);
    SkipWhitespaceBounds(s, 0);
    SkipWhitespaceToLower(s, 0);
    ToLowerSlice(s, a, |s|);
    var u := s[a..];
    assert TrimStart(ToLower(s)) == ToLower(u);
    var b := SkipWhitespaceBack(u, |u|);
    SkipWhitespaceBackBounds(u, |u|);
    SkipWhitespaceBackToLower(u, |u|);
    ToLowerSlice(u, 0, b);
  }

  /** Lower-casing commutes with slicing. */
  lemma ToLowerSlice(s: string, i: nat, j: nat)
    requires i <= j <= |s|
    ensures ToLower(s[i..j]) == ToLower(s)[i..j]
  {
  }

  lemma {:induction false} SkipWhitespaceToLower(s: string, i: nat)
    requires i <= |s|
    ensures SkipWhitespace(ToLower(s), i) == SkipWhitespace(s, i)
    decreases |s| - i
  {
    if i < |s| {
      LowerCharWhitespace(s[i]);
      SkipWhitespaceToLower(s, i + 1);
    }
  }

  lemma {:induction false} SkipWhitespaceBackToLower(s: string, j: nat)
    requires j <= |s|
    ensures SkipWhitespaceBack(ToLower(s), j) == SkipWhitespaceBack(s, j)
  {
    if j > 0 {
      LowerCharWhitespace(s[j - 1]);
      SkipWhitespaceBackToLower(s, j - 1);
    }
  }

  /**
   * The lookup key used for the line-item and country tables: `s.trim().toLowerCase()`.
   * Two labels that differ only in letter case and surrounding whitespace share a key.
   */
  function NormalizeKey(s: string): (r: string)
    ensures |r| <= |s|
    ensures IsTrimmed(r)
  {
    TrimToLowerCommute(Trim(s));
    TrimIdempotent(s);
    ToLower(Trim(s))
  }

  /** Trimming strips exactly the whitespace padding around a trimmed, non-empty core. */
  lemma TrimPadded(pre: string, s: string, post: string)
    requires forall i :: 0 <= i < |pre| ==> IsJsWhitespace(pre[i])
    requires forall i :: 0 <= i < |post| ==> IsJsWhitespace(post[i])
    requires s != [] && IsTrimmed(s)
    ensures Trim(pre + s + post) == s
  {
    var x := pre + s + post;
    TrimStartSpec(x);
    TrimSpec(x);
    var a := |x| - |TrimStart(x)|;
    assert x[|pre|] == s[0];
    assert a == |pre|;
    assert x[|pre| + |s| - 1] == s[|s| - 1];
    var r := Trim(x);
    assert a + |r| == |pre| + |s|;
  }

  /** The key of an already trimmed string is its lower-case form. */
  lemma NormalizeTrimmed(s: string)
    requires IsTrimmed(s)
    ensures NormalizeKey(s) == ToLower(s)
  {
    TrimOfTrimmed(s);
  }

  /** The key of a whitespace-padded string is the lower-case form of its core. */
  lemma NormalizePadded(pre: string, s: string, post: string)
    requires forall i :: 0 <= i < |pre| ==> IsJsWhitespace(pre[i])
    requires forall i :: 0 <= i < |post| ==> IsJsWhitespace(post[i])
    requires s != [] && IsTrimmed(s)
    ensures NormalizeKey(pre + s + post) == ToLower(s)
  {
    TrimPadded(pre, s, post);
  }

  /** A string with no upper-case ASCII letter. */
  predicate IsLowerCase(s: string)
  {
    forall i :: 0 <= i < |s| ==> !('A' <= s[i] <= 'Z')
  }

  lemma LowerCaseFixed(s: string)
    requires IsLowerCase(s)
    ensures ToLower(s) == s
  {
  }

  /** A key that is already trimmed and lower-case is its own normal form. */
  lemma NormalizeKeyFixed(s: string)
    requires IsTrimmed(s) && IsLowerCase(s)
    ensures NormalizeKey(s) == s
  {
    TrimOfTrimmed(s);
    LowerCaseFixed(s);
  }

  /** Normalising a key twice is normalising it once. */
  lemma NormalizeKeyIdempotent(s: string)
    ensures NormalizeKey(NormalizeKey(s)) == NormalizeKey(s)
  {
    var t := Trim(s);
    TrimToLowerCommute(t);
    TrimIdempotent(s);
    ToLowerIdempotent(t);
  }

  // ---------------------------------------------------------------------------
  // String comparison
  // ---------------------------------------------------------------------------

  /** JavaScript's `a < b` on strings: lexicographic by character code. */
  predicate StrLess(a: string, b: string)
  {
    if a == [] then b != []
    else if b == [] then false
    else if a[0] != b[0] then a[0] < b[0]
    else StrLess(a[1..], b[1..])
  }

  lemma {:induction false} StrLessIrreflexive(a: string)
    ensures !StrLess(a, a)
  {
    if a != [] {
      StrLessIrreflexive(a[1..]);
    }
  }

  lemma {:induction false} StrLessTransitive(a: string, b: string, c: string)
    requires StrLess(a, b) && StrLess(b, c)
    ensures StrLess(a, c)
  {
    if a != [] && b != [] && c != [] && a[0] == b[0] && b[0] == c[0] {
      StrLessTransitive(a[1..], b[1..], c[1..]);
    }
  }

  /** Any two distinct strings are ordered one way or the other. */
  lemma {:induction false} StrLessTotal(a: string, b: string)
    requires a != b
    ensures StrLess(a, b) || StrLess(b, a)
  {
    if a != [] && b != [] && a[0] == b[0] {
      assert a == [a[0]] + a[1..] && b == [b[0]] + b[1..];
      StrLessTotal(a[1..], b[1..]);
    }
  }

  lemma {:induction false} StrLessAsymmetric(a: string, b: string)
    requires StrLess(a, b)
    ensures !StrLess(b, a)
  {
    if a != [] && b != [] && a[0] == b[0] {
      StrLessAsymmetric(a[1..], b[1..]);
    }
  }

  /** A common prefix does not affect the comparison. */
  lemma {:induction false} StrLessCommonPrefix(p: string, a: string, b: string)
    ensures StrLess(p + a, p + b) <==> StrLess(a, b)
  {
    if p == [] {
      assert p + a == a && p + b == b;
    } else {
      assert (p + a)[0] == p[0] && (p + b)[0] == p[0];
      assert (p + a)[1..] == p[1..] + a && (p + b)[1..] == p[1..] + b;
      assert p + a != [] && p + b != [];
      assert StrLess(p + a, p + b) == StrLess(p[1..] + a, p[1..] + b);
      StrLessCommonPrefix(p[1..], a, b);
    }
  }

  // ---------------------------------------------------------------------------
  // Splitting on a separator character
  // ---------------------------------------------------------------------------

  /** Number of occurrences of `c` in `s`. */
  function Occurrences(s: string, c: char): nat
  {
    if s == [] then 0 else (if s[0] == c then 1 else 0) + Occurrences(s[1..], c)
  }

  /** Concatenation of `parts` with `sep` between consecutive parts (`Array.prototype.join`). */
  function Join(parts: seq<string>, sep: char): string
    requires |parts| >= 1
  {
    if |parts| == 1 then parts[0] else parts[0] + [sep] + Join(parts[1..], sep)
  }

  /** Index of the first `c` in `s`, or `|s|` when there is none. */
  function IndexOf(s: string, c: char): (i: nat)
    ensures i <= |s|
    ensures i < |s| ==> s[i] == c
    ensures forall j :: 0 <= j < i ==> s[j] != c
  {
    if s == [] then 0 else if s[0] == c then 0 else 1 + IndexOf(s[1..], c)
  }

  /** `s.split(sep)` for a one-character separator. */
  function Split(s: string, sep: char): (parts: seq<string>)
    ensures |parts| == Occurrences(s, sep) + 1
    ensures forall k :: 0 <= k < |parts| ==> sep !in parts[k]
    ensures Join(parts, sep) == s
    decreases |s|
  {
    var i := IndexOf(s, sep);
    OccurrencesSplit(s, i, sep);
    if i == |s| then [s] else [s[..i]] + Split(s[i + 1..], sep)
  }

  lemma {:induction false} OccurrencesSplit(s: string, i: nat, c: char)
    requires i <= |s|
    requires forall j :: 0 <= j < i ==> s[j] != c
    ensures i == |s| ==> Occurrences(s, c) == 0
    ensures i < |s| && s[i] == c ==> Occurrences(s, c) == 1 + Occurrences(s[i + 1..], c)
  {
    if i > 0 {
      OccurrencesSplit(s[1..], i - 1, c);
      if i < |s| {
        assert s[1..][i..] == s[i + 1..];
      }
    }
  }

  /** Splitting a joined list gives the parts back, when no part contains the separator. */
  lemma {:induction false} SplitJoin(parts: seq<string>, sep: char)
    requires |parts| >= 1
    requires forall k :: 0 <= k < |parts| ==> sep !in parts[k]
    ensures Split(Join(parts, sep), sep) == parts
    decreases |parts|
  {
    var s := Join(parts, sep);
    var p0 := parts[0];
    if |parts| == 1 {
      assert IndexOf(s, sep) == |s|;
    } else {
      var rest := Join(parts[1..], sep);
      assert s == p0 + [sep] + rest;
      assert s[|p0|] == sep;
      assert forall j :: 0 <= j < |p0| ==> s[j] == p0[j];
      assert IndexOf(s, sep) == |p0|;
      assert s[..|p0|] == p0;
      assert s[|p0| + 1..] == rest;
      SplitJoin(parts[1..], sep);
    }
  }

  // ---------------------------------------------------------------------------
  // Decimal digits
  // ---------------------------------------------------------------------------

  predicate IsDigit(c: char)
  {
    '0' <= c <= '9'
  }

  predicate AllDigits(s: string)
  {
    forall i :: 0 <= i < |s| ==> IsDigit(s[i])
  }

  function DigitValue(c: char): (d: nat)
    requires IsDigit(c)
    ensures d < 10
  {
    c as int - '0' as int
  }

  function DigitChar(d: nat): (c: char)
    requires d < 10
    ensures IsDigit(c) && DigitValue(c) == d
  {
    ('0' as int + d) as char
  }

  /** The value of a string of decimal digits, most significant first. */
  function DigitsValue(s: string): nat
    requires AllDigits(s)
  {
    if s == [] then 0 else DigitsValue(s[..|s| - 1]) * 10 + DigitValue(s[|s| - 1])
  }

  /** `String(n)` for a natural number: shortest decimal digits, no leading zero. */
  function NatToString(n: nat): (r: string)
    ensures |r| >= 1 && AllDigits(r)
    ensures |r| > 1 ==> r[0] != '0'
    ensures DigitsValue(r) == n
  {
    if n < 10 then [DigitChar(n)]
    else
      var r := NatToString(n / 10) + [DigitChar(n % 10)];
      assert r[..|r| - 1] == NatToString(n / 10);
      r
  }

  /** `String(i)` for an integer. */
  function IntToString(i: int): (r: string)
    ensures |r| >= 1
    ensures i >= 0 ==> r == NatToString(i)
    ensures i < 0 ==> r == "-" + NatToString(-i)
  {
    if i < 0 then "-" + NatToString(-i) else NatToString(i)
  }

  /** A run of `n` copies of `c`. */
  function Repeat(c: char, n: nat): (r: string)
    ensures |r| == n && forall i :: 0 <= i < n ==> r[i] == c
  {
    if n == 0 then [] else [c] + Repeat(c, n - 1)
  }

  /** `s.padStart(width, c)` for a one-character pad string. */
  function PadStart(s: string, width: nat, c: char): (r: string)
    ensures |r| == if |s| >= width then |s| else width
    ensures r[|r| - |s|..] == s
    ensures forall i :: 0 <= i < |r| - |s| ==> r[i] == c
  {
    if |s| >= width then s else Repeat(c, width - |s|) + s
  }
}
