/**
 * The few JavaScript string operations the extension relies on: String.prototype.trim,
 * parseInt(s, 10), parseFloat (decimal notation only), ASCII case-insensitive substring
 * tests as made by the regular expressions /Auto/i and /Quality/i. Strings are seq<char>, a
 * sequence of Unicode scalar values; JavaScript strings are UTF-16 code units, so a string
 * holding a character outside the Basic Multilingual Plane is one element shorter here per
 * such character. No decision of the extension depends on a length.
 */
module JsText {
  import opened Wrappers

  predicate IsDigit(c: char) {
    '0' <= c <= '9'
  }

  predicate AllDigits(s: string) {
    forall i :: 0 <= i < |s| ==> IsDigit(s[i])
  }

  /** The value of a decimal digit (0 for any other character, which no caller passes). */
  function DigitValue(c: char): (d: nat)
    ensures d < 10
  {
    if IsDigit(c) then c as int - '0' as int else 0
  }

  function DigitChar(d: nat): (c: char)
    requires d < 10
    ensures IsDigit(c) && DigitValue(c) == d
  {
    ('0' as int + d) as char
  }

  /** The value of a string of decimal digits, most significant digit first. */
  function DigitsValue(s: string): nat
    decreases |s|
  {
    if s == [] then 0 else 10 * DigitsValue(s[..|s| - 1]) + DigitValue(s[|s| - 1])
  }

  lemma {:induction false} DigitsValueBound(s: string)
    requires AllDigits(s)
    ensures DigitsValue(s) < Pow10(|s|)
  {
    if s != [] {
      DigitsValueBound(s[..|s| - 1]);
    }
  }

  /** The decimal rendering of n, without leading zeros (String(n) in JavaScript). */
  function Decimal(n: nat): (s: string)
    ensures |s| >= 1 && AllDigits(s)
    ensures n == 0 || s[0] != '0'
    decreases n
  {
    if n < 10 then [DigitChar(n)] else Decimal(n / 10) + [DigitChar(n % 10)]
  }

  lemma {:induction false} DecimalRoundTrip(n: nat)
    ensures DigitsValue(Decimal(n)) == n
  {
    if n >= 10 {
      DecimalRoundTrip(n / 10);
      var s := Decimal(n);
      assert s[..|s| - 1] == Decimal(n / 10);
    }
  }

  lemma {:induction false} DecimalLength(n: nat)
    ensures 100 <= n < 1000 ==> |Decimal(n)| == 3
    ensures 1000 <= n < 10000 ==> |Decimal(n)| == 4
  {
    if 100 <= n < 10000 {
      var a := n / 10;
      var b := a / 10;
      assert 10 <= a < 1000 && 1 <= b < 100;
      assert |Decimal(n)| == |Decimal(a)| + 1;
      assert |Decimal(a)| == |Decimal(b)| + 1;
      if n < 1000 {
        assert b < 10;
      } else {
        assert 10 <= b;
        assert |Decimal(b)| == |Decimal(b / 10)| + 1;
      }
    }
  }

  /** The length of the run of decimal digits at the start of s. */
  function DigitRun(s: string): (n: nat)
    ensures n <= |s|
  {
    if s != [] && IsDigit(s[0]) then 1 + DigitRun(s[1..]) else 0
  }

  /** The run is all digits and stops at the end or at a non-digit. */
  lemma {:induction false} DigitRunSpec(s: string)
    ensures AllDigits(s[..DigitRun(s)])
    ensures DigitRun(s) == |s| || !IsDigit(s[DigitRun(s)])
  {
    if s != [] && IsDigit(s[0]) {
      var m := DigitRun(s[1..]);
      DigitRunSpec(s[1..]);
      assert DigitRun(s) == m + 1;
      assert s[..m + 1] == [s[0]] + s[1..][..m];
      var u := s[..m + 1];
      assert AllDigits(u) by {
        forall i | 0 <= i < |u| ensures IsDigit(u[i]) {
          if i > 0 { assert u[i] == s[1..][..m][i - 1]; }
        }
      }
      if m + 1 < |s| {
        assert s[m + 1] == s[1..][m];
      }
    }
  }

  /** The code units that trim, parseInt and parseFloat skip: WhiteSpace and LineTerminator of ECMAScript. */
  predicate IsJsWhitespace(c: char) {
    || c == '\t' || c == '\n' || c == '\U{000B}' || c == '\U{000C}' || c == '\r'
    || c == ' ' || c == '\U{00A0}' || c == '\U{1680}' || ('\U{2000}' <= c <= '\U{200A}')
    || c == '\U{2028}' || c == '\U{2029}' || c == '\U{202F}' || c == '\U{205F}'
    || c == '\U{3000}' || c == '\U{FEFF}'
  }

  predicate AllWhitespace(s: string) {
    forall i :: 0 <= i < |s| ==> IsJsWhitespace(s[i])
  }

  lemma AllWhitespaceJoin(a: string, b: string)
    requires AllWhitespace(a) && AllWhitespace(b)
    ensures AllWhitespace(a + b)
  {
    forall i | 0 <= i < |a + b| ensures IsJsWhitespace((a + b)[i]) {
      if i < |a| { assert (a + b)[i] == a[i]; } else { assert (a + b)[i] == b[i - |a|]; }
    }
  }

  /** The number of whitespace code units at the start of s. */
  function LeadingWhitespace(s: string): (n: nat)
    ensures n <= |s|
  {
    if s != [] && IsJsWhitespace(s[0]) then 1 + LeadingWhitespace(s[1..]) else 0
  }

  lemma {:induction false} LeadingWhitespaceSpec(s: string)
    ensures AllWhitespace(s[..LeadingWhitespace(s)])
    ensures LeadingWhitespace(s) == |s| || !IsJsWhitespace(s[LeadingWhitespace(s)])
  {
    if s != [] && IsJsWhitespace(s[0]) {
      var m := LeadingWhitespace(s[1..]);
      LeadingWhitespaceSpec(s[1..]);
      assert LeadingWhitespace(s) == m + 1;
      assert s[..m + 1] == [s[0]] + s[1..][..m];
      AllWhitespaceJoin([s[0]], s[1..][..m]);
      if m + 1 < |s| {
        assert s[m + 1] == s[1..][m];
      }
    }
  }

  /** The number of whitespace code units at the end of s. */
  function TrailingWhitespace(s: string): (n: nat)
    ensures n <= |s|
  {
    if s != [] && IsJsWhitespace(s[|s| - 1]) then 1 + TrailingWhitespace(s[..|s| - 1]) else 0
  }

  lemma {:induction false} TrailingWhitespaceSpec(s: string)
    ensures AllWhitespace(s[|s| - TrailingWhitespace(s)..])
    ensures TrailingWhitespace(s) == |s| || !IsJsWhitespace(s[|s| - TrailingWhitespace(s) - 1])
  {
    if s != [] && IsJsWhitespace(s[|s| - 1]) {
      var t := s[..|s| - 1];
      var m := TrailingWhitespace(t);
      TrailingWhitespaceSpec(t);
      assert TrailingWhitespace(s) == m + 1;
      assert s[|s| - (m + 1)..] == t[|t| - m..] + [s[|s| - 1]];
      AllWhitespaceJoin(t[|t| - m..], [s[|s| - 1]]);
      if m < |t| {
        assert s[|s| - (m + 1) - 1] == t[|t| - m - 1];
      }
    }
  }

  /** String.prototype.trim: s without its leading and trailing whitespace. */
  function Trim(s: string): (r: string)
    ensures LeadingWhitespace(s) + |r| <= |s|
  {
    var k := LeadingWhitespace(s);
    var t := s[k..];
    t[..|t| - TrailingWhitespace(t)]
  }

  /** trim removes the whitespace at both ends and nothing else: the result is the slice of s
      after its leading whitespace, only whitespace follows it, it is empty exactly for an
      all-whitespace s, and otherwise neither begins nor ends with whitespace. */
  lemma TrimSpec(s: string)
    ensures Trim(s) == s[LeadingWhitespace(s)..LeadingWhitespace(s) + |Trim(s)|]
    ensures AllWhitespace(s[LeadingWhitespace(s) + |Trim(s)|..])
    ensures Trim(s) == [] <==> AllWhitespace(s)
    ensures Trim(s) != [] ==> !IsJsWhitespace(Trim(s)[0]) && !IsJsWhitespace(Trim(s)[|Trim(s)| - 1])
  {
    TrimSlice(s);
    TrimEnds(s);
    if Trim(s) == [] {
      AllWhitespaceJoin(s[..LeadingWhitespace(s)], s[LeadingWhitespace(s)..]);
      assert s[..LeadingWhitespace(s)] + s[LeadingWhitespace(s)..] == s;
    } else {
      assert !IsJsWhitespace(s[LeadingWhitespace(s)]);
    }
  }

  lemma TrimSlice(s: string)
    ensures Trim(s) == s[LeadingWhitespace(s)..LeadingWhitespace(s) + |Trim(s)|]
    ensures AllWhitespace(s[..LeadingWhitespace(s)])
    ensures AllWhitespace(s[LeadingWhitespace(s) + |Trim(s)|..])
  {
    var k := LeadingWhitespace(s);
    var t := s[k..];
    var m := TrailingWhitespace(t);
    var r := t[..|t| - m];
    assert Trim(s) == r;
    LeadingWhitespaceSpec(s);
    TrailingWhitespaceSpec(t);
    SliceOfSlice(s, k, |r|);
  }

  lemma SliceOfSlice(s: string, k: nat, j: nat)
    requires k + j <= |s|
    ensures s[k..][..j] == s[k..k + j]
    ensures s[k..][j..] == s[k + j..]
  {
  }

  lemma TrimEnds(s: string)
    ensures Trim(s) != [] ==> !IsJsWhitespace(Trim(s)[0]) && !IsJsWhitespace(Trim(s)[|Trim(s)| - 1])
    ensures Trim(s) != [] ==> s[LeadingWhitespace(s)] == Trim(s)[0]
  {
    var k := LeadingWhitespace(s);
    var t := s[k..];
    var m := TrailingWhitespace(t);
    var r := t[..|t| - m];
    assert Trim(s) == r;
    if r != [] {
      LeadingWhitespaceSpec(s);
      TrailingWhitespaceSpec(t);
      assert r[0] == t[0] == s[k];
      assert r[|r| - 1] == t[|t| - m - 1];
    }
  }

  /** A string that neither starts nor ends with whitespace is its own trim. */
  lemma TrimUnpadded(s: string)
    requires s != [] && !IsJsWhitespace(s[0]) && !IsJsWhitespace(s[|s| - 1])
    ensures Trim(s) == s
  {
    assert LeadingWhitespace(s) == 0;
    assert TrailingWhitespace(s) == 0;
  }

  /** Trimming a trimmed string changes nothing. */
  lemma TrimIdempotent(s: string)
    ensures Trim(Trim(s)) == Trim(s)
  {
    var r := Trim(s);
    TrimSpec(s);
    if r != [] {
      assert LeadingWhitespace(r) == 0;
      assert TrailingWhitespace(r) == 0;
    }
  }

  /** parseInt(s, 10): skip leading whitespace, take an optional sign and the longest run of
      decimal digits after it; None stands for NaN (no digit there). */
  function ParseInt(s: string): (r: Option<int>)
    ensures r.None? <==> DigitRun(Unsigned(TrimStart(s))) == 0
  {
    var t := TrimStart(s);
    var body := Unsigned(t);
    var n := DigitRun(body);
    if n == 0 then None
    else
      var v: int := DigitsValue(body[..n]);
      Some(if t[0] == '-' then -v else v)
  }

  /** parseFloat(s) restricted to decimal notation: optional sign, digits, optional fraction
      after a point; at least one digit. None stands for NaN. */
  function ParseDecimal(s: string): (r: Option<real>)
    ensures r.Some? ==> TrimStart(s) != []
    ensures r.Some? && r.value < 0.0 ==> TrimStart(s)[0] == '-'
  {
    var t := TrimStart(s);
    match UnsignedDecimal(Unsigned(t))
    case None => None
    case Some(m) => Some(if t != [] && t[0] == '-' then -m else m)
  }

  /** The number at the start of body written as digits with an optional fraction. */
  function UnsignedDecimal(body: string): (r: Option<real>)
    ensures r.Some? ==> body != [] && r.value >= 0.0
  {
    var n := DigitRun(body);
    var frac := Fraction(body[n..]);
    if n == 0 && frac == [] then None
    else Some(DigitsValue(body[..n]) as real + DigitsValue(frac) as real / Pow10(|frac|) as real)
  }

  /** The digits after a leading decimal point of rest, if any. */
  function Fraction(rest: string): string {
    if rest != [] && rest[0] == '.' then rest[1..][..DigitRun(rest[1..])] else []
  }

  function Pow10(k: nat): (p: nat)
    ensures p >= 1
  {
    if k == 0 then 1 else 10 * Pow10(k - 1)
  }

  /** s without its leading whitespace (what parseInt and parseFloat skip). */
  function TrimStart(s: string): (r: string)
    ensures |r| <= |s|
  {
    s[LeadingWhitespace(s)..]
  }

  /** TrimStart removes exactly the leading whitespace. */
  lemma TrimStartSpec(s: string)
    ensures TrimStart(s) == [] || !IsJsWhitespace(TrimStart(s)[0])
    ensures s == s[..|s| - |TrimStart(s)|] + TrimStart(s) && AllWhitespace(s[..|s| - |TrimStart(s)|])
  {
    LeadingWhitespaceSpec(s);
  }

  /** t without one leading '+' or '-'. */
  function Unsigned(t: string): string {
    if t != [] && (t[0] == '+' || t[0] == '-') then t[1..] else t
  }

  /** parseInt of a decimal rendering followed by anything that is not a digit gives the number back. */
  lemma ParseIntDecimal(n: nat, rest: string)
    requires rest == [] || !IsDigit(rest[0])
    ensures ParseInt(Decimal(n) + rest) == Some(n)
  {
    var s := Decimal(n) + rest;
    assert LeadingWhitespace(s) == 0;
    assert TrimStart(s) == s;
    assert Unsigned(s) == s;
    DigitRunPrefix(Decimal(n), rest);
    assert s[..|Decimal(n)|] == Decimal(n);
    DecimalRoundTrip(n);
  }

  /** parseFloat of a decimal rendering of a whole number gives the number back. */
  lemma ParseDecimalWhole(n: nat)
    ensures ParseDecimal(Decimal(n)) == Some(n as real)
  {
    var s := Decimal(n);
    assert IsDigit(s[0]);
    assert TrimStart(s) == s;
    assert Unsigned(s) == s;
    UnsignedDecimalWhole(s);
    DecimalRoundTrip(n);
  }

  /** parseFloat of text that starts with a letter (such as "off" or "end"), or of "", is NaN. */
  lemma ParseDecimalWord(s: string)
    requires s == [] || ('a' <= s[0] <= 'z')
    ensures ParseDecimal(s) == None
  {
    if s != [] {
      assert !IsJsWhitespace(s[0]);
      assert LeadingWhitespace(s) == 0;
      assert TrimStart(s) == s;
      assert Unsigned(s) == s;
      assert DigitRun(s) == 0;
      assert s[0..] == s;
    }
  }

  lemma UnsignedDecimalWhole(s: string)
    requires s != [] && AllDigits(s)
    ensures UnsignedDecimal(s) == Some(DigitsValue(s) as real)
  {
    DigitRunPrefix(s, []);
    assert s + [] == s;
    var n := DigitRun(s);
    assert s[n..] == [] && s[..n] == s;
    assert Fraction([]) == [];
    assert DigitsValue([]) as real / Pow10(0) as real == 0.0;
  }

  lemma {:induction false} DigitRunPrefix(d: string, rest: string)
    requires AllDigits(d)
    requires rest == [] || !IsDigit(rest[0])
    ensures DigitRun(d + rest) == |d|
  {
    if d != [] {
      assert (d + rest)[1..] == d[1..] + rest;
      DigitRunPrefix(d[1..], rest);
    } else {
      assert d + rest == rest;
    }
  }

  /** ASCII upper case mapped to lower case; JavaScript's /i flag folds exactly these pairs
      for the letters of the patterns used here. */
  function LowerAscii(c: char): char {
    if 'A' <= c <= 'Z' then (c as int + 32) as char else c
  }

  /** w (lower case) occurs in s at position i, ignoring case. */
  predicate OccursAt(s: string, w: string, i: nat) {
    i + |w| <= |s| && forall k :: 0 <= k < |w| ==> LowerAscii(s[i + k]) == w[k]
  }

  /** Whether w (lower case) occurs in s at or after position i, ignoring case: /w/i.test(s[i..]). */
  function ContainsFrom(s: string, w: string, i: nat): (r: bool)
    ensures r <==> exists k :: i <= k && OccursAt(s, w, k)
    decreases |s| - i
  {
    if i + |w| > |s| then false else OccursAt(s, w, i) || ContainsFrom(s, w, i + 1)
  }

  predicate ContainsIgnoreCase(s: string, w: string) {
    ContainsFrom(s, w, 0)
  }
}
