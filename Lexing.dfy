/** The two regular expressions of the normaliser and `parseFloat` on what
    they capture:
      - `^(\d*\.?\d+)([a-zµ]+)$` with the `i` flag (capacitance),
      - `^(\d*\.?\d+)([a-zΩ]*)$` with the `i` flag (resistance),
      - `^(\d+)p(\d+)t$` (explicit switch form).
    Each regex is given as a predicate on the capture groups, and a splitter
    function is proved to return exactly the captures whenever a match
    exists. */
module Lexing {
  import opened Results
  import opened Text
  import opened Decimal

  predicate IsNumberChar(c: char) { IsDigit(c) || c == '.' }

  /** `\d*\.?\d+`: optional digits, an optional point, at least one digit. */
  ghost predicate IsDecimalLiteral(v: string) {
    (|v| > 0 && AllDigits(v))
    || exists k :: 0 <= k < |v| - 1 && v[k] == '.' && AllDigits(v[..k]) && AllDigits(v[k + 1..])
  }

  /** A decimal literal is made of digits and points only. */
  lemma DecimalLiteralChars(v: string)
    requires IsDecimalLiteral(v)
    ensures forall i :: 0 <= i < |v| ==> IsNumberChar(v[i])
  {
    if !AllDigits(v) {
      var k :| 0 <= k < |v| - 1 && v[k] == '.' && AllDigits(v[..k]) && AllDigits(v[k + 1..]);
      forall i | 0 <= i < |v| ensures IsNumberChar(v[i]) {
        if i < k {
          assert v[..k][i] == v[i];
        } else if i > k {
          assert v[k + 1..][i - k - 1] == v[i];
        }
      }
    }
  }

  /** Splits a decimal literal into its integer digits and its fraction
      digits; the fraction is empty exactly when there is no point. */
  function DecimalParts(v: string): (r: Option<(string, string)>)
    ensures r.Some? <==> IsDecimalLiteral(v)
    ensures r.Some? ==> AllDigits(r.value.0) && AllDigits(r.value.1)
    ensures r.Some? && r.value.1 == [] ==> v == r.value.0 && v != []
    ensures r.Some? && r.value.1 != [] ==> v == r.value.0 + "." + r.value.1
  {
    var d := Span(v, IsDigit);
    if d == |v| then
      assert v[..d] == v;
      if d > 0 then Some((v, "")) else None
    else if v[d] == '.' && d + 1 < |v| && AllDigits(v[d + 1..]) then
      assert AllDigits(v[..d]);
      assert v == v[..d] + "." + v[d + 1..];
      Some((v[..d], v[d + 1..]))
    else
      DecimalPartsNone(v, d);
      None
  }

  lemma DecimalPartsNone(v: string, d: nat)
    requires d == Span(v, IsDigit) < |v|
    requires !(v[d] == '.' && d + 1 < |v| && AllDigits(v[d + 1..]))
    ensures !IsDecimalLiteral(v)
  {
    assert !IsDigit(v[d]);
    forall k | 0 <= k < |v| - 1 && v[k] == '.' && AllDigits(v[..k])
      ensures !AllDigits(v[k + 1..])
    {
      SpanAtPoint(v, k);
    }
  }

  /** Digits followed by a point: the run of digits ends at the point. */
  lemma SpanAtPoint(v: string, k: nat)
    requires k < |v| && v[k] == '.' && AllDigits(v[..k])
    ensures Span(v, IsDigit) == k
  {
    forall i | 0 <= i < k ensures IsDigit(v[i]) {
      assert v[..k][i] == v[i];
    }
    SpanUnique(v, IsDigit, k);
  }

  /** `parseFloat` on a decimal literal: the exact decimal value. */
  function ParseFloat(v: string): (x: real)
    requires DecimalParts(v).Some?
    ensures x >= 0.0
  {
    var parts := DecimalParts(v).value;
    DigitsValue(parts.0) as real + TimesPow10(DigitsValue(parts.1) as real, -|parts.1|)
  }

  /** `parseFloat` of a plain digit string is its integer value. */
  lemma ParseFloatDigits(s: string)
    requires s != [] && AllDigits(s)
    ensures IsDecimalLiteral(s) && ParseFloat(s) == DigitsValue(s) as real
  {
    SpanUnique(s, IsDigit, |s|);
    assert s[..|s|] == s;
  }

  /** `<digits>.<digits>` splits at its point. */
  lemma DecimalPartsPoint(w: string, f: string)
    requires AllDigits(w) && f != [] && AllDigits(f)
    ensures DecimalParts(w + "." + f) == Some((w, f))
  {
    var v := w + "." + f;
    assert v[..|w|] == w && v[|w|] == '.' && v[|w| + 1..] == f;
    SpanUnique(v, IsDigit, |w|);
  }

  /** `parseFloat` is the integer part plus the fraction digits scaled down
      by their count. */
  lemma ParseFloatParts(v: string, w: string, f: string)
    requires DecimalParts(v) == Some((w, f))
    ensures ParseFloat(v) == DigitsValue(w) as real + TimesPow10(DigitsValue(f) as real, -|f|)
  {
  }

  /** Positional notation: the digits of `w` followed by those of `f`
      spell the value of `w` shifted left by |f| places plus the value of
      `f`. */
  lemma {:induction false} DigitsAppend(w: string, f: string)
    requires AllDigits(w) && AllDigits(f)
    ensures AllDigits(w + f)
    ensures DigitsValue(w + f) as real == TimesPow10(DigitsValue(w) as real, |f|) + DigitsValue(f) as real
    decreases |f|
  {
    var s := w + f;
    assert AllDigits(s) by {
      forall i | 0 <= i < |s| ensures IsDigit(s[i]) {
        if i < |w| {
          assert s[i] == w[i];
        } else {
          assert s[i] == f[i - |w|];
        }
      }
    }
    if f == [] {
      assert s == w;
    } else {
      var init := f[..|f| - 1];
      assert s[..|s| - 1] == w + init;
      assert forall i :: 0 <= i < |init| ==> init[i] == f[i];
      DigitsAppend(w, init);
      TimesPow10Step(DigitsValue(w) as real, |init|);
    }
  }

  /** `parseFloat` on a decimal with a point, `<w>.<f>`: scaled up by one
      power of ten per fraction digit, it is the integer spelled by all the
      digits, `w` then `f`. */
  lemma ParseFloatValue(v: string, w: string, f: string)
    requires DecimalParts(v) == Some((w, f))
    ensures AllDigits(w + f)
    ensures TimesPow10(ParseFloat(v), |f|) == DigitsValue(w + f) as real
  {
    ParseFloatParts(v, w, f);
    TimesPow10ShiftFraction(ParseFloat(v), DigitsValue(w) as real, DigitsValue(f) as real, |f|);
    DigitsAppend(w, f);
  }

  /** Which of the two unit-suffix classes a regex uses. */
  datatype SuffixClass = CapacitanceSuffix | ResistanceSuffix

  /** `[a-zµ]` and `[a-zΩ]` under the `i` flag: ASCII letters of either
      case, plus the characters that case-fold to µ (micro sign, Greek mu of
      either case) or to Ω (Greek omega of either case). */
  predicate InSuffixClass(c: char, cls: SuffixClass) {
    IsAsciiLetter(c)
    || match cls
       case CapacitanceSuffix => c == MicroSign || c == GreekSmallMu || c == GreekCapitalMu
       case ResistanceSuffix => c == GreekCapitalOmega || c == GreekSmallOmega
  }

  /** `[a-zµ]+` (capacitance, at least one letter) or `[a-zΩ]*` (resistance,
      possibly empty). */
  predicate IsUnitSuffix(u: string, cls: SuffixClass) {
    (cls == CapacitanceSuffix ==> u != [])
    && forall i :: 0 <= i < |u| ==> InSuffixClass(u[i], cls)
  }

  /** The whole string matches the value regex with captures `valueStr` and
      `unitStr`. */
  ghost predicate IsValueMatch(s: string, cls: SuffixClass, valueStr: string, unitStr: string) {
    s == valueStr + unitStr && IsDecimalLiteral(valueStr) && IsUnitSuffix(unitStr, cls)
  }

  /** A match determines the captures `MatchValue` returns. */
  lemma MatchValueOf(s: string, cls: SuffixClass, valueStr: string, unitStr: string)
    requires IsValueMatch(s, cls, valueStr, unitStr)
    ensures MatchValue(s, cls) == Some((valueStr, unitStr))
  {
  }

  /** In any match the number ends where the run of digits and points ends. */
  lemma ValueMatchSplit(s: string, cls: SuffixClass, valueStr: string, unitStr: string)
    requires IsValueMatch(s, cls, valueStr, unitStr)
    ensures Span(s, IsNumberChar) == |valueStr|
  {
    DecimalLiteralChars(valueStr);
    assert forall i :: 0 <= i < |valueStr| ==> s[i] == valueStr[i];
    if unitStr != [] {
      assert s[|valueStr|] == unitStr[0];
    }
    SpanUnique(s, IsNumberChar, |valueStr|);
  }

  /** The value regex: returns the two captures when the string matches,
      and those are the only captures any match could have. */
  function MatchValue(s: string, cls: SuffixClass): (r: Option<(string, string)>)
    ensures r.Some? ==> IsValueMatch(s, cls, r.value.0, r.value.1)
    ensures forall v, u :: IsValueMatch(s, cls, v, u) <==> r == Some((v, u))
  {
    var k := Span(s, IsNumberChar);
    assert s == s[..k] + s[k..];
    if DecimalParts(s[..k]).Some? && IsUnitSuffix(s[k..], cls) then
      MatchValueUnique(s, cls, k);
      Some((s[..k], s[k..]))
    else
      MatchValueUnique(s, cls, k);
      None
  }

  lemma MatchValueUnique(s: string, cls: SuffixClass, k: nat)
    requires k == Span(s, IsNumberChar)
    ensures forall v, u :: IsValueMatch(s, cls, v, u) ==> v == s[..k] && u == s[k..]
  {
    forall v, u | IsValueMatch(s, cls, v, u) ensures v == s[..k] && u == s[k..] {
      ValueMatchSplit(s, cls, v, u);
    }
  }

  /** `^(\d+)p(\d+)t$` with captures `poles` and `throws`. */
  ghost predicate IsSwitchMatch(s: string, poles: string, throws: string) {
    s == poles + "p" + throws + "t"
    && poles != [] && throws != [] && AllDigits(poles) && AllDigits(throws)
  }

  /** The explicit switch regex: returns the two captures when the string
      matches, and those are the only captures any match could have. */
  function MatchSwitch(s: string): (r: Option<(string, string)>)
    ensures r.Some? ==> IsSwitchMatch(s, r.value.0, r.value.1)
    ensures forall p, t :: IsSwitchMatch(s, p, t) <==> r == Some((p, t))
  {
    var k := Span(s, IsDigit);
    MatchSwitchUnique(s, k);
    if 0 < k && k + 2 < |s| && s[k] == 'p' && s[|s| - 1] == 't' && AllDigits(s[k + 1..|s| - 1]) then
      assert s == s[..k] + "p" + s[k + 1..|s| - 1] + "t";
      Some((s[..k], s[k + 1..|s| - 1]))
    else
      None
  }

  lemma MatchSwitchUnique(s: string, k: nat)
    requires k == Span(s, IsDigit)
    ensures forall p, t :: IsSwitchMatch(s, p, t) ==> p == s[..k] && t == s[k + 1..|s| - 1]
  {
    forall p, t | IsSwitchMatch(s, p, t) ensures p == s[..k] && t == s[k + 1..|s| - 1] {
      assert forall i :: 0 <= i < |p| ==> s[i] == p[i];
      assert s[|p|] == 'p';
      SpanUnique(s, IsDigit, |p|);
      assert s[k + 1..|s| - 1] == t;
    }
  }
}
