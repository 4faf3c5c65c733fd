/** The string primitives the normaliser relies on: `toLowerCase`,
    `toUpperCase`, removal of `\s` characters, `includes`, and the decimal
    value of a digit string. */
module Text {

  const MicroSign: char := '\U{00B5}'
  const GreekSmallMu: char := '\U{03BC}'
  const GreekCapitalMu: char := '\U{039C}'
  const GreekSmallOmega: char := '\U{03C9}'
  const GreekCapitalOmega: char := '\U{03A9}'
  const OhmSign: char := '\U{2126}'
  const KelvinSign: char := '\U{212A}'

  predicate IsDigit(c: char) { '0' <= c <= '9' }

  predicate IsAsciiUpper(c: char) { 'A' <= c <= 'Z' }

  predicate IsAsciiLower(c: char) { 'a' <= c <= 'z' }

  predicate IsAsciiLetter(c: char) { IsAsciiUpper(c) || IsAsciiLower(c) }

  /** The characters matched by `\s` in an ECMAScript regular expression:
      the white-space and line-terminator code points. */
  predicate IsWhitespace(c: char) {
    ('\t' <= c <= '\r') || c == ' ' || c == '\U{00A0}' || c == '\U{1680}'
    || ('\U{2000}' <= c <= '\U{200A}') || c == '\U{2028}' || c == '\U{2029}'
    || c == '\U{202F}' || c == '\U{205F}' || c == '\U{3000}' || c == '\U{FEFF}'
  }

  /** Lower-casing of one character: ASCII letters, plus the four non-ASCII
      characters whose lower-case form is a unit letter (Greek capital mu,
      Greek capital omega, the ohm sign and the kelvin sign). */
  function LowerChar(c: char): (r: char)
    ensures !IsAsciiUpper(r)
    ensures IsWhitespace(r) == IsWhitespace(c)
    ensures IsDigit(r) == IsDigit(c) && (r == '.') == (c == '.')
  {
    if IsAsciiUpper(c) then (c as int + 32) as char
    else if c == GreekCapitalMu then GreekSmallMu
    else if c == GreekCapitalOmega || c == OhmSign then GreekSmallOmega
    else if c == KelvinSign then 'k'
    else c
  }

  /** ASCII upper-casing of one character. */
  function UpperChar(c: char): (r: char)
    ensures IsAsciiLower(c) ==> IsAsciiUpper(r) && LowerChar(r) == c
    ensures !IsAsciiLower(c) ==> r == c
  {
    if IsAsciiLower(c) then (c as int - 32) as char else c
  }

  function Lower(s: string): (r: string)
    ensures |r| == |s|
  {
    if s == [] then [] else [LowerChar(s[0])] + Lower(s[1..])
  }

  /** `toUpperCase` on ASCII: no lower-case ASCII letter is left, and
      lower-casing the result gives the lower-cased input. */
  function Upper(s: string): (r: string)
    ensures |r| == |s|
    ensures forall i :: 0 <= i < |r| ==> !IsAsciiLower(r[i])
    ensures Lower(r) == Lower(s)
  {
    if s == [] then []
    else
      var r := [UpperChar(s[0])] + Upper(s[1..]);
      assert r[0] == UpperChar(s[0]) && r[1..] == Upper(s[1..]);
      r
  }

  /** `s.replace(/\s+/g, '')` */
  function StripWhitespace(s: string): (r: string)
    ensures |r| <= |s|
  {
    if s == [] then []
    else if IsWhitespace(s[0]) then StripWhitespace(s[1..])
    else [s[0]] + StripWhitespace(s[1..])
  }

  /** Removing white space keeps exactly the other characters. */
  lemma {:induction false} StripMembers(s: string)
    ensures forall c :: c in StripWhitespace(s) <==> c in s && !IsWhitespace(c)
  {
    if s != [] {
      StripMembers(s[1..]);
      assert s == [s[0]] + s[1..];
    }
  }

  /** `input.toLowerCase().replace(/\s+/g, '')`, the first step of every parser. */
  function Clean(s: string): (r: string)
    ensures |r| <= |s| && IsClean(r)
  {
    var r := StripWhitespace(Lower(s));
    StripMembers(Lower(s));
    assert IsClean(r) by {
      forall i | 0 <= i < |r| ensures LowerChar(r[i]) == r[i] && !IsWhitespace(r[i]) {
        assert r[i] in r;
        var j :| 0 <= j < |Lower(s)| && Lower(s)[j] == r[i];
        LowerAt(s, j);
      }
    }
    r
  }

  /** A string that cleaning leaves unchanged character by character. */
  predicate IsClean(s: string) {
    forall i :: 0 <= i < |s| ==> LowerChar(s[i]) == s[i] && !IsWhitespace(s[i])
  }

  /** Lower-casing a lower-cased character changes nothing. */
  lemma LowerCharIdempotent(c: char)
    ensures LowerChar(LowerChar(c)) == LowerChar(c)
  {
  }

  lemma {:induction false} LowerAppend(a: string, b: string)
    ensures Lower(a + b) == Lower(a) + Lower(b)
  {
    if a == [] {
      assert a + b == b;
    } else {
      assert (a + b)[0] == a[0] && (a + b)[1..] == a[1..] + b;
      LowerAppend(a[1..], b);
    }
  }

  lemma {:induction false} StripAppend(a: string, b: string)
    ensures StripWhitespace(a + b) == StripWhitespace(a) + StripWhitespace(b)
  {
    if a == [] {
      assert a + b == b;
    } else {
      assert (a + b)[0] == a[0] && (a + b)[1..] == a[1..] + b;
      StripAppend(a[1..], b);
    }
  }

  /** Cleaning distributes over concatenation. */
  lemma CleanAppend(a: string, b: string)
    ensures Clean(a + b) == Clean(a) + Clean(b)
  {
    LowerAppend(a, b);
    StripAppend(Lower(a), Lower(b));
  }

  /** Cleaning leaves a clean string as it is. */
  lemma {:induction false} CleanOfClean(s: string)
    requires IsClean(s)
    ensures Clean(s) == s
  {
    if s != [] {
      CleanOfClean(s[1..]);
    }
  }

  /** Every result of cleaning is clean, so cleaning is idempotent. */
  lemma CleanIsClean(s: string)
    ensures IsClean(Clean(s))
    ensures Clean(Clean(s)) == Clean(s)
  {
    CleanOfClean(Clean(s));
  }

  lemma {:induction false} LowerAt(s: string, i: nat)
    requires i < |s|
    ensures Lower(s)[i] == LowerChar(s[i])
  {
    if i > 0 {
      LowerAt(s[1..], i - 1);
    }
  }

  lemma CleanOfCleanChars(s: string)
    requires forall c :: c in s ==> LowerChar(c) == c && !IsWhitespace(c)
    ensures IsClean(s) && Clean(s) == s
  {
    assert IsClean(s) by {
      forall i | 0 <= i < |s| ensures LowerChar(s[i]) == s[i] && !IsWhitespace(s[i]) {
        assert s[i] in s;
      }
    }
    CleanOfClean(s);
  }

  /** Upper-casing a string of digits and lower-case ASCII letters and then
      cleaning it gives the string back. */
  lemma {:induction false} CleanUpper(s: string)
    requires forall i :: 0 <= i < |s| ==> IsDigit(s[i]) || IsAsciiLower(s[i])
    ensures Clean(Upper(s)) == s
  {
    if s != [] {
      CleanUpper(s[1..]);
      CleanAppend([UpperChar(s[0])], Upper(s[1..]));
      CleanSingle(UpperChar(s[0]));
      assert s == [s[0]] + s[1..];
    }
  }

  /** Digits and lower-case ASCII letters are left unchanged by cleaning. */
  lemma CleanOfLowerAscii(s: string)
    requires forall i :: 0 <= i < |s| ==> IsDigit(s[i]) || IsAsciiLower(s[i])
    ensures Clean(s) == s
  {
    forall c | c in s ensures LowerChar(c) == c && !IsWhitespace(c) {
      var i :| 0 <= i < |s| && s[i] == c;
    }
    CleanOfCleanChars(s);
  }

  /** `u.includes(s)`: `s` occurs in `u` at some position. */
  predicate Contains(u: string, s: string)
    ensures Contains(u, s) <==> exists k :: OccursAt(u, s, k)
  {
    if s <= u then
      assert OccursAt(u, s, 0);
      true
    else if u == [] then
      false
    else
      OccursShift(u, s);
      Contains(u[1..], s)
  }

  /** When `s` is not a prefix of `u`, it occurs in `u` exactly when it
      occurs in the tail of `u`. */
  lemma OccursShift(u: string, s: string)
    requires u != [] && !(s <= u)
    ensures (exists k :: OccursAt(u, s, k)) <==> (exists k :: OccursAt(u[1..], s, k))
  {
    forall k | OccursAt(u, s, k) ensures OccursAt(u[1..], s, k - 1) {
      assert k != 0;
      assert u[1..][k - 1..k - 1 + |s|] == u[k..k + |s|];
    }
    forall k | OccursAt(u[1..], s, k) ensures OccursAt(u, s, k + 1) {
      assert u[1..][k..k + |s|] == u[k + 1..k + 1 + |s|];
    }
  }

  /** `s` occurs in `u` starting at index `k`. */
  ghost predicate OccursAt(u: string, s: string, k: int) {
    0 <= k <= |u| - |s| && u[k..k + |s|] == s
  }

  /** Cleaning a two-character string with no white space lower-cases it. */
  lemma CleanPair(a: char, b: char)
    requires !IsWhitespace(a) && !IsWhitespace(b)
    ensures Clean([a, b]) == [LowerChar(a), LowerChar(b)]
  {
    assert [a, b] == [a] + [b];
    CleanAppend([a], [b]);
    CleanSingle(a);
    CleanSingle(b);
  }

  /** Cleaning a one-character string with no white space lower-cases it. */
  lemma CleanSingle(a: char)
    requires !IsWhitespace(a)
    ensures Clean([a]) == [LowerChar(a)]
  {
  }

  /** A one-character string is included exactly when the character occurs. */
  lemma {:induction false} ContainsChar(u: string, c: char)
    ensures Contains(u, [c]) <==> c in u
  {
    if u != [] {
      ContainsChar(u[1..], c);
      assert u == [u[0]] + u[1..];
    }
  }

  /** Every character of an included string occurs in the including one. */
  lemma {:induction false} ContainsChars(u: string, s: string)
    requires Contains(u, s)
    ensures forall c :: c in s ==> c in u
  {
    if s <= u {
      forall c | c in s ensures c in u {
        var i :| 0 <= i < |s| && s[i] == c;
        assert u[i] == c;
      }
    } else {
      ContainsChars(u[1..], s);
      forall c | c in u[1..] ensures c in u {
        var i :| 0 <= i < |u[1..]| && u[1..][i] == c;
        assert u[i + 1] == c;
      }
    }
  }

  predicate AllDigits(s: string) {
    forall i :: 0 <= i < |s| ==> IsDigit(s[i])
  }

  /** `parseInt(s)` for a string of decimal digits (leading zeros allowed). */
  function DigitsValue(s: string): (n: nat)
    requires AllDigits(s)
    ensures n == 0 <==> forall i :: 0 <= i < |s| ==> s[i] == '0'
  {
    if s == [] then 0
    else
      assert forall i :: 0 <= i < |s| - 1 ==> s[..|s| - 1][i] == s[i];
      DigitsValue(s[..|s| - 1]) * 10 + (s[|s| - 1] as int - '0' as int)
  }

  /** The shortest decimal digit string of `n`, as `String(n)` renders an integer. */
  function NatToDigits(n: nat): (s: string)
    ensures |s| > 0 && AllDigits(s)
    ensures DigitsValue(s) == n
    ensures |s| > 1 ==> s[0] != '0'
  {
    if n < 10 then [('0' as int + n) as char]
    else
      var init := NatToDigits(n / 10);
      var s := init + [('0' as int + n % 10) as char];
      assert s[..|s| - 1] == init;
      s
  }

  /** Span length: the longest prefix of `s` whose characters all satisfy `p`. */
  function Span(s: string, p: char -> bool): (k: nat)
    ensures k <= |s|
    ensures forall i :: 0 <= i < k ==> p(s[i])
    ensures k < |s| ==> !p(s[k])
  {
    if s != [] && p(s[0]) then 1 + Span(s[1..], p) else 0
  }

  /** Any prefix that satisfies `p` and is followed by a character that does
      not (or by the end) is the span. */
  lemma SpanUnique(s: string, p: char -> bool, k: nat)
    requires k <= |s|
    requires forall i :: 0 <= i < k ==> p(s[i])
    requires k < |s| ==> !p(s[k])
    ensures Span(s, p) == k
  {
  }
}
