/** What `normalizeSwitch` promises: the explicit `<poles>p<throws>t` form
    is tried first and keeps the captured digits in its display; the named
    form is an exact lookup in the six-entry table and displays the name in
    upper case; re-normalising any switch display gives the same result. */
module SwitchProperties {
  import opened Results
  import opened Text
  import opened Lexing
  import opened Units
  import opened ValueNormalizer

  /** A switch result with composite value `poles * 10 + throws` and the
      given display text. */
  function SwitchValue(poles: nat, throws: nat, text: string): NormalizedValue {
    NormalizedValue((poles * 10 + throws) as real, Label(text), "configuration", Switch)
  }

  /** Whenever the cleaned input matches `^(\d+)p(\d+)t$`, the explicit form
      decides: the captured digit strings give the value and are copied into
      the display, leading zeros included, with no range check. */
  lemma SwitchExplicitForm(input: string, poles: string, throws: string)
    requires IsSwitchMatch(Clean(input), poles, throws)
    ensures NormalizeSwitch(input)
         == Ok(SwitchValue(DigitsValue(poles), DigitsValue(throws), poles + "P" + throws + "T"))
  {
  }

  /** A named configuration, given in any ASCII case, is looked up exactly:
      its value comes from the table and its display is the upper-cased
      name. */
  lemma SwitchNamedForm(input: string)
    requires Clean(input) in SwitchPatterns
    ensures NormalizeSwitch(input)
         == Ok(SwitchValue(SwitchPatterns[Clean(input)].poles, SwitchPatterns[Clean(input)].throws,
                           Upper(Clean(input))))
  {
    NamedNotExplicit(Clean(input));
  }

  /** No name in the table has the explicit form, so the two forms never
      compete for the same input. */
  lemma NamedNotExplicit(name: string)
    requires name in SwitchPatterns
    ensures MatchSwitch(name).None?
  {
    assert name in {"spst", "spdt", "dpst", "dpdt", "3pdt", "4pdt"};
    SwitchMatchShape(name);
  }

  /** Any explicit form starts with a digit and has a digit just before
      its final `t`. */
  lemma SwitchMatchShape(s: string)
    ensures forall p, t :: IsSwitchMatch(s, p, t) ==> |s| >= 4 && IsDigit(s[0]) && IsDigit(s[|s| - 2])
  {
    forall p, t | IsSwitchMatch(s, p, t) ensures |s| >= 4 && IsDigit(s[0]) && IsDigit(s[|s| - 2]) {
      assert s[0] == p[0];
      assert s[|s| - 2] == t[|t| - 1];
    }
  }

  /** Input that is neither form is rejected. */
  lemma SwitchRejected(input: string)
    requires forall p, t :: !IsSwitchMatch(Clean(input), p, t)
    requires Clean(input) !in SwitchPatterns
    ensures NormalizeSwitch(input) == Err(InvalidSwitchConfiguration)
  {
  }

  /** Any digit strings written as `<poles>P<throws>T`, in either case,
      are accepted by the explicit form. */
  lemma ExplicitDisplayCleans(poles: string, throws: string)
    requires AllDigits(poles) && AllDigits(throws)
    ensures Clean(poles + "P" + throws + "T") == poles + "p" + throws + "t"
  {
    CleanAppend(poles + "P" + throws, "T");
    CleanAppend(poles + "P", throws);
    CleanAppend(poles, "P");
    CleanSingle('P');
    CleanSingle('T');
    CleanOfLowerAscii(poles);
    CleanOfLowerAscii(throws);
  }

  /** Every name in the table is made of digits and lower-case letters. */
  lemma NameChars(name: string)
    requires name in SwitchPatterns
    ensures forall i :: 0 <= i < |name| ==> IsDigit(name[i]) || IsAsciiLower(name[i])
  {
    assert name in {"spst", "spdt", "dpst", "dpdt", "3pdt", "4pdt"};
  }

  /** Re-normalising the display of any switch result gives the same
      result: "2P2T" reads back as `2p2t`, "DPDT" as `dpdt`. */
  lemma SwitchDisplayRoundTrip(input: string)
    requires NormalizeSwitch(input).Ok?
    ensures NormalizeSwitch(NormalizeSwitch(input).value.displayValue.text) == NormalizeSwitch(input)
  {
    match MatchSwitch(Clean(input))
    case Some((poles, throws)) =>
      ExplicitDisplayRoundTrip(input, poles, throws);
    case None =>
      NamedDisplayRoundTrip(input);
  }

  lemma ExplicitDisplayRoundTrip(input: string, poles: string, throws: string)
    requires IsSwitchMatch(Clean(input), poles, throws)
    ensures NormalizeSwitch(poles + "P" + throws + "T") == NormalizeSwitch(input)
  {
    ExplicitDisplayCleans(poles, throws);
    SwitchExplicitForm(poles + "P" + throws + "T", poles, throws);
    SwitchExplicitForm(input, poles, throws);
  }

  lemma NamedDisplayRoundTrip(input: string)
    requires MatchSwitch(Clean(input)).None? && Clean(input) in SwitchPatterns
    ensures NormalizeSwitch(Upper(Clean(input))) == NormalizeSwitch(input)
  {
    NameChars(Clean(input));
    CleanUpper(Clean(input));
    SwitchNamedForm(Upper(Clean(input)));
    SwitchNamedForm(input);
  }

  /** The six named configurations have six different values. */
  lemma NamedValuesDistinct(a: string, b: string)
    requires a in SwitchPatterns && b in SwitchPatterns && a != b
    ensures SwitchPatterns[a].poles * 10 + SwitchPatterns[a].throws
         != SwitchPatterns[b].poles * 10 + SwitchPatterns[b].throws
  {
    assert a in {"spst", "spdt", "dpst", "dpdt", "3pdt", "4pdt"};
    assert b in {"spst", "spdt", "dpst", "dpdt", "3pdt", "4pdt"};
  }

  /** Two explicit switches with one-digit throw counts have the same value
      exactly when they have the same numbers of poles and throws. */
  lemma {:induction false} SwitchEncodingInjective(a: string, pa: string, ta: string, b: string, pb: string, tb: string)
    requires IsSwitchMatch(Clean(a), pa, ta) && IsSwitchMatch(Clean(b), pb, tb)
    requires DigitsValue(ta) < 10 && DigitsValue(tb) < 10
    ensures NormalizeSwitch(a).Ok? && NormalizeSwitch(b).Ok?
    ensures NormalizeSwitch(a).value.baseValue == NormalizeSwitch(b).value.baseValue
        <==> DigitsValue(pa) == DigitsValue(pb) && DigitsValue(ta) == DigitsValue(tb)
  {
    SwitchExplicitForm(a, pa, ta);
    SwitchExplicitForm(b, pb, tb);
    EncodingDigits(NormalizeSwitch(a).value.baseValue, NormalizeSwitch(b).value.baseValue,
      DigitsValue(pa), DigitsValue(ta), DigitsValue(pb), DigitsValue(tb));
  }

  /** poles * 10 + throws determines poles and throws below ten. */
  lemma EncodingDigits(x: real, y: real, p1: nat, t1: nat, p2: nat, t2: nat)
    requires t1 < 10 && t2 < 10
    requires x == (p1 * 10 + t1) as real && y == (p2 * 10 + t2) as real
    ensures x == y <==> p1 == p2 && t1 == t2
  {
  }

  /** "0p0t" is accepted, with no range check, as value 0. */
  lemma SwitchZeroZero()
    ensures NormalizeSwitch("0p0t") == Ok(SwitchValue(0, 0, "0P0T"))
  {
    ZeroZeroClean();
    ZeroZeroMatch();
  }

  lemma ZeroZeroClean()
    ensures Clean("0p0t") == "0p0t"
  {
    CleanOfLowerAscii("0p0t");
  }

  lemma ZeroZeroMatch()
    ensures MatchSwitch("0p0t") == Some(("0", "0"))
    ensures DigitsValue("0") == 0 && "0" + "P" + "0" + "T" == "0P0T"
  {
    assert "0p0t" == "0" + "p" + "0" + "t";
    assert IsSwitchMatch("0p0t", "0", "0");
  }

  /** "2p2t" is 22, shown as "2P2T". */
  lemma SwitchTwoTwo()
    ensures NormalizeSwitch("2p2t") == Ok(SwitchValue(2, 2, "2P2T"))
  {
    TwoTwoClean();
    TwoTwoMatch();
  }

  lemma TwoTwoClean()
    ensures Clean("2p2t") == "2p2t"
  {
    CleanOfLowerAscii("2p2t");
  }

  lemma TwoTwoMatch()
    ensures MatchSwitch("2p2t") == Some(("2", "2"))
    ensures DigitsValue("2") == 2 && "2" + "P" + "2" + "T" == "2P2T"
  {
    assert "2p2t" == "2" + "p" + "2" + "t";
    assert IsSwitchMatch("2p2t", "2", "2");
  }

  /** "1p12t" is also 22, shown as "1P12T". */
  lemma SwitchOneTwelve()
    ensures NormalizeSwitch("1p12t") == Ok(SwitchValue(1, 12, "1P12T"))
  {
    OneTwelveClean();
    OneTwelveMatch();
  }

  lemma OneTwelveClean()
    ensures Clean("1p12t") == "1p12t"
  {
    CleanOfLowerAscii("1p12t");
  }

  lemma OneTwelveMatch()
    ensures MatchSwitch("1p12t") == Some(("1", "12"))
    ensures DigitsValue("1") == 1 && DigitsValue("12") == 12 && "1" + "P" + "12" + "T" == "1P12T"
  {
    assert "1p12t" == "1" + "p" + "12" + "t";
    assert IsSwitchMatch("1p12t", "1", "12");
  }

  /** "dpdt" is 22, shown as "DPDT" rather than "2P2T". */
  lemma SwitchDpdt()
    ensures NormalizeSwitch("dpdt") == Ok(SwitchValue(2, 2, "DPDT"))
  {
    DpdtClean();
    DpdtNamed();
  }

  lemma DpdtClean()
    ensures Clean("dpdt") == "dpdt"
  {
    CleanOfLowerAscii("dpdt");
  }

  lemma DpdtNamed()
    ensures MatchSwitch("dpdt").None?
    ensures Upper("dpdt") == "DPDT"
  {
    NamedNotExplicit("dpdt");
  }

  /** "9pdt" is neither form and is rejected. */
  lemma SwitchNinePdt()
    ensures NormalizeSwitch("9pdt") == Err(InvalidSwitchConfiguration)
  {
    NinePdtClean();
    NinePdtNoMatch();
  }

  lemma NinePdtClean()
    ensures Clean("9pdt") == "9pdt"
  {
    CleanOfLowerAscii("9pdt");
  }

  lemma NinePdtNoMatch()
    ensures MatchSwitch("9pdt").None?
  {
    SwitchMatchShape("9pdt");
  }

  /** The composite value identifies the configuration only while the
      throw count has one digit: "1p12t", "2p2t" and "dpdt" are all 22. */
  lemma SwitchEncodingCollision()
    ensures SwitchValue(1, 12, "1P12T").baseValue == SwitchValue(2, 2, "2P2T").baseValue == 22.0
    ensures NormalizeSwitch("1p12t").Ok? && NormalizeSwitch("2p2t").Ok? && NormalizeSwitch("dpdt").Ok?
    ensures NormalizeSwitch("1p12t").value.baseValue == NormalizeSwitch("2p2t").value.baseValue
         == NormalizeSwitch("dpdt").value.baseValue
  {
    SwitchOneTwelve();
    SwitchTwoTwo();
    SwitchDpdt();
  }
}
