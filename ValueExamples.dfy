/** Worked inputs for the capacitance and resistance parsers, each stated
    as the full result. Each example is assembled from small facts about
    its own literal strings: what cleaning leaves, what the regex captures,
    the number parsed and the unit chosen. */
module ValueExamples {
  import opened Results
  import opened Text
  import opened Decimal
  import opened Lexing
  import opened Units
  import opened ValueNormalizer
  import opened NormalizerProperties

  /** "10xyz" has the right shape, but no alias of any unit occurs in
      "xyz". */
  lemma CapacitanceUnknownUnit()
    ensures NormalizeCapacitance("10xyz") == Err(UnknownCapacitanceUnit)
  {
    TenXyzClean();
    TenXyzMatch();
    XyzUnknown();
  }

  lemma TenXyzClean()
    ensures Clean("10xyz") == "10xyz"
  {
    CleanOfLowerAscii("10xyz");
  }

  lemma TenXyzMatch()
    ensures MatchValue("10xyz", CapacitanceSuffix) == Some(("10", "xyz"))
  {
    ParseFloatDigits("10");
    assert "10xyz" == "10" + "xyz";
    MatchValueOf("10xyz", CapacitanceSuffix, "10", "xyz");
  }

  lemma XyzUnknown()
    ensures Resolve(CapacitanceUnits, "xyz").None?
  {
    XyzNoUnitLetter();
    CapacitanceResolution("xyz");
  }

  lemma XyzNoUnitLetter()
    ensures CapacitanceUnitFor("xyz").None?
  {
  }

  /** "4.7uF" is 4.7 microfarads, shown as 4.7 µF. */
  lemma CapacitanceMicrofarads()
    ensures NormalizeCapacitance("4.7uF")
         == Ok(NormalizedValue(4.7e-6, Scaled(4.7, [MicroSign, 'F']), "farad", Capacitance))
  {
    FourPointSevenUfClean();
    FourPointSevenUfMatch();
    FourPointSeven();
    UfIsMicro();
    FourPointSevenMicro();
  }

  lemma FourPointSeven()
    ensures DecimalParts("4.7") == Some(("4", "7")) && ParseFloat("4.7") == 4.7
  {
    DecimalPartsPoint("4", "7");
    assert "4" + "." + "7" == "4.7";
    ParseFloatParts("4.7", "4", "7");
  }

  lemma FourPointSevenUfClean()
    ensures Clean("4.7uF") == "4.7uf"
  {
    FourPointSevenClean();
    UfClean();
    CleanAppend("4.7", "uF");
    assert "4.7uF" == "4.7" + "uF";
    assert "4.7uf" == "4.7" + "uf";
  }

  lemma FourPointSevenClean()
    ensures Clean("4.7") == "4.7"
  {
    CleanOfCleanChars("4.7");
  }

  lemma UfClean()
    ensures Clean("uF") == "uf"
  {
    CleanPair('u', 'F');
  }

  lemma FourPointSevenLiteral()
    ensures IsDecimalLiteral("4.7")
  {
    DecimalPartsPoint("4", "7");
    assert "4" + "." + "7" == "4.7";
  }

  lemma FourPointSevenUfMatch()
    ensures MatchValue("4.7uf", CapacitanceSuffix) == Some(("4.7", "uf"))
  {
    FourPointSevenLiteral();
    assert "4.7uf" == "4.7" + "uf";
    MatchValueOf("4.7uf", CapacitanceSuffix, "4.7", "uf");
  }

  lemma UfIsMicro()
    ensures Resolve(CapacitanceUnits, "uf") == Some(CapacitanceMicro)
  {
    UfLetters();
    CapacitanceResolution("uf");
  }

  lemma UfLetters()
    ensures CapacitanceUnitFor("uf") == Some(CapacitanceMicro)
  {
  }

  lemma FourPointSevenMicro()
    ensures TimesPow10(4.7, -6) == 4.7e-6 && TimesPow10(4.7e-6, 6) == 4.7
  {
    TimesPow10Table(4.7);
    TimesPow10Table(4.7e-6);
  }

  /** "0.000001F" is one microfarad: the value is read in farads and the
      ladder moves it to the micro tier, where it shows as 1 µF. */
  lemma CapacitanceMicroTier()
    ensures NormalizeCapacitance("0.000001F")
         == Ok(NormalizedValue(1e-6, Scaled(1.0, [MicroSign, 'F']), "farad", Capacitance))
  {
    OneMillionthFClean();
    OneMillionthFMatch();
    OneMillionth();
    FIsBase();
    OneMillionthMicro();
  }

  lemma OneMillionth()
    ensures DecimalParts("0.000001") == Some(("0", "000001")) && ParseFloat("0.000001") == 1e-6
  {
    DecimalPartsPoint("0", "000001");
    assert "0" + "." + "000001" == "0.000001";
    ParseFloatParts("0.000001", "0", "000001");
    LeadingZerosOne();
    OneMicro();
  }

  lemma LeadingZerosOne()
    ensures DigitsValue("000001") == 1
  {
    assert "000001"[..5] == "00000" && "00000"[..4] == "0000" && "0000"[..3] == "000";
    assert "000"[..2] == "00" && "00"[..1] == "0" && "0"[..0] == "";
  }

  lemma OneMicro()
    ensures TimesPow10(1.0, -6) == 1e-6
  {
    TimesPow10Table(1.0);
  }

  lemma OneMillionthFClean()
    ensures Clean("0.000001F") == "0.000001f"
  {
    OneMillionthClean();
    FaradClean();
    CleanAppend("0.000001", "F");
    assert "0.000001F" == "0.000001" + "F";
    assert "0.000001f" == "0.000001" + "f";
  }

  lemma OneMillionthClean()
    ensures Clean("0.000001") == "0.000001"
  {
    CleanOfCleanChars("0.000001");
  }

  lemma FaradClean()
    ensures Clean("F") == "f"
  {
    CleanSingle('F');
  }

  lemma OneMillionthLiteral()
    ensures IsDecimalLiteral("0.000001")
  {
    DecimalPartsPoint("0", "000001");
    assert "0" + "." + "000001" == "0.000001";
  }

  lemma OneMillionthFMatch()
    ensures MatchValue("0.000001f", CapacitanceSuffix) == Some(("0.000001", "f"))
  {
    OneMillionthLiteral();
    assert "0.000001f" == "0.000001" + "f";
    MatchValueOf("0.000001f", CapacitanceSuffix, "0.000001", "f");
  }

  lemma FIsBase()
    ensures Resolve(CapacitanceUnits, "f") == Some(CapacitanceBase)
  {
    FLetter();
    CapacitanceResolution("f");
  }

  lemma FLetter()
    ensures CapacitanceUnitFor("f") == Some(CapacitanceBase)
  {
  }

  lemma OneMillionthMicro()
    ensures TimesPow10(1e-6, 0) == 1e-6 && TimesPow10(1e-6, 6) == 1.0
  {
    TimesPow10Table(1e-6);
  }

  /** "abc" has no number and fails the resistance format check. */
  lemma ResistanceNoNumber()
    ensures NormalizeResistance("abc") == Err(InvalidResistanceFormat)
  {
    AbcClean();
    AbcNoMatch();
  }

  lemma AbcClean()
    ensures Clean("abc") == "abc"
  {
    CleanOfLowerAscii("abc");
  }

  lemma AbcNoMatch()
    ensures MatchValue("abc", ResistanceSuffix).None?
  {
    assert Span("abc", IsNumberChar) == 0;
  }

  /** "220" is 220 ohms, shown in ohms. */
  lemma ResistanceBare()
    ensures NormalizeResistance("220")
         == Ok(NormalizedValue(220.0, Scaled(220.0, [GreekCapitalOmega]), "ohm", Resistance))
  {
    TwoTwentyDigits();
    ResistanceBareNumber(220);
    TwoTwentyOhms();
  }

  lemma TwoTwentyDigits()
    ensures NatToDigits(220) == "220"
  {
  }

  lemma TwoTwentyOhms()
    ensures ResistanceDisplay(220.0) == Scaled(220.0, [GreekCapitalOmega])
  {
  }

  /** "10k" is 10 ohms, not 10 kilohms: "k" is read by the base entry's
      empty alias. */
  lemma ResistanceKiloIsOhms()
    ensures NormalizeResistance("10k")
         == Ok(NormalizedValue(10.0, Scaled(10.0, [GreekCapitalOmega]), "ohm", Resistance))
  {
    TenKClean();
    TenKMatch();
    KIsBase();
  }

  lemma TenKClean()
    ensures Clean("10k") == "10k"
  {
    CleanOfLowerAscii("10k");
  }

  lemma TenKMatch()
    ensures MatchValue("10k", ResistanceSuffix) == Some(("10", "k"))
    ensures ParseFloat("10") == 10.0
  {
    ParseFloatDigits("10");
    assert "10k" == "10" + "k";
    MatchValueOf("10k", ResistanceSuffix, "10", "k");
  }

  lemma KIsBase()
    ensures Resolve(ResistanceUnits, "k") == Some(ResistanceBase)
  {
    ResistanceResolution("k");
  }

  /** "10ohm" is 10 milliohms: "ohm" contains "m". */
  lemma ResistanceOhmIsMilli()
    ensures NormalizeResistance("10ohm")
         == Ok(NormalizedValue(0.01, Scaled(10.0, ['m', GreekCapitalOmega]), "ohm", Resistance))
  {
    TenOhmClean();
    TenOhmMatch();
    OhmIsMilli();
    TenMilli();
  }

  lemma TenOhmClean()
    ensures Clean("10ohm") == "10ohm"
  {
    CleanOfLowerAscii("10ohm");
  }

  lemma TenOhmMatch()
    ensures MatchValue("10ohm", ResistanceSuffix) == Some(("10", "ohm"))
    ensures ParseFloat("10") == 10.0
  {
    ParseFloatDigits("10");
    assert "10ohm" == "10" + "ohm";
    MatchValueOf("10ohm", ResistanceSuffix, "10", "ohm");
  }

  lemma OhmIsMilli()
    ensures Resolve(ResistanceUnits, "ohm") == Some(ResistanceMilli)
  {
    ResistanceResolution("ohm");
  }

  lemma TenMilli()
    ensures TimesPow10(10.0, -3) == 0.01 && TimesPow10(0.01, 3) == 10.0
  {
    TimesPow10Table(10.0);
    TimesPow10Table(0.01);
  }
}
