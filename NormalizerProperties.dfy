/** What the normaliser promises, stated over all inputs: the format checks,
    how unit suffixes resolve, the magnitude ladders, re-normalising a
    display, and the two switch forms. */
module NormalizerProperties {
  import opened Results
  import opened Text
  import opened Decimal
  import opened Lexing
  import opened Units
  import opened ValueNormalizer

  /** Capacitance input fails with "Invalid capacitance format" exactly when
      its cleaned form does not match `^(\d*\.?\d+)([a-zµ]+)$`. */
  lemma CapacitanceFormatCheck(input: string)
    ensures NormalizeCapacitance(input) == Err(InvalidCapacitanceFormat)
        <==> forall v, u :: !IsValueMatch(Clean(input), CapacitanceSuffix, v, u)
  {
  }

  /** Once the format matches, the suffix decides: no entry accepts it and
      the result is "Unknown capacitance unit", or the first entry that does
      scales the parsed number into farads. */
  lemma CapacitanceUnitLookup(input: string, v: string, u: string)
    requires IsValueMatch(Clean(input), CapacitanceSuffix, v, u)
    ensures NormalizeCapacitance(input) == Err(UnknownCapacitanceUnit) <==> CapacitanceUnitFor(u).None?
    ensures CapacitanceUnitFor(u).Some? ==>
      NormalizeCapacitance(input).Ok?
      && NormalizeCapacitance(input).value.baseValue == TimesPow10(ParseFloat(v), CapacitanceUnitFor(u).value.exponent)
  {
    CapacitanceResolution(u);
  }

  /** Resistance input fails only on its format: every suffix resolves. */
  lemma ResistanceFormatCheck(input: string)
    ensures NormalizeResistance(input).Err?
        <==> forall v, u :: !IsValueMatch(Clean(input), ResistanceSuffix, v, u)
    ensures NormalizeResistance(input).Err? ==> NormalizeResistance(input).error == InvalidResistanceFormat
  {
  }

  /** A matching resistance is read in milliohms exactly when its suffix
      contains `m`, and in ohms otherwise ("10k" is 10 ohms, "10ohm" is
      10 milliohms). */
  lemma ResistanceUnitLookup(input: string, v: string, u: string)
    requires IsValueMatch(Clean(input), ResistanceSuffix, v, u)
    ensures NormalizeResistance(input).Ok?
    ensures NormalizeResistance(input).value.baseValue == TimesPow10(ParseFloat(v), if 'm' in u then -3 else 0)
  {
    ResistanceResolution(u);
  }

  /** A string of digits and points is left unchanged by cleaning. */
  lemma NumberIsClean(t: string)
    requires forall i :: 0 <= i < |t| ==> IsNumberChar(t[i])
    ensures Clean(t) == t
  {
    CleanOfClean(t);
  }

  /** A bare number is a resistance in ohms. */
  lemma ResistanceBareNumber(n: nat)
    ensures NormalizeResistance(NatToDigits(n))
         == Ok(NormalizedValue(n as real, ResistanceDisplay(n as real), "ohm", Resistance))
  {
    var s := NatToDigits(n);
    ParseFloatDigits(s);
    NumberIsClean(s);
    assert s == s + "";
    assert IsValueMatch(Clean(s), ResistanceSuffix, s, "");
    ResistanceUnitLookup(s, s, "");
  }

  /** The capacitance ladder picks the one unit in which the value fits. */
  lemma CapacitanceLadder(b: real, e: UnitDefinition)
    requires e in CapacitanceUnits
    ensures FitsTier(b, e, CapacitanceUnits) <==> e == PreferredCapacitanceUnit(b)
  {
    TimesPow10Table(b);
  }

  /** The resistance ladder picks the one unit in which the value fits. */
  lemma ResistanceLadder(b: real, e: UnitDefinition)
    requires e in ResistanceUnits
    ensures FitsTier(b, e, ResistanceUnits) <==> e == PreferredResistanceUnit(b)
  {
    TimesPow10Table(b);
  }

  /** The displayed number times the display unit's multiplier is the base
      value. */
  lemma DisplayTimesMultiplier(b: real, d: UnitDefinition)
    ensures FormatValue(b, d).magnitude * d.Multiplier() == b
  {
    TimesPow10Linear(FormatValue(b, d).magnitude, d.exponent);
  }

  /** Reading a number in a unit multiplies it by the unit's multiplier. */
  lemma BaseIsProduct(value: real, d: UnitDefinition)
    ensures TimesPow10(value, d.exponent) == value * d.Multiplier()
  {
    TimesPow10Linear(value, d.exponent);
  }

  /** A larger value never gets a smaller display unit. */
  lemma LaddersMonotone(b1: real, b2: real)
    requires b1 <= b2
    ensures PreferredCapacitanceUnit(b1).exponent <= PreferredCapacitanceUnit(b2).exponent
    ensures PreferredResistanceUnit(b1).exponent <= PreferredResistanceUnit(b2).exponent
  {
  }

  /** Two successful capacitance results with the same base value are
      equal: the display is derived from the base value alone. */
  lemma CapacitanceDeterminedByBase(a: string, b: string)
    requires NormalizeCapacitance(a).Ok? && NormalizeCapacitance(b).Ok?
    requires NormalizeCapacitance(a).value.baseValue == NormalizeCapacitance(b).value.baseValue
    ensures NormalizeCapacitance(a) == NormalizeCapacitance(b)
  {
  }

  /** Two successful resistance results with the same base value are
      equal: the display is derived from the base value alone. */
  lemma ResistanceDeterminedByBase(a: string, b: string)
    requires NormalizeResistance(a).Ok? && NormalizeResistance(b).Ok?
    requires NormalizeResistance(a).value.baseValue == NormalizeResistance(b).value.baseValue
    ensures NormalizeResistance(a) == NormalizeResistance(b)
  {
  }

  /** Each capacitance display symbol, cleaned, is a suffix the lookup
      resolves back to the same unit. */
  lemma CapacitanceSymbolResolves(d: UnitDefinition)
    requires d in CapacitanceUnits
    ensures IsUnitSuffix(Clean(d.preferredSymbol), CapacitanceSuffix)
    ensures CapacitanceUnitFor(Clean(d.preferredSymbol)) == Some(d)
  {
    if d == CapacitanceBase {
      CleanSingle('F');
    } else {
      CleanPair(d.preferredSymbol[0], 'F');
    }
  }

  /** Cleaning a decimal followed by a symbol cleans only the symbol. */
  lemma CleanAfterNumber(t: string, sym: string)
    requires IsDecimalLiteral(t)
    ensures Clean(t + sym) == t + Clean(sym)
  {
    DecimalLiteralChars(t);
    NumberIsClean(t);
    CleanAppend(t, sym);
  }

  /** Re-normalising a capacitance display gives back the same result,
      whenever the displayed number is written as a plain decimal. */
  lemma CapacitanceDisplayRoundTrip(input: string, t: string)
    requires NormalizeCapacitance(input).Ok?
    requires IsDecimalLiteral(t)
    requires ParseFloat(t) == NormalizeCapacitance(input).value.displayValue.magnitude
    ensures NormalizeCapacitance(t + NormalizeCapacitance(input).value.displayValue.symbol)
         == NormalizeCapacitance(input)
  {
    var b := NormalizeCapacitance(input).value.baseValue;
    var d := PreferredCapacitanceUnit(b);
    var sym := d.preferredSymbol;
    CapacitanceSymbolResolves(d);
    CleanAfterNumber(t, sym);
    CapacitanceUnitLookup(t + sym, t, Clean(sym));
    CapacitanceDeterminedByBase(t + sym, input);
  }

  /** Each resistance display symbol, cleaned, and whether it contains `m`:
      "kΩ" does not, and "MΩ" lower-cases to "mω", which does. */
  lemma ResistanceSymbolResolves(d: UnitDefinition)
    requires d in ResistanceUnits
    ensures IsUnitSuffix(Clean(d.preferredSymbol), ResistanceSuffix)
    ensures ('m' in Clean(d.preferredSymbol)) <==> (d == ResistanceMilli || d == ResistanceMega)
  {
    if d == ResistanceBase {
      CleanSingle(GreekCapitalOmega);
    } else {
      CleanPair(d.preferredSymbol[0], GreekCapitalOmega);
    }
  }

  /** A resistance display symbol after a decimal is read back in
      milliohms for "mΩ" and "MΩ", and in ohms for "Ω" and "kΩ". */
  lemma ResistanceReadBack(t: string, d: UnitDefinition)
    requires d in ResistanceUnits && IsDecimalLiteral(t)
    ensures NormalizeResistance(t + d.preferredSymbol).Ok?
    ensures NormalizeResistance(t + d.preferredSymbol).value.baseValue
         == TimesPow10(ParseFloat(t), if d == ResistanceMilli || d == ResistanceMega then -3 else 0)
  {
    var sym := d.preferredSymbol;
    ResistanceSymbolResolves(d);
    DecimalLiteralChars(t);
    NumberIsClean(t);
    CleanAppend(t, sym);
    assert IsValueMatch(Clean(t + sym), ResistanceSuffix, t, Clean(sym));
    ResistanceUnitLookup(t + sym, t, Clean(sym));
  }

  /** Re-normalising a resistance display always succeeds, and gives back
      the same result exactly when the value is below 1000 ohms: a display
      in kilohms or megohms is read back 1000 or 10^9 times too small. */
  lemma ResistanceDisplayRoundTrip(input: string, t: string)
    requires NormalizeResistance(input).Ok?
    requires IsDecimalLiteral(t)
    requires ParseFloat(t) == NormalizeResistance(input).value.displayValue.magnitude
    ensures NormalizeResistance(t + NormalizeResistance(input).value.displayValue.symbol).Ok?
    ensures NormalizeResistance(t + NormalizeResistance(input).value.displayValue.symbol)
         == NormalizeResistance(input)
        <==> NormalizeResistance(input).value.baseValue < 1000.0
  {
    var b := NormalizeResistance(input).value.baseValue;
    var d := PreferredResistanceUnit(b);
    ResistanceReadBack(t, d);
    if b < 1000.0 {
      ResistanceDeterminedByBase(t + d.preferredSymbol, input);
    } else {
      // kΩ is read back as Ω, MΩ as mΩ: the base is scaled by 10^-3 or 10^-9
      var back := TimesPow10(TimesPow10(b, -d.exponent), if d == ResistanceKilo then 0 else -3);
      TimesPow10Add(b, -d.exponent, if d == ResistanceKilo then 0 else -3);
      TimesPow10Shrinks(b, if d == ResistanceKilo then -3 else -9);
    }
  }
}
