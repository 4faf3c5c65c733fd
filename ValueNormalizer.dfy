/** `ValueNormalizer`: the three parsers, the magnitude ladders that choose
    a display unit, and the display formatting. Thrown errors are `Err`
    results carrying the error kind. */
module ValueNormalizer {
  import opened Results
  import opened Text
  import opened Decimal
  import opened Lexing
  import opened Units

  /** `ComponentValueType` */
  datatype ValueType = Capacitance | Resistance | Switch | Voltage | Current

  /** The display string. A scaled value is the number followed by the
      unit's preferred symbol; the number's rendering as text is left
      abstract. A switch display is plain text. */
  datatype DisplayValue =
    | Scaled(magnitude: real, symbol: string)
    | Label(text: string)

  datatype NormalizedValue = NormalizedValue(
    baseValue: real,
    displayValue: DisplayValue,
    unit: string,
    valueType: ValueType)

  /** The errors the parsers throw. */
  datatype NormalizeError =
    | InvalidCapacitanceFormat
    | UnknownCapacitanceUnit
    | InvalidResistanceFormat
    | InvalidSwitchConfiguration
  {
    function Message(): string {
      match this
      case InvalidCapacitanceFormat => "Invalid capacitance format"
      case UnknownCapacitanceUnit => "Unknown capacitance unit"
      case InvalidResistanceFormat => "Invalid resistance format"
      case InvalidSwitchConfiguration => "Invalid switch configuration"
    }
  }

  /** The four errors carry four different messages. */
  lemma MessagesDistinct(a: NormalizeError, b: NormalizeError)
    requires a != b
    ensures a.Message() != b.Message()
  {
  }

  /** `b` shown in unit `d` of a ladder `table` has a magnitude in
      [1, 1000), except that the lowest unit has no lower bound and the
      highest unit no upper bound. */
  ghost predicate FitsTier(b: real, d: UnitDefinition, table: seq<UnitDefinition>)
    requires table != []
  {
    (d == table[0] || 1.0 <= TimesPow10(b, -d.exponent))
    && (d == table[|table| - 1] || TimesPow10(b, -d.exponent) < 1000.0)
  }

  /** `getPreferredCapacitanceUnit` */
  function PreferredCapacitanceUnit(b: real): (d: UnitDefinition)
    ensures d in CapacitanceUnits
  {
    if b < 1e-9 then CapacitancePico
    else if b < 1e-6 then CapacitanceNano
    else if b < 1e-3 then CapacitanceMicro
    else if b < 1.0 then CapacitanceMilli
    else CapacitanceBase
  }

  /** `getPreferredResistanceUnit` */
  function PreferredResistanceUnit(b: real): (d: UnitDefinition)
    ensures d in ResistanceUnits
  {
    if b < 1.0 then ResistanceMilli
    else if b < 1e3 then ResistanceBase
    else if b < 1e6 then ResistanceKilo
    else ResistanceMega
  }

  /** `formatCapacitanceValue` and `formatResistanceValue` (identical): the
      value divided by the unit's multiplier, with the unit's preferred
      symbol; multiplying the magnitude back gives the value. */
  function FormatValue(b: real, d: UnitDefinition): (r: DisplayValue)
    ensures r.Scaled? && r.symbol == d.preferredSymbol
    ensures TimesPow10(r.magnitude, d.exponent) == b
    ensures b >= 0.0 ==> r.magnitude >= 0.0
  {
    TimesPow10Inverse(b, d.exponent);
    Scaled(TimesPow10(b, -d.exponent), d.preferredSymbol)
  }

  /** The capacitance display derived from the base value alone: from a
      nanofarad up to a farad the number shown lies in [1, 1000). */
  function CapacitanceDisplay(b: real): (r: DisplayValue)
    ensures r.Scaled? && r.symbol == PreferredCapacitanceUnit(b).preferredSymbol
    ensures 1e-9 <= b < 1.0 ==> 1.0 <= r.magnitude < 1000.0
  {
    TimesPow10Table(b);
    FormatValue(b, PreferredCapacitanceUnit(b))
  }

  /** The resistance display derived from the base value alone: from an
      ohm up to a megohm the number shown lies in [1, 1000). */
  function ResistanceDisplay(b: real): (r: DisplayValue)
    ensures r.Scaled? && r.symbol == PreferredResistanceUnit(b).preferredSymbol
    ensures 1.0 <= b < 1e6 ==> 1.0 <= r.magnitude < 1000.0
  {
    TimesPow10Table(b);
    FormatValue(b, PreferredResistanceUnit(b))
  }

  /** `normalizeCapacitance` */
  function NormalizeCapacitance(input: string): (r: Result<NormalizedValue, NormalizeError>)
    ensures r.Ok? ==> r.value.unit == "farad" && r.value.valueType == Capacitance
    ensures r.Ok? ==> r.value.baseValue >= 0.0
    ensures r.Ok? ==> r.value.displayValue == CapacitanceDisplay(r.value.baseValue)
    ensures r.Err? ==> r.error == InvalidCapacitanceFormat || r.error == UnknownCapacitanceUnit
  {
    var cleaned := Clean(input);
    match MatchValue(cleaned, CapacitanceSuffix)
    case None => Err(InvalidCapacitanceFormat)
    case Some((valueStr, unitStr)) =>
      var value := ParseFloat(valueStr);
      match Resolve(CapacitanceUnits, unitStr)
      case None => Err(UnknownCapacitanceUnit)
      case Some(unitDef) =>
        var baseValue := TimesPow10(value, unitDef.exponent);
        Ok(NormalizedValue(baseValue, CapacitanceDisplay(baseValue), "farad", Capacitance))
  }

  /** `normalizeResistance`; the `|| RESISTANCE_UNITS.base` fallback is kept
      even though the lookup never fails. */
  function NormalizeResistance(input: string): (r: Result<NormalizedValue, NormalizeError>)
    ensures r.Ok? ==> r.value.unit == "ohm" && r.value.valueType == Resistance
    ensures r.Ok? ==> r.value.baseValue >= 0.0
    ensures r.Ok? ==> r.value.displayValue == ResistanceDisplay(r.value.baseValue)
    ensures r.Err? ==> r.error == InvalidResistanceFormat
  {
    var cleaned := Clean(input);
    match MatchValue(cleaned, ResistanceSuffix)
    case None => Err(InvalidResistanceFormat)
    case Some((valueStr, unitStr)) =>
      var value := ParseFloat(valueStr);
      var unitDef := match Resolve(ResistanceUnits, unitStr)
        case Some(d) => d
        case None => ResistanceBase;
      var baseValue := TimesPow10(value, unitDef.exponent);
      Ok(NormalizedValue(baseValue, ResistanceDisplay(baseValue), "ohm", Resistance))
  }

  /** `normalizeSwitch`: the explicit `<n>p<m>t` form first, then the
      named table; the composite value is poles * 10 + throws. */
  function NormalizeSwitch(input: string): (r: Result<NormalizedValue, NormalizeError>)
    ensures r.Ok? ==> r.value.unit == "configuration" && r.value.valueType == Switch
    ensures r.Ok? ==> r.value.baseValue >= 0.0 && r.value.displayValue.Label?
    ensures r.Err? ==> r.error == InvalidSwitchConfiguration
    ensures r.Ok? <==> (exists p, t :: IsSwitchMatch(Clean(input), p, t)) || Clean(input) in SwitchPatterns
  {
    var cleaned := Clean(input);
    match MatchSwitch(cleaned)
    case Some((poles, throws)) =>
      Ok(NormalizedValue(
        (DigitsValue(poles) * 10 + DigitsValue(throws)) as real,
        Label(poles + "P" + throws + "T"),
        "configuration",
        Switch))
    case None =>
      if cleaned in SwitchPatterns then
        var config := SwitchPatterns[cleaned];
        Ok(NormalizedValue(
          (config.poles * 10 + config.throws) as real,
          Label(Upper(cleaned)),
          "configuration",
          Switch))
      else
        Err(InvalidSwitchConfiguration)
  }
}
