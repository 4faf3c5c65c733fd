# Value normaliser of voltage-pantry, in Dafny

voltage-pantry is an electronics-inventory tracker. Its one piece of real
logic is `ValueNormalizer` (`src/lib/normalizers/index.ts`). It turns a value
typed by a user into a canonical base value and a display string. There are
three static parsers:

- `normalizeCapacitance` reads "4.7uF" as 4.7e-6 farads and shows it as 4.7 µF.
- `normalizeResistance` reads a number with an optional unit suffix, in ohms.
- `normalizeSwitch` reads "2p2t" or a named configuration such as "dpdt".
  The base value is poles·10 + throws.

The model is pure Dafny: datatypes, functions and lemmas, one module per
concern.

- `Text` covers `toLowerCase()` followed by `replace(/\s+/g, '')` (`Clean`),
  `includes` (`Contains`), `parseInt` on digit strings, and upper-casing.
- `Decimal` covers scaling by powers of ten. Every multiplier in the unit
  tables is a power of ten, so a unit is stored with its exponent, and
  `value * multiplier` becomes `TimesPow10(value, exponent)`. The lemmas
  relate this scaling to multiplication.
- `Lexing` covers the three regular expressions. Each is modelled twice:
  - a predicate on the capture groups (`IsValueMatch`, `IsSwitchMatch`);
  - a splitter proved to return exactly those captures (`MatchValue`,
    `MatchSwitch`).

  It also covers `parseFloat` on the captured decimal, as an exact rational.
- `Units` covers the three tables and the lookup "first entry, in table
  order, one of whose aliases is a substring of the suffix".
- `ValueNormalizer` covers the three parsers, the two magnitude ladders and
  the display formatting. A thrown `Error` is an `Err` result carrying the
  error kind. `Message()` gives the exact message text.
- `NormalizerProperties`, `SwitchProperties` and `ValueExamples` hold the
  lemmas. They state what the parsers promise over all inputs, plus the
  worked examples.

The model follows the code as written. Three consequences are worth knowing.

- The resistance table lists the empty string as an alias of the base unit,
  and milli comes first. So the lookup yields milli when the suffix contains
  `m` and base otherwise. Kilo and mega are never selected:
  - "10k" is 10 Ω;
  - "10ohm" is 10 mΩ;
  - a kΩ or MΩ display does not read back to the value it shows.
- A named switch is displayed as its upper-cased name ("DPDT"), not as
  "2P2T".
- There is no `normalizeValue` dispatcher and no "unsupported value type"
  error. A caller refers to one, but `index.ts` does not define it.

The display string `${scaledValue}${preferredSymbol}` is modelled as the
pair `Scaled(magnitude, symbol)`. The switch display, which is plain text,
is modelled as `Label(text)`.

## Model

| member | source | states |
|---|---|---|
| Units.UnitDefinition.Multiplier | src/lib/normalizers/index.ts:10-14 | a unit's multiplier, 10^exponent, is positive |
| Units.AnyIncluded | src/lib/normalizers/index.ts:56 | `symbol.some(s => unitStr.includes(s))` holds iff some alias is a substring of the suffix |
| Units.FindFirst | src/lib/normalizers/index.ts:55-57 | `find` returns the first entry that accepts the suffix: it accepts, no earlier entry does, and there is no result iff no entry accepts |
| Units.Resolve | src/lib/normalizers/index.ts:55-57 | the entry found is in the table and accepts the suffix; none is found iff no entry accepts |
| Units.FindFirstIs | src/lib/normalizers/index.ts:55-57 | an accepting entry with no accepting entry before it is the one found |
| Units.AcceptsByLetters | src/lib/normalizers/index.ts:56 | an entry whose aliases all start with its one-letter aliases accepts a suffix iff one of those letters occurs in it |
| Units.CapacitanceAccepts | src/lib/normalizers/index.ts:16-22 | pico accepts iff `p` occurs, nano iff `n`, micro iff `u` or `µ`, milli iff `m`, base iff `f` |
| Units.CapacitanceResolution | src/lib/normalizers/index.ts:55-61 | the capacitance lookup equals the letter ladder p → pico, n → nano, u/µ → micro, m → milli, f → base, else unknown |
| Units.ResistanceResolution | src/lib/normalizers/index.ts:24-29 | the resistance lookup always succeeds and yields milli iff the suffix contains `m`, base otherwise; kilo and mega are never yielded |
| Text.LowerChar | src/lib/normalizers/index.ts:43 | lower-casing one character leaves no ASCII capital, and does not change whether it is white space, a digit or the point |
| Text.StripMembers | src/lib/normalizers/index.ts:43 | stripping white space keeps exactly the characters of the input that are not white space |
| Text.Clean | src/lib/normalizers/index.ts:43 | `toLowerCase()` then `replace(/\s+/g, '')` yields a string no longer than the input, with no white space, in which every character is its own lower-case form |
| Text.CleanAppend | src/lib/normalizers/index.ts:43 | cleaning distributes over concatenation |
| Text.CleanIsClean | src/lib/normalizers/index.ts:43 | cleaning is idempotent: cleaning a cleaned string changes nothing |
| Text.CleanUpper | src/lib/normalizers/index.ts:128 | upper-casing a string of digits and lower-case letters, then cleaning it, gives the string back |
| Text.Upper | src/lib/normalizers/index.ts:128 | `toUpperCase` leaves no lower-case ASCII letter, keeps the length, and lower-casing its result gives the lower-cased input |
| Text.Contains | src/lib/normalizers/index.ts:56 | `u.includes(s)` holds iff `s` occurs in `u` at some index |
| Text.ContainsChar | src/lib/normalizers/index.ts:56 | a one-character alias is included iff the character occurs |
| Text.NatToDigits | src/lib/normalizers/index.ts:116 | the decimal digit string of n is nonempty, has no leading zero, and `parseInt` reads it back as n |
| Text.DigitsValue | src/lib/normalizers/index.ts:116 | `parseInt` of a digit string is zero iff every digit is `0` |
| Lexing.DigitsAppend | src/lib/normalizers/index.ts:116 | positional notation: the digits of `w` then `f` read as `w` shifted left by one decimal place per digit of `f`, plus `f` |
| Decimal.TimesPow10 | src/lib/normalizers/index.ts:63 | scaling keeps the sign: non-negative and positive values stay so |
| Decimal.TimesPow10Add | src/lib/normalizers/index.ts:153 | scaling by 10^a and then 10^b is scaling by 10^(a+b) |
| Decimal.TimesPow10Sum | src/lib/normalizers/index.ts:63 | scaling distributes over addition |
| Decimal.TimesPow10Inverse | src/lib/normalizers/index.ts:153 | dividing by a multiplier and multiplying back gives the value |
| Decimal.TimesPow10Linear | src/lib/normalizers/index.ts:63 | scaling by 10^e is multiplication by 10^e |
| Decimal.TimesPow10Monotone | src/lib/normalizers/index.ts:63 | scaling preserves strict order |
| Decimal.TimesPow10Shrinks | src/lib/normalizers/index.ts:153 | a positive value scaled by a negative power of ten gets smaller |
| Lexing.DecimalParts | src/lib/normalizers/index.ts:45 | a string splits into integer and fraction digits iff it is `\d*\.?\d+`, and the parts rebuild the string |
| Lexing.ParseFloatValue | src/lib/normalizers/index.ts:52 | `parseFloat` of a decimal with integer digits `w` and fraction digits `f`, scaled up by one power of ten per digit of `f`, is the integer spelled by `w` then `f` (so "4.7" is 47/10) |
| Lexing.ParseFloatDigits | src/lib/normalizers/index.ts:52 | a digit string is a decimal whose value is its integer value |
| Lexing.DecimalPartsPoint | src/lib/normalizers/index.ts:45 | `<digits>.<digits>` splits at its point |
| Lexing.MatchValue | src/lib/normalizers/index.ts:45 | the value regex matches iff captures exist, and then it returns exactly the only possible captures (for `[a-zµ]+` and `[a-zΩ]*` with the `i` flag) |
| Lexing.MatchSwitch | src/lib/normalizers/index.ts:112 | `^(\d+)p(\d+)t$` matches iff captures exist, and then it returns exactly the only possible captures |
| ValueNormalizer.PreferredCapacitanceUnit | src/lib/normalizers/index.ts:137-143 | the ladder returns an entry of the capacitance table; NormalizerProperties.CapacitanceLadder characterises which one |
| ValueNormalizer.PreferredResistanceUnit | src/lib/normalizers/index.ts:145-150 | the ladder returns an entry of the resistance table; NormalizerProperties.ResistanceLadder characterises which one |
| ValueNormalizer.FormatValue | src/lib/normalizers/index.ts:152-160 | the display carries the unit's preferred symbol, the shown number scaled back by the multiplier is the base value, and it is non-negative for a non-negative base |
| ValueNormalizer.CapacitanceDisplay | src/lib/normalizers/index.ts:66-67 | the display carries the symbol of the unit the ladder picks, and from 1e-9 F up to 1 F the shown number lies in [1, 1000) |
| ValueNormalizer.ResistanceDisplay | src/lib/normalizers/index.ts:97-98 | the display carries the symbol of the unit the ladder picks, and from 1 Ω up to 1e6 Ω the shown number lies in [1, 1000) |
| ValueNormalizer.MessagesDistinct | src/lib/normalizers/index.ts:48-134 | the four thrown errors carry four different messages: "Invalid capacitance format", "Unknown capacitance unit", "Invalid resistance format", "Invalid switch configuration" |
| ValueNormalizer.NormalizeCapacitance | src/lib/normalizers/index.ts:41-75 | success carries "farad"/capacitance, a non-negative base and the display derived from the base alone; a failure is a format or unknown-unit error |
| ValueNormalizer.NormalizeResistance | src/lib/normalizers/index.ts:77-106 | success carries "ohm"/resistance, a non-negative base and the display derived from the base alone; the only failure is the format error |
| ValueNormalizer.NormalizeSwitch | src/lib/normalizers/index.ts:108-135 | success carries "configuration"/switch, a non-negative base and a text display; it succeeds iff the cleaned input has the explicit form or is one of the six names; the only failure is "Invalid switch configuration" |
| NormalizerProperties.CapacitanceFormatCheck | src/lib/normalizers/index.ts:43-49 | "Invalid capacitance format" occurs iff the cleaned input does not match the value regex |
| NormalizerProperties.CapacitanceUnitLookup | src/lib/normalizers/index.ts:55-63 | after a match, the result is "Unknown capacitance unit" iff no unit letter occurs in the suffix; otherwise the base is the parsed number scaled by the unit the letter ladder picks |
| NormalizerProperties.ResistanceFormatCheck | src/lib/normalizers/index.ts:80-84 | resistance fails iff the cleaned input does not match, and then only with "Invalid resistance format" |
| NormalizerProperties.ResistanceUnitLookup | src/lib/normalizers/index.ts:86-94 | after a match, the resistance always succeeds, with the number scaled by 10^-3 when the suffix contains `m` and unscaled otherwise |
| NormalizerProperties.NumberIsClean | src/lib/normalizers/index.ts:78 | a string of digits and points is unchanged by cleaning |
| NormalizerProperties.ResistanceBareNumber | src/lib/normalizers/index.ts:79-94 | a bare number n is n ohms, displayed from n |
| NormalizerProperties.CapacitanceLadder | src/lib/normalizers/index.ts:137-143 | a capacitance unit is the one the ladder picks iff the value shown in it lies in [1, 1000), with no lower bound for pico and no upper bound for farads |
| NormalizerProperties.ResistanceLadder | src/lib/normalizers/index.ts:145-150 | a resistance unit is the one the ladder picks iff the value shown in it lies in [1, 1000), with no lower bound for milli and no upper bound for mega |
| NormalizerProperties.DisplayTimesMultiplier | src/lib/normalizers/index.ts:152-155 | the displayed number times the display unit's multiplier is the base value |
| NormalizerProperties.BaseIsProduct | src/lib/normalizers/index.ts:63 | the base value is the parsed number times the unit's multiplier |
| NormalizerProperties.LaddersMonotone | src/lib/normalizers/index.ts:137-150 | a larger value never gets a display unit with a smaller multiplier |
| NormalizerProperties.CapacitanceDeterminedByBase | src/lib/normalizers/index.ts:63-74 | two successful capacitance results with the same base are identical |
| NormalizerProperties.ResistanceDeterminedByBase | src/lib/normalizers/index.ts:94-105 | two successful resistance results with the same base are identical |
| NormalizerProperties.CapacitanceSymbolResolves | src/lib/normalizers/index.ts:16-22 | each preferred capacitance symbol, cleaned, is a valid suffix that resolves to its own unit |
| NormalizerProperties.CleanAfterNumber | src/lib/normalizers/index.ts:43 | cleaning a decimal followed by a symbol only cleans the symbol |
| NormalizerProperties.CapacitanceDisplayRoundTrip | src/lib/normalizers/index.ts:41-75 | normalising a capacitance display (its number written as a decimal) gives back the same result |
| NormalizerProperties.ResistanceSymbolResolves | src/lib/normalizers/index.ts:24-29 | each preferred resistance symbol, cleaned, is a valid suffix, and it contains `m` iff the unit is milli or mega ("MΩ" cleans to "mω") |
| NormalizerProperties.ResistanceReadBack | src/lib/normalizers/index.ts:77-106 | a number followed by "mΩ" or "MΩ" reads as milliohms; followed by "Ω" or "kΩ" it reads as ohms |
| NormalizerProperties.ResistanceDisplayRoundTrip | src/lib/normalizers/index.ts:77-106 | normalising a resistance display always succeeds, and gives back the same result iff the base is below 1000 Ω |
| SwitchProperties.SwitchExplicitForm | src/lib/normalizers/index.ts:112-121 | an explicit match gives poles·10 + throws from the captured digits and displays `<poles>P<throws>T` from the captured strings |
| SwitchProperties.SwitchNamedForm | src/lib/normalizers/index.ts:124-132 | a cleaned input that is one of the six names gives poles·10 + throws from the table and displays the upper-cased name |
| SwitchProperties.NamedNotExplicit | src/lib/normalizers/index.ts:31-38 | no name in the table has the explicit form |
| SwitchProperties.SwitchMatchShape | src/lib/normalizers/index.ts:112 | an explicit form starts with a digit and has a digit just before its final `t` |
| SwitchProperties.SwitchRejected | src/lib/normalizers/index.ts:134 | input that is neither form is rejected with "Invalid switch configuration" |
| SwitchProperties.ExplicitDisplayCleans | src/lib/normalizers/index.ts:117 | `<poles>P<throws>T` cleans to `<poles>p<throws>t` |
| SwitchProperties.NameChars | src/lib/normalizers/index.ts:31-38 | every name is made of digits and lower-case letters |
| SwitchProperties.SwitchDisplayRoundTrip | src/lib/normalizers/index.ts:108-135 | normalising the display of any switch result gives the same result |
| SwitchProperties.ExplicitDisplayRoundTrip | src/lib/normalizers/index.ts:112-121 | normalising `<poles>P<throws>T` gives the same result as the explicit input |
| SwitchProperties.NamedDisplayRoundTrip | src/lib/normalizers/index.ts:124-132 | normalising the upper-cased name gives the same result as the named input |
| SwitchProperties.NamedValuesDistinct | src/lib/normalizers/index.ts:31-38 | the six named configurations have six different values |
| SwitchProperties.SwitchEncodingInjective | src/lib/normalizers/index.ts:112-121 | two explicit switches with throw counts below ten both succeed, and have the same value iff they have the same numbers of poles and throws |
| SwitchProperties.SwitchEncodingCollision | src/lib/normalizers/index.ts:116 | "1p12t", "2p2t" and "dpdt" all have value 22 |
| SwitchProperties.SwitchZeroZero | src/lib/normalizers/index.ts:112-121 | "0p0t" is accepted, with value 0 and display "0P0T" |
| SwitchProperties.SwitchTwoTwo | src/lib/normalizers/index.ts:112-121 | "2p2t" has value 22 and display "2P2T" |
| SwitchProperties.SwitchOneTwelve | src/lib/normalizers/index.ts:112-121 | "1p12t" has value 22 and display "1P12T" |
| SwitchProperties.SwitchDpdt | src/lib/normalizers/index.ts:124-132 | "dpdt" has value 22 and display "DPDT" |
| SwitchProperties.SwitchNinePdt | src/lib/normalizers/index.ts:134 | "9pdt" is rejected |
| ValueExamples.CapacitanceUnknownUnit | src/lib/normalizers/index.ts:59-61 | "10xyz" fails with "Unknown capacitance unit" |
| ValueExamples.CapacitanceMicrofarads | src/lib/normalizers/index.ts:41-75 | "4.7uF" is 4.7e-6 F, displayed as 4.7 µF |
| ValueExamples.CapacitanceMicroTier | src/lib/normalizers/index.ts:137-143 | "0.000001F" is 1e-6 F, displayed as 1 µF: exactly 1e-6 falls in the micro tier |
| ValueExamples.ResistanceNoNumber | src/lib/normalizers/index.ts:80-84 | "abc" fails with "Invalid resistance format" |
| ValueExamples.ResistanceBare | src/lib/normalizers/index.ts:79-94 | "220" is 220 Ω, displayed as 220 Ω |
| ValueExamples.ResistanceKiloIsOhms | src/lib/normalizers/index.ts:90-94 | "10k" is 10 Ω, not 10 kΩ |
| ValueExamples.ResistanceOhmIsMilli | src/lib/normalizers/index.ts:90-94 | "10ohm" is 0.01 Ω, displayed as 10 mΩ |

## Left out

- `normalizeValue`: the dispatcher that `src/routes/add/+page.server.ts:58` calls is not defined in `src/lib/normalizers/index.ts`. It is not modelled, and neither is an "unsupported value type" error.
- The `voltage` and `current` tags of `ComponentValueType` appear in the `ValueType` datatype, but no parser produces them, because none exists in the source.
- Number-to-string conversion: `${scaledValue}` (exponent notation, long floating-point tails) is not modelled. A display is the pair of the exact scaled number and the symbol.
- IEEE-754 doubles: numbers are exact reals, so ladder boundaries such as 1e-9 are compared exactly, and there is no rounding in `value * multiplier` or `baseValue / multiplier`.
- `parseFloat` and `parseInt` overflow and precision loss on very long digit strings are not modelled.
- `toLowerCase` is modelled only for ASCII letters and the four characters whose lower-case forms belong to the unit classes: Greek capital mu, Greek capital omega, the ohm sign and the Kelvin sign. Other characters are left unchanged. `toUpperCase` is modelled for ASCII only, which covers the six switch names.
- `SWITCH_PATTERNS[cleaned]` is a finite map with exactly six keys. Inherited object properties such as "constructor" are not modelled as hits.
- NormalizerProperties.CapacitanceDisplayRoundTrip: the displayed number is taken as any decimal literal `t` whose exact value is the magnitude, since the number's text form is not modelled.
- NormalizerProperties.ResistanceDisplayRoundTrip: the same assumption applies to the displayed number.
- ValueNormalizer.PreferredCapacitanceUnit: its own contract states only that it returns a table entry. The tier it picks is stated by NormalizerProperties.CapacitanceLadder.
- ValueNormalizer.PreferredResistanceUnit: its own contract states only that it returns a table entry. The tier it picks is stated by NormalizerProperties.ResistanceLadder.
- The route files, hook files, database types and the Supabase I/O around the normaliser are not part of this model.
