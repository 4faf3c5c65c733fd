/** The unit tables and the lookup the parsers run over them: the first
    definition, in table order, one of whose aliases is included in the
    unit suffix. */
module Units {
  import opened Results
  import opened Text
  import opened Decimal

  /** Accepted aliases, the factor from the unit to the base unit, and the
      symbol used when displaying a value in that unit. Every factor in the
      tables is a power of ten, so it is kept as its exponent: the
      multiplier is 10^exponent. */
  datatype UnitDefinition = UnitDefinition(symbol: seq<string>, exponent: int, preferredSymbol: string)
  {
    /** `multiplier` */
    function Multiplier(): (m: real)
      ensures m > 0.0
    {
      TimesPow10(1.0, exponent)
    }
  }

  const CapacitancePico := UnitDefinition(["p", "pf"], -12, "pF")
  const CapacitanceNano := UnitDefinition(["n", "nf"], -9, "nF")
  const CapacitanceMicro := UnitDefinition(["u", [MicroSign], "uf", [MicroSign, 'f']], -6, [MicroSign, 'F'])
  const CapacitanceMilli := UnitDefinition(["m", "mf"], -3, "mF")
  const CapacitanceBase := UnitDefinition(["f"], 0, "F")

  /** `Object.values(CAPACITANCE_UNITS)`, in insertion order. */
  const CapacitanceUnits: seq<UnitDefinition> :=
    [CapacitancePico, CapacitanceNano, CapacitanceMicro, CapacitanceMilli, CapacitanceBase]

  const ResistanceMilli := UnitDefinition(["m"], -3, ['m', GreekCapitalOmega])
  const ResistanceBase := UnitDefinition(["r", [GreekCapitalOmega], "ohm", "ohms", ""], 0, [GreekCapitalOmega])
  const ResistanceKilo := UnitDefinition(["k"], 3, ['k', GreekCapitalOmega])
  const ResistanceMega := UnitDefinition(["m", "meg"], 6, ['M', GreekCapitalOmega])

  /** `Object.values(RESISTANCE_UNITS)`, in insertion order. */
  const ResistanceUnits: seq<UnitDefinition> :=
    [ResistanceMilli, ResistanceBase, ResistanceKilo, ResistanceMega]

  /** Poles and throws of a named switch configuration. */
  datatype SwitchPattern = SwitchPattern(poles: nat, throws: nat)

  /** `SWITCH_PATTERNS`: exactly six named configurations. */
  const SwitchPatterns: map<string, SwitchPattern> := map[
    "spst" := SwitchPattern(1, 1),
    "spdt" := SwitchPattern(1, 2),
    "dpst" := SwitchPattern(2, 1),
    "dpdt" := SwitchPattern(2, 2),
    "3pdt" := SwitchPattern(3, 2),
    "4pdt" := SwitchPattern(4, 2)
  ]

  /** `symbol.some((s) => unitStr.includes(s))` */
  function AnyIncluded(symbols: seq<string>, unitStr: string): (b: bool)
    ensures b <==> exists i :: 0 <= i < |symbols| && Contains(unitStr, symbols[i])
  {
    if symbols == [] then false
    else
      assert forall i :: 1 <= i < |symbols| ==> symbols[1..][i - 1] == symbols[i];
      Contains(unitStr, symbols[0]) || AnyIncluded(symbols[1..], unitStr)
  }

  predicate Accepts(def: UnitDefinition, unitStr: string) {
    AnyIncluded(def.symbol, unitStr)
  }

  /** `table.find(...)`, as the index of the entry found: the first entry
      that accepts the suffix, or none when no entry does. */
  function FindFirst(table: seq<UnitDefinition>, unitStr: string): (r: Option<nat>)
    ensures r.Some? ==> r.value < |table| && Accepts(table[r.value], unitStr)
    ensures r.Some? ==> forall j :: 0 <= j < r.value ==> !Accepts(table[j], unitStr)
    ensures r.None? <==> forall j :: 0 <= j < |table| ==> !Accepts(table[j], unitStr)
  {
    if table == [] then None
    else if Accepts(table[0], unitStr) then Some(0)
    else
      assert forall j :: 1 <= j < |table| ==> table[1..][j - 1] == table[j];
      match FindFirst(table[1..], unitStr)
      case None => None
      case Some(i) => Some(i + 1)
  }

  /** The unit definition the lookup selects for a suffix. */
  function Resolve(table: seq<UnitDefinition>, unitStr: string): (r: Option<UnitDefinition>)
    ensures r.Some? ==> r.value in table && Accepts(r.value, unitStr)
    ensures r.None? <==> forall d :: d in table ==> !Accepts(d, unitStr)
  {
    match FindFirst(table, unitStr)
    case None => None
    case Some(i) => Some(table[i])
  }

  /** Reference reading of the capacitance lookup, letter by letter: the
      two-letter aliases are redundant, since each contains a one-letter
      alias of the same entry. */
  function CapacitanceUnitFor(unitStr: string): Option<UnitDefinition> {
    if 'p' in unitStr then Some(CapacitancePico)
    else if 'n' in unitStr then Some(CapacitanceNano)
    else if 'u' in unitStr || MicroSign in unitStr then Some(CapacitanceMicro)
    else if 'm' in unitStr then Some(CapacitanceMilli)
    else if 'f' in unitStr then Some(CapacitanceBase)
    else None
  }

  /** The lookup picks entry `i` when it accepts the suffix and no
      earlier entry does. */
  lemma FindFirstIs(table: seq<UnitDefinition>, unitStr: string, i: nat)
    requires i < |table| && Accepts(table[i], unitStr)
    requires forall j :: 0 <= j < i ==> !Accepts(table[j], unitStr)
    ensures Resolve(table, unitStr) == Some(table[i])
  {
    assert FindFirst(table, unitStr).Some?;
  }

  /** An entry whose aliases each begin with one of `letters`, and which
      lists each of those letters on its own, accepts a suffix exactly when
      one of the letters occurs in it. */
  lemma AcceptsByLetters(def: UnitDefinition, letters: seq<char>, unitStr: string)
    requires forall c :: c in letters ==> [c] in def.symbol
    requires forall s :: s in def.symbol ==> s != [] && s[0] in letters
    ensures Accepts(def, unitStr) <==> exists c :: c in letters && c in unitStr
  {
    if Accepts(def, unitStr) {
      var i :| 0 <= i < |def.symbol| && Contains(unitStr, def.symbol[i]);
      assert def.symbol[i] in def.symbol;
      ContainsChars(unitStr, def.symbol[i]);
      assert def.symbol[i][0] in def.symbol[i];
    }
    forall c | c in letters && c in unitStr ensures Accepts(def, unitStr) {
      ContainsChar(unitStr, c);
      var i :| 0 <= i < |def.symbol| && def.symbol[i] == [c];
    }
  }

  lemma CapacitanceAccepts(unitStr: string)
    ensures Accepts(CapacitancePico, unitStr) <==> 'p' in unitStr
    ensures Accepts(CapacitanceNano, unitStr) <==> 'n' in unitStr
    ensures Accepts(CapacitanceMicro, unitStr) <==> 'u' in unitStr || MicroSign in unitStr
    ensures Accepts(CapacitanceMilli, unitStr) <==> 'm' in unitStr
    ensures Accepts(CapacitanceBase, unitStr) <==> 'f' in unitStr
  {
    assert Accepts(CapacitancePico, unitStr) <==> 'p' in unitStr by {
      AcceptsByLetters(CapacitancePico, ['p'], unitStr);
    }
    assert Accepts(CapacitanceNano, unitStr) <==> 'n' in unitStr by {
      AcceptsByLetters(CapacitanceNano, ['n'], unitStr);
    }
    assert Accepts(CapacitanceMicro, unitStr) <==> 'u' in unitStr || MicroSign in unitStr by {
      AcceptsByLetters(CapacitanceMicro, ['u', MicroSign], unitStr);
    }
    assert Accepts(CapacitanceMilli, unitStr) <==> 'm' in unitStr by {
      AcceptsByLetters(CapacitanceMilli, ['m'], unitStr);
    }
    assert Accepts(CapacitanceBase, unitStr) <==> 'f' in unitStr by {
      AcceptsByLetters(CapacitanceBase, ['f'], unitStr);
    }
  }

  /** The capacitance lookup is the letter-by-letter reading above. */
  lemma CapacitanceResolution(unitStr: string)
    ensures Resolve(CapacitanceUnits, unitStr) == CapacitanceUnitFor(unitStr)
  {
    CapacitanceAccepts(unitStr);
    var t := CapacitanceUnits;
    if 'p' in unitStr {
      FindFirstIs(t, unitStr, 0);
    } else if 'n' in unitStr {
      FindFirstIs(t, unitStr, 1);
    } else if 'u' in unitStr || MicroSign in unitStr {
      FindFirstIs(t, unitStr, 2);
    } else if 'm' in unitStr {
      FindFirstIs(t, unitStr, 3);
    } else if 'f' in unitStr {
      FindFirstIs(t, unitStr, 4);
    } else {
      assert forall j :: 0 <= j < |t| ==> !Accepts(t[j], unitStr);
    }
  }

  /** The resistance lookup never fails, because the base entry lists the
      empty alias, and since milli comes first it picks milli exactly when
      the suffix contains `m`: kilo and mega are never selected. */
  lemma ResistanceResolution(unitStr: string)
    ensures Resolve(ResistanceUnits, unitStr)
         == Some(if 'm' in unitStr then ResistanceMilli else ResistanceBase)
  {
    AcceptsByLetters(ResistanceMilli, ['m'], unitStr);
    assert Contains(unitStr, ResistanceBase.symbol[4]);
    if 'm' in unitStr {
      FindFirstIs(ResistanceUnits, unitStr, 0);
    } else {
      FindFirstIs(ResistanceUnits, unitStr, 1);
    }
  }
}
