/** Saturated water: a state on the saturation line is found from one known
    property (a temperature, a pressure, or for liquid water a specific
    enthalpy) by looking up a row of the saturated-water table, whose
    columns are then assigned to the state's fields. */
module Water {
  import opened Units
  import Properties
  import Containers

  /** The table columns a state can be looked up by. */
  datatype Column = TemperatureColumn | PressureColumn | EnthalpyLiquidColumn
  {
    function Name(): string
    {
      match this
      case TemperatureColumn => "temperature"
      case PressureColumn => "pressure"
      case EnthalpyLiquidColumn => "enthalpy_liquid"
    }
  }

  /** A table row: temperature (°C), pressure (kPa), specific volume of the
      liquid and of the vapour (m³/kg), specific energy of the liquid, of
      vaporisation and of the vapour, specific enthalpy of the liquid, of
      vaporisation and of the vapour (kJ/kg), and the three entropies. */
  type Row = r: seq<real> | |r| == 13
    witness [0.0, 0.0, 0.0, 0.0, 0.0, 0.0, 0.0, 0.0, 0.0, 0.0, 0.0, 0.0, 0.0]

  /** `SaturatedWaterTable.find_state`: the row at a value of a column, or
      None when the table has no such state. */
  type Table = (Column, real) -> Option<Row>

  /** The known property a state is built from: a unit, a property wrapper,
      or anything else. */
  datatype Key = UnitKey(unit: Unit) | PropertyKey(property: Properties.Property) | NoUnit

  /** SaturationLineWater, SaturatedWater and SaturatedSteam. */
  datatype Variant = SaturationLine | Liquid | Steam

  /** The classes that define the attributes `__mul__` looks up, most
      derived first: SaturatedWater and SaturatedSteam inherit from
      SaturationLineWater, and `object`, which ends every list, has no
      `__mul__` and is left implicit. */
  function Mro(v: Variant): (r: seq<Variant>)
    ensures |r| == if v == SaturationLine then 1 else 2
    ensures r[0] == v && r[|r| - 1] == SaturationLine
  {
    if v == SaturationLine then [SaturationLine] else [v, SaturationLine]
  }

  /** The classes after the first `c` in `mro`, where `super(c, self)`
      starts its search. */
  function After(mro: seq<Variant>, c: Variant): (r: seq<Variant>)
    ensures c !in mro ==> r == []
    ensures c in mro ==> |r| < |mro| && mro[|mro| - |r| - 1] == c && r == mro[|mro| - |r|..]
    ensures c in mro ==> c !in mro[..|mro| - |r| - 1]
  {
    if |mro| == 0 then []
    else if mro[0] == c then mro[1..]
    else After(mro[1..], c)
  }

  /** Python's limit on the depth of nested calls; past it a call raises
      RuntimeError. */
  const RecursionDepth: nat := 1000

  /** The first argument `SaturationLineWater.__mul__` hands to `super`:
      `self.__class__` as written, the class that defines the method when
      `repaired`. */
  function SuperArgument(cls: Variant, repaired: bool): Variant
  {
    if repaired then SaturationLine else cls
  }

  /** `super(start, self).__mul__(multiplier)` for a non-amount multiplier
      on an instance of `cls`, with `depth` calls left before the stack is
      exhausted: the next class after `start` that has `__mul__` is
      SaturationLineWater, whose method falls through to `super` again; when
      none is left the attribute is missing on `object`. */
  function SuperMul(cls: Variant, start: Variant, repaired: bool, depth: nat): Error
    decreases depth
  {
    if SaturationLine !in After(Mro(cls), start) then MissingOperation
    else if depth == 0 then RecursionLimit
    else SuperMul(cls, SuperArgument(cls, repaired), repaired, depth - 1)
  }

  /** An instance of `cls` times something that is neither a mass nor a
      volume: the inherited `__mul__` goes straight to `super`. */
  function NonAmountProduct(cls: Variant, repaired: bool, depth: nat): Error
  {
    SuperMul(cls, SuperArgument(cls, repaired), repaired, depth)
  }

  /** As written, `super(self.__class__, self)` on an instance of a subclass
      finds SaturationLineWater's own `__mul__` again, at every depth, so the
      call never ends; on the base class it reaches `object`. */
  lemma {:induction false} AsWrittenNonAmountProduct(cls: Variant, depth: nat)
    ensures NonAmountProduct(cls, false, depth) ==
              if cls == SaturationLine then MissingOperation else RecursionLimit
    decreases depth
  {
    if cls != SaturationLine && depth > 0 {
      assert After(Mro(cls), cls) == [SaturationLine];
      AsWrittenNonAmountProduct(cls, depth - 1);
    }
  }

  /** With `super(SaturationLineWater, self)`, the search starts past the
      defining class and reaches `object` for every class and every depth,
      which is what the base class does as written. */
  lemma NamedSuperReachesObject(cls: Variant, depth: nat)
    ensures NonAmountProduct(cls, true, depth) == MissingOperation
    ensures NonAmountProduct(SaturationLine, true, depth) == NonAmountProduct(SaturationLine, false, depth)
  {
  }

  /** `property_name` of a key. */
  function NameOf(key: Key): (r: string)
    requires !key.NoUnit?
    ensures key.UnitKey? ==> (r == "temperature" <==> DimOf(key.unit.kind) == Temperature)
    ensures key.UnitKey? ==> (r == "pressure" <==> DimOf(key.unit.kind) == Pressure)
    ensures key.PropertyKey? ==> (r == "specific enthalpy" <==> key.property.SpecificEnthalpy?)
  {
    if key.UnitKey? then
      PropertyNameInjective(DimOf(key.unit.kind), Temperature);
      PropertyNameInjective(DimOf(key.unit.kind), Pressure);
      PropertyName(DimOf(key.unit.kind))
    else key.property.Name()
  }

  /** `_find_state` up to the table call: the column and the value to look
      up, or the error raised before any lookup. */
  function Lookup(v: Variant, key: Key): (r: Result<(Column, real)>)
    ensures key.NoUnit? ==> r == Err(UndefinedUnit)
    ensures key.UnitKey? && DimOf(key.unit.kind) == Temperature ==>
              r.Ok? && r.value.0 == TemperatureColumn && Base(Unit(Celcius, r.value.1)) == Base(key.unit)
    ensures key.UnitKey? && DimOf(key.unit.kind) == Pressure ==>
              r.Ok? && r.value.0 == PressureColumn && Base(Unit(KiloPascal, r.value.1)) == Base(key.unit)
    ensures key.UnitKey? && DimOf(key.unit.kind) !in {Temperature, Pressure} ==> r == Err(UnitNotSupported)
    ensures key.PropertyKey? && key.property.Enthalpy? ==> r == Err(UnknownState)
    ensures key.PropertyKey? && key.property.SpecificEnthalpy? ==>
              r == if v == Liquid then Ok((EnthalpyLiquidColumn, key.property.specificEnergy.value))
                   else Err(UnitNotSupported)
  {
    if key.NoUnit? then Err(UndefinedUnit)
    else if v == Liquid && NameOf(key) == "specific enthalpy" then
      Ok((EnthalpyLiquidColumn, key.property.specificEnergy.value))
    else if NameOf(key) == "temperature" then
      PropertyNameInjective(DimOf(key.unit.kind), Temperature);
      Ok((TemperatureColumn, Convert(Celcius, key.unit).value))
    else if NameOf(key) == "pressure" then
      PropertyNameInjective(DimOf(key.unit.kind), Pressure);
      Ok((PressureColumn, Convert(KiloPascal, key.unit).value))
    else if NameOf(key) == "enthalpy" then Err(UnknownState)
    else Err(UnitNotSupported)
  }

  /** `_find_state`: the row of the looked-up state. */
  function FindState(v: Variant, key: Key, table: Table): (r: Result<Row>)
    ensures r.Ok? <==> Lookup(v, key).Ok? && table(Lookup(v, key).value.0, Lookup(v, key).value.1).Some?
    ensures r.Ok? ==> r.value == table(Lookup(v, key).value.0, Lookup(v, key).value.1).value
    ensures Lookup(v, key).Err? ==> r.error == Lookup(v, key).error
    ensures Lookup(v, key).Ok? && r.Err? ==> r.error == UnknownState
  {
    var (column, x) :- Lookup(v, key);
    match table(column, x)
    case None => Err(UnknownState)
    case Some(row) => Ok(row)
  }

  /** A unit key selects the same row for all three classes; only liquid
      water accepts a specific enthalpy. */
  lemma UnitKeysAgree(u: Unit, table: Table)
    ensures FindState(Liquid, UnitKey(u), table) == FindState(SaturationLine, UnitKey(u), table)
    ensures FindState(Steam, UnitKey(u), table) == FindState(SaturationLine, UnitKey(u), table)
  {
  }

  lemma SpecificEnthalpyOnlyForLiquid(h: Unit, table: Table)
    ensures Lookup(Liquid, PropertyKey(Properties.SpecificEnthalpy(h))) == Ok((EnthalpyLiquidColumn, h.value))
    ensures FindState(SaturationLine, PropertyKey(Properties.SpecificEnthalpy(h)), table) == Err(UnitNotSupported)
    ensures FindState(Steam, PropertyKey(Properties.SpecificEnthalpy(h)), table) == Err(UnitNotSupported)
  {
  }

  /** Looking up by temperature: a table that files each row under its own
      temperature gives a state at the temperature asked for, whatever its
      scale. */
  lemma StateAtRequestedTemperature(v: Variant, t: Unit, table: Table)
    requires DimOf(t.kind) == Temperature
    requires forall x :: table(TemperatureColumn, x).Some? ==> table(TemperatureColumn, x).value[0] == x
    ensures FindState(v, UnitKey(t), table).Ok? ==> Base(Unit(Celcius, FindState(v, UnitKey(t), table).value[0])) == Base(t)
  {
  }

  lemma StateAtRequestedPressure(v: Variant, p: Unit, table: Table)
    requires DimOf(p.kind) == Pressure
    requires forall x :: table(PressureColumn, x).Some? ==> table(PressureColumn, x).value[1] == x
    ensures FindState(v, UnitKey(p), table).Ok? ==> Base(Unit(KiloPascal, FindState(v, UnitKey(p), table).value[1])) == Base(p)
  {
  }

  /** 373.15 K is looked up as 100 °C. */
  lemma BoilingPointLookup(v: Variant)
    ensures Lookup(v, UnitKey(Unit(Kelvin, 373.15))) == Ok((TemperatureColumn, 100.0))
  {
  }

  /** The water on the saturation line: all thirteen columns. */
  class SaturationLineWater {
    var temperature: Unit
    var pressure: Unit
    var volumeLiquid: Unit
    var volumeVapor: Unit
    var energyLiquid: Unit
    var energyVaporisation: Unit
    var energyVapor: Unit
    var enthalpyLiquid: Properties.Property
    var enthalpyVaporisation: Properties.Property
    var enthalpyVapor: Properties.Property
    var entropyLiquid: real
    var entropyVaporization: real
    var entropyVapor: real

    /** The fields hold the thirteen columns of `row`, each in its unit;
      the entropies stay bare numbers. */
    predicate IsRow(row: Row)
      reads this
    {
      && temperature == Unit(Celcius, row[0]) && pressure == Unit(KiloPascal, row[1])
      && volumeLiquid == Unit(CubicMeterPerKiloGram, row[2]) && volumeVapor == Unit(CubicMeterPerKiloGram, row[3])
      && energyLiquid == Unit(KJPerKg, row[4]) && energyVaporisation == Unit(KJPerKg, row[5])
      && energyVapor == Unit(KJPerKg, row[6])
      && enthalpyLiquid == Properties.SpecificEnthalpy(Unit(KJPerKg, row[7]))
      && enthalpyVaporisation == Properties.SpecificEnthalpy(Unit(KJPerKg, row[8]))
      && enthalpyVapor == Properties.SpecificEnthalpy(Unit(KJPerKg, row[9]))
      && entropyLiquid == row[10] && entropyVaporization == row[11] && entropyVapor == row[12]
    }

    /** `_set_state` on a row: each column wrapped in its unit. */
    constructor FromRow(row: Row)
      ensures IsRow(row)
    {
      temperature := Unit(Celcius, row[0]);
      pressure := Unit(KiloPascal, row[1]);
      volumeLiquid := Unit(CubicMeterPerKiloGram, row[2]);
      volumeVapor := Unit(CubicMeterPerKiloGram, row[3]);
      energyLiquid := Unit(KJPerKg, row[4]);
      energyVaporisation := Unit(KJPerKg, row[5]);
      energyVapor := Unit(KJPerKg, row[6]);
      enthalpyLiquid := Properties.SpecificEnthalpy(Unit(KJPerKg, row[7]));
      enthalpyVaporisation := Properties.SpecificEnthalpy(Unit(KJPerKg, row[8]));
      enthalpyVapor := Properties.SpecificEnthalpy(Unit(KJPerKg, row[9]));
      entropyLiquid := row[10];
      entropyVaporization := row[11];
      entropyVapor := row[12];
    }

    /** `SaturationLineWater(property_state)`. */
    static method New(key: Key, table: Table) returns (r: Result<SaturationLineWater>)
      ensures r.Ok? <==> FindState(SaturationLine, key, table).Ok?
      ensures r.Ok? ==> fresh(r.value) && r.value.IsRow(FindState(SaturationLine, key, table).value)
      ensures r.Err? ==> r.error == FindState(SaturationLine, key, table).error
    {
      var row := FindState(SaturationLine, key, table);
      if row.Err? {
        return Err(row.error);
      }
      var w := new SaturationLineWater.FromRow(row.value);
      return Ok(w);
    }

    /** What a flask sees of this state: it has no `volume`, `energy` or
      `enthalpy` attribute. */
    function View(): Containers.Substance
    {
      Containers.Substance(None, None, None)
    }

    /** `__mul__`: a flask for a mass or a volume, which fails on the missing
      specific volume; anything else reaches `object`, which has no `*`. */
    method Times(m: Operand) returns (r: Result<Containers.Flask>)
      ensures r == Err(MissingOperation)
    {
      if m.Quantity? && DimOf(m.unit.kind) in {Mass, Volume} {
        r := Containers.Flask.Fill(AsWritten, View(), m);
      } else {
        AsWrittenNonAmountProduct(SaturationLine, RecursionDepth);
        r := Err(NonAmountProduct(SaturationLine, false, RecursionDepth));
      }
    }
  }

  /** Liquid water on the saturation line. */
  class SaturatedWater {
    var temperature: Unit
    var pressure: Unit
    var volume: Unit
    var energy: Unit
    var enthalpy: Properties.Property
    var enthalpyVaporisation: Properties.Property
    var entropy: real

    /** `_set_state` on a row: columns 0, 1, 2, 4, 7, 8 and 10. */
    constructor FromRow(row: Row)
      ensures temperature == Unit(Celcius, row[0]) && pressure == Unit(KiloPascal, row[1])
      ensures volume == Unit(CubicMeterPerKiloGram, row[2])
      ensures energy == Unit(KJPerKg, row[4])
      ensures enthalpy == Properties.SpecificEnthalpy(Unit(KJPerKg, row[7]))
      ensures enthalpyVaporisation == Properties.SpecificEnthalpy(Unit(KJPerKg, row[8]))
      ensures entropy == row[10]
      ensures Valid()
    {
      temperature := Unit(Celcius, row[0]);
      pressure := Unit(KiloPascal, row[1]);
      volume := Unit(CubicMeterPerKiloGram, row[2]);
      energy := Unit(KJPerKg, row[4]);
      enthalpy := Properties.SpecificEnthalpy(Unit(KJPerKg, row[7]));
      enthalpyVaporisation := Properties.SpecificEnthalpy(Unit(KJPerKg, row[8]));
      entropy := row[10];
    }

    /** `SaturatedWater(property_state)`. */
    static method New(key: Key, table: Table) returns (r: Result<SaturatedWater>)
      ensures r.Ok? <==> FindState(Liquid, key, table).Ok?
      ensures r.Ok? ==> fresh(r.value) && r.value.IsRow(FindState(Liquid, key, table).value) && r.value.Valid()
      ensures r.Err? ==> r.error == FindState(Liquid, key, table).error
    {
      var row := FindState(Liquid, key, table);
      if row.Err? {
        return Err(row.error);
      }
      var w := new SaturatedWater.FromRow(row.value);
      return Ok(w);
    }

    /** The fields hold the columns of `row` this class uses. */
    predicate IsRow(row: Row)
      reads this
    {
      && temperature == Unit(Celcius, row[0]) && pressure == Unit(KiloPascal, row[1])
      && volume == Unit(CubicMeterPerKiloGram, row[2]) && energy == Unit(KJPerKg, row[4])
      && enthalpy == Properties.SpecificEnthalpy(Unit(KJPerKg, row[7]))
      && enthalpyVaporisation == Properties.SpecificEnthalpy(Unit(KJPerKg, row[8]))
      && entropy == row[10]
    }

    /** What a flask sees of this state. */
    function View(): Containers.Substance
      reads this
    {
      Containers.Substance(Some(volume), Some(energy), Some(enthalpy))
    }

    /** What a flask sees of this state is a saturated substance. */
    predicate Valid()
      reads this
    {
      Containers.Saturated(View())
    }

    /** `__mul__` (inherited): a flask for a mass or a volume, which always
      raises, at the energy multiply or at a zero specific volume. Anything
      else reaches `super(self.__class__, self).__mul__`, which for an
      instance of this subclass is the same inherited method again, so the
      call recurses until the stack is exhausted. */
    method Times(m: Operand) returns (r: Result<Containers.Flask>)
      requires Valid()
      ensures m.Quantity? && DimOf(m.unit.kind) in {Mass, Volume} ==>
                r == Err(Containers.Filled(AsWritten, View(), m).error)
      ensures m.Quantity? && DimOf(m.unit.kind) == Mass ==> r == Err(TypeMismatch)
      ensures m.Quantity? && DimOf(m.unit.kind) == Volume ==>
                r == Err(if volume.value == 0.0 then ZeroDivision else TypeMismatch)
      ensures !(m.Quantity? && DimOf(m.unit.kind) in {Mass, Volume}) ==> r == Err(RecursionLimit)
    {
      if m.Quantity? && DimOf(m.unit.kind) in {Mass, Volume} {
        Containers.FillAsWrittenFails(View(), m.unit);
        r := Containers.Flask.Fill(AsWritten, View(), m);
      } else {
        AsWrittenNonAmountProduct(Liquid, RecursionDepth);
        r := Err(NonAmountProduct(Liquid, false, RecursionDepth));
      }
    }
  }

  /** Steam on the saturation line. */
  class SaturatedSteam {
    var temperature: Unit
    var pressure: Unit
    var volume: Unit
    var energy: Unit
    var enthalpy: Properties.Property
    var enthalpyCondensation: Properties.Property
    var entropy: real

    /** `_set_state` on a row: columns 0, 1, 3, 6, 9 and 12, and the
      condensation enthalpy as the vaporisation enthalpy times -1. */
    constructor FromRow(row: Row)
      ensures temperature == Unit(Celcius, row[0]) && pressure == Unit(KiloPascal, row[1])
      ensures volume == Unit(CubicMeterPerKiloGram, row[3])
      ensures energy == Unit(KJPerKg, row[6])
      ensures enthalpy == Properties.SpecificEnthalpy(Unit(KJPerKg, row[9]))
      ensures enthalpyCondensation.SpecificEnthalpy? && enthalpyCondensation.specificEnergy.kind == KJPerKg
      ensures enthalpyCondensation.specificEnergy.value == -row[8]
      ensures entropy == row[12]
      ensures Valid()
    {
      temperature := Unit(Celcius, row[0]);
      pressure := Unit(KiloPascal, row[1]);
      volume := Unit(CubicMeterPerKiloGram, row[3]);
      energy := Unit(KJPerKg, row[6]);
      enthalpy := Properties.SpecificEnthalpy(Unit(KJPerKg, row[9]));
      assert ScalarOf(Num(-1.0)) == Ok(-1.0);
      enthalpyCondensation := Properties.SpecificEnthalpy(Mul(AsWritten, Unit(KJPerKg, row[8]), Num(-1.0)).value);
      entropy := row[12];
    }

    /** `SaturatedSteam(property_state)`. */
    static method New(key: Key, table: Table) returns (r: Result<SaturatedSteam>)
      ensures r.Ok? <==> FindState(Steam, key, table).Ok?
      ensures r.Ok? ==> fresh(r.value) && r.value.IsRow(FindState(Steam, key, table).value) && r.value.Valid()
      ensures r.Err? ==> r.error == FindState(Steam, key, table).error
    {
      var row := FindState(Steam, key, table);
      if row.Err? {
        return Err(row.error);
      }
      var w := new SaturatedSteam.FromRow(row.value);
      return Ok(w);
    }

    /** The fields hold the columns of `row` this class uses. */
    predicate IsRow(row: Row)
      reads this
    {
      && temperature == Unit(Celcius, row[0]) && pressure == Unit(KiloPascal, row[1])
      && volume == Unit(CubicMeterPerKiloGram, row[3]) && energy == Unit(KJPerKg, row[6])
      && enthalpy == Properties.SpecificEnthalpy(Unit(KJPerKg, row[9]))
      && enthalpyCondensation.SpecificEnthalpy? && enthalpyCondensation.specificEnergy.kind == KJPerKg
      && enthalpyCondensation.specificEnergy.value == -row[8]
      && entropy == row[12]
    }

    /** What a flask sees of this state. */
    function View(): Containers.Substance
      reads this
    {
      Containers.Substance(Some(volume), Some(energy), Some(enthalpy))
    }

    /** What a flask sees of this state is a saturated substance. */
    predicate Valid()
      reads this
    {
      Containers.Saturated(View())
    }

    /** `__mul__` (inherited): a flask for a mass or a volume, which always
      raises, at the energy multiply or at a zero specific volume. Anything
      else reaches `super(self.__class__, self).__mul__`, which for an
      instance of this subclass is the same inherited method again, so the
      call recurses until the stack is exhausted. */
    method Times(m: Operand) returns (r: Result<Containers.Flask>)
      requires Valid()
      ensures m.Quantity? && DimOf(m.unit.kind) in {Mass, Volume} ==>
                r == Err(Containers.Filled(AsWritten, View(), m).error)
      ensures m.Quantity? && DimOf(m.unit.kind) == Mass ==> r == Err(TypeMismatch)
      ensures m.Quantity? && DimOf(m.unit.kind) == Volume ==>
                r == Err(if volume.value == 0.0 then ZeroDivision else TypeMismatch)
      ensures !(m.Quantity? && DimOf(m.unit.kind) in {Mass, Volume}) ==> r == Err(RecursionLimit)
    {
      if m.Quantity? && DimOf(m.unit.kind) in {Mass, Volume} {
        Containers.FillAsWrittenFails(View(), m.unit);
        r := Containers.Flask.Fill(AsWritten, View(), m);
      } else {
        AsWrittenNonAmountProduct(Steam, RecursionDepth);
        r := Err(NonAmountProduct(Steam, false, RecursionDepth));
      }
    }
  }
}
