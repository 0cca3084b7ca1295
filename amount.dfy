/** Amount units: specific volume (m³/kg), volume (pivot: the litre) and mass
    (pivot: the kilogram), with the cross-dimension rules between them. */
module AmountUnits {
  import opened Units

  /** The `m3` accessor. */
  function ToM3(v: Unit): (r: Unit)
    requires DimOf(v.kind) == Volume
    ensures r.kind == CubicMeter && Base(r) == Base(v)
    ensures 1000.0 * r.value == Base(v)
  {
    Unit(CubicMeter, Base(v) / 1000.0)
  }

  /** The `liter` accessor. */
  function ToLiter(v: Unit): (r: Unit)
    requires DimOf(v.kind) == Volume
    ensures r.kind == Liter && Base(r) == Base(v) && r.value == Base(v)
  {
    Unit(Liter, Base(v))
  }

  /** The `kilogram` accessor. */
  function ToKilogram(m: Unit): (r: Unit)
    requires DimOf(m.kind) == Mass
    ensures r.kind == KiloGram && Base(r) == Base(m) && r.value == Base(m)
  {
    Unit(KiloGram, Base(m))
  }

  /** `kg` is `kilogram`. */
  function ToKg(m: Unit): (r: Unit)
    requires DimOf(m.kind) == Mass
    ensures r.kind == KiloGram && Base(r) == Base(m)
  {
    ToKilogram(m)
  }

  /** The `m3_per_kg` accessor. */
  function ToM3PerKg(s: Unit): (r: Unit)
    requires DimOf(s.kind) == SpecificVolume
    ensures r.kind == CubicMeterPerKiloGram && Base(r) == Base(s)
  {
    Unit(CubicMeterPerKiloGram, Base(s))
  }

  lemma AccessorsAreConversions(v: Unit, m: Unit, s: Unit)
    requires DimOf(v.kind) == Volume && DimOf(m.kind) == Mass && DimOf(s.kind) == SpecificVolume
    ensures ToM3(v) == Convert(CubicMeter, v) && ToLiter(v) == Convert(Liter, v)
    ensures ToKilogram(m) == Convert(KiloGram, m) && ToKg(m) == ToKilogram(m)
    ensures ToM3PerKg(s) == Convert(CubicMeterPerKiloGram, s)
  {
  }

  /** The constructors: the litre is the volume pivot; kilograms and m³/kg
      are their own pivots. */
  lemma ConstructorPivots(x: real)
    ensures Base(Unit(Liter, x)) == x
    ensures Base(Unit(CubicMeter, x)) == 1000.0 * x
    ensures Base(Unit(KiloGram, x)) == x
    ensures Base(Unit(CubicMeterPerKiloGram, x)) == x
  {
  }

  /** Specific volume times a mass is a volume in cubic metres; times
      anything else it goes to the generic multiply. */
  lemma SpecificVolumeTimesMassIsVolume(fix: Fixes, s: Unit, m: Unit)
    requires DimOf(s.kind) == SpecificVolume && DimOf(m.kind) == Mass
    ensures Mul(fix, s, Quantity(m)).Ok?
    ensures Mul(fix, s, Quantity(m)).value == Unit(CubicMeter, Base(m) * Base(s))
  {
  }

  lemma SpecificVolumeTimesOtherScales(fix: Fixes, s: Unit, a: Operand)
    requires DimOf(s.kind) == SpecificVolume
    requires !(a.Quantity? && DimOf(a.unit.kind) == Mass)
    ensures Mul(fix, s, a) == GenericTimes(fix, s, a)
    ensures Mul(AsWritten, s, a).Ok? <==> a.Num?
  {
  }

  /** A volume divided by a specific volume is a mass. As written, the mass
      times the specific volume is the litre pivot, so a thousand times the
      volume in cubic metres; with the division repaired it is the volume in
      cubic metres. */
  lemma VolumeOverSpecificVolumeIsMass(v: Unit, s: Unit)
    requires DimOf(v.kind) == Volume && DimOf(s.kind) == SpecificVolume && Base(s) != 0.0
    ensures Div(AsWritten, v, Quantity(s)).Ok?
    ensures Div(AsWritten, v, Quantity(s)).value.kind == KiloGram
    ensures Div(AsWritten, v, Quantity(s)).value.value * Base(s) == ToLiter(v).value
    ensures Div(AsWritten, v, Quantity(s)).value.value * Base(s) == 1000.0 * ToM3(v).value
    ensures Div(Corrected, v, Quantity(s)).Ok?
    ensures Div(Corrected, v, Quantity(s)).value.kind == KiloGram
    ensures Div(Corrected, v, Quantity(s)).value.value * Base(s) == ToM3(v).value
  {
  }

  /** A zero specific volume cannot be divided by. */
  lemma VolumeOverZeroSpecificVolume(fix: Fixes, v: Unit, s: Unit)
    requires DimOf(v.kind) == Volume && DimOf(s.kind) == SpecificVolume && Base(s) == 0.0
    ensures Div(fix, v, Quantity(s)) == Err(ZeroDivision)
  {
  }

  /** A volume divided by a number is multiplied by it; divided by a unit
      other than a specific volume it is refused as written, since the
      generic multiply gets a unit. */
  lemma VolumeOverNumberMultiplies(fix: Fixes, v: Unit, k: real)
    requires DimOf(v.kind) == Volume
    ensures Div(fix, v, Num(k)) == Ok(Unit(v.kind, v.value * k))
  {
    assert ScalarOf(Num(k)) == Ok(k);
    assert GenericTimes(fix, v, Num(k)).value == Unit(v.kind, v.value * k);
  }

  lemma VolumeOverOtherUnitRefused(v: Unit, w: Unit)
    requires DimOf(v.kind) == Volume && DimOf(w.kind) != SpecificVolume
    ensures Div(AsWritten, v, Quantity(w)) == Err(TypeMismatch)
    ensures Div(Corrected, v, Quantity(w)).Ok?
    ensures Div(Corrected, v, Quantity(w)).value.value == v.value * w.value
  {
  }

  /** Ten litres over two is twenty litres. */
  lemma TenLitresOverTwo()
    ensures Div(AsWritten, Unit(Liter, 10.0), Num(2.0)) == Ok(Unit(Liter, 20.0))
  {
    VolumeOverNumberMultiplies(AsWritten, Unit(Liter, 10.0), 2.0);
  }

  /** `/=` turns the divisor into a number first, so a volume `/=` a specific
      volume multiplies where `/` would give a mass. */
  lemma InPlaceDivisionOfVolume(v: Unit, s: Unit)
    requires DimOf(v.kind) == Volume && DimOf(s.kind) == SpecificVolume
    ensures IDiv(v, Quantity(s)) == Ok(Unit(v.kind, v.value * s.value))
    ensures IDiv(v, Quantity(s)).value.kind != KiloGram
  {
    VolumeOverNumberMultiplies(AsWritten, v, s.value);
  }

  /** Everywhere else `/=` agrees with `/`. */
  lemma InPlaceDivisionAgrees(fix: Fixes, u: Unit, d: Operand)
    requires DimOf(u.kind) != Volume
    ensures IDiv(u, d) == Div(fix, u, d)
  {
  }

  /** Specific volume, volume and mass are different properties: adding
      across them is refused. */
  lemma AmountsDoNotMix(fix: Fixes, u: Unit, w: Unit)
    requires DimOf(u.kind) in {SpecificVolume, Volume, Mass}
    requires DimOf(w.kind) in {SpecificVolume, Volume, Mass}
    requires DimOf(u.kind) != DimOf(w.kind)
    ensures Add(fix, u, Quantity(w)) == Err(UnlogicalOperation)
    ensures Sub(fix, u, Quantity(w)) == Err(UnlogicalOperation)
  {
  }

  /** The 1000-fold volume of the division as written: dividing a volume by
      a specific volume and multiplying back by it gives the litre pivot as
      cubic metres. */
  lemma AsWrittenVolumeRoundTrip(v: Unit, s: Unit)
    requires DimOf(v.kind) == Volume && DimOf(s.kind) == SpecificVolume && Base(s) != 0.0
    ensures Div(AsWritten, v, Quantity(s)).Ok?
    ensures Base(Mul(AsWritten, s, Quantity(Div(AsWritten, v, Quantity(s)).value)).value) == 1000.0 * Base(v)
  {
    var m := Div(AsWritten, v, Quantity(s)).value;
    assert m.kind == KiloGram && Base(m) * Base(s) == Base(v);
    assert Mul(AsWritten, s, Quantity(m)) == Ok(SpecificVolumeTimesMass(s, m));
  }

  /** One cubic metre at 0.001 m³/kg: 1 000 000 kg as written, 1000 kg with
      the division repaired. */
  lemma AsWrittenCubicMetreOfWater()
    ensures Div(AsWritten, Unit(CubicMeter, 1.0), Quantity(Unit(CubicMeterPerKiloGram, 0.001)))
            == Ok(Unit(KiloGram, 1000000.0))
    ensures Div(Corrected, Unit(CubicMeter, 1.0), Quantity(Unit(CubicMeterPerKiloGram, 0.001)))
            == Ok(Unit(KiloGram, 1000.0))
  {
  }

  /** With the division repaired the round trip gives back the volume. */
  lemma VolumeRoundTrip(v: Unit, s: Unit)
    requires DimOf(v.kind) == Volume && DimOf(s.kind) == SpecificVolume && Base(s) != 0.0
    ensures Div(Corrected, v, Quantity(s)).Ok?
    ensures Base(Mul(Corrected, s, Quantity(Div(Corrected, v, Quantity(s)).value)).value) == Base(v)
  {
    var m := Div(Corrected, v, Quantity(s)).value;
    assert m.kind == KiloGram && 1000.0 * Base(m) * Base(s) == Base(v);
    assert Mul(Corrected, s, Quantity(m)) == Ok(SpecificVolumeTimesMass(s, m));
  }
}
