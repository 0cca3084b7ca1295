/** Containers: a Flask filled with an amount (a mass or a volume) of a
    substance. Its mass, volume, energy and enthalpy fields are assigned step
    by step from the substance's specific quantities. */
module Containers {
  import opened Units
  import Properties

  /** The attributes a flask reads from its substance: the specific volume,
      the specific energy and the specific enthalpy; None where the
      substance has no such attribute. */
  datatype Substance = Substance(volume: Option<Unit>, energy: Option<Unit>, enthalpy: Option<Properties.Property>)
  {
    predicate Valid() { enthalpy.Some? ==> enthalpy.value.Valid() }
  }

  /** The four amount fields of a flask; None is an unset field. */
  datatype Contents = Contents(mass: Option<Unit>, volume: Option<Unit>, energy: Option<Unit>,
                               enthalpy: Option<Properties.Value>)

  const Empty := Contents(None, None, None, None)

  /** `volume / substance.volume`. */
  function MassFor(fix: Fixes, s: Substance, v: Unit): (r: Result<Unit>)
    ensures s.volume.None? ==> r == Err(MissingOperation)
    ensures DimOf(v.kind) == Volume && s.volume.Some? && DimOf(s.volume.value.kind) == SpecificVolume
            && fix.divideCubicMetres ==>
              r == VolumeOverSpecificVolume(v, s.volume.value)
    ensures DimOf(v.kind) == Volume && s.volume.Some? && DimOf(s.volume.value.kind) == SpecificVolume
            && !fix.divideCubicMetres ==>
              r == VolumeOverSpecificVolumeAsWritten(v, s.volume.value)
  {
    if s.volume.None? then Err(MissingOperation) else Div(fix, v, Quantity(s.volume.value))
  }

  /** `substance.volume * mass`. */
  function VolumeFor(fix: Fixes, s: Substance, m: Unit): (r: Result<Unit>)
    ensures s.volume.None? ==> r == Err(MissingOperation)
    ensures DimOf(m.kind) == Mass && s.volume.Some? && DimOf(s.volume.value.kind) == SpecificVolume ==>
              r == Ok(SpecificVolumeTimesMass(s.volume.value, m))
  {
    if s.volume.None? then Err(MissingOperation) else Mul(fix, s.volume.value, Quantity(m))
  }

  /** `substance.energy * mass`. */
  function EnergyFor(fix: Fixes, s: Substance, m: Unit): (r: Result<Unit>)
    ensures s.energy.None? ==> r == Err(MissingOperation)
    ensures s.energy.Some? && DimOf(s.energy.value.kind) == SpecificEnergy ==>
              (r.Ok? <==> fix.mulByFloat)
    ensures s.energy.Some? && DimOf(s.energy.value.kind) == SpecificEnergy && r.Ok? ==>
              r.value.kind == s.energy.value.kind && r.value.value == s.energy.value.value * m.value
    ensures s.energy.Some? && r.Err? ==> r.error == TypeMismatch
  {
    if s.energy.None? then Err(MissingOperation) else Mul(fix, s.energy.value, Quantity(m))
  }

  /** `substance.enthalpy * mass`. */
  function EnthalpyFor(fix: Fixes, s: Substance, m: Unit): (r: Result<Properties.Value>)
    requires s.Valid()
    ensures s.enthalpy.None? ==> r == Err(MissingOperation)
    ensures s.enthalpy.Some? ==> (r.Ok? <==> fix.mulByFloat)
    ensures s.enthalpy.Some? && r.Err? ==> r.error == TypeMismatch
    ensures s.enthalpy.Some? && s.enthalpy.value.SpecificEnthalpy? && r.Ok? ==>
              r.value.Raw? && r.value.unit.kind == s.enthalpy.value.BaseUnit().kind
              && r.value.unit.value == s.enthalpy.value.BaseUnit().value * m.value
  {
    if s.enthalpy.None? then Err(MissingOperation)
    else Properties.Mul(fix, s.enthalpy.value, Properties.Measured(m))
  }

  /** The fields after filling by mass, or the first error on the way. */
  function FilledByMass(fix: Fixes, s: Substance, m: Unit): (r: Result<Contents>)
    requires s.Valid()
    ensures r.Ok? <==> VolumeFor(fix, s, m).Ok? && EnergyFor(fix, s, m).Ok? && EnthalpyFor(fix, s, m).Ok?
    ensures r.Ok? ==> r.value.mass == Some(m) && r.value.volume == Some(VolumeFor(fix, s, m).value)
    ensures r.Ok? ==> r.value.energy == Some(EnergyFor(fix, s, m).value)
                      && r.value.enthalpy == Some(EnthalpyFor(fix, s, m).value)
    ensures r.Err? ==> r.error == if VolumeFor(fix, s, m).Err? then VolumeFor(fix, s, m).error
                                 else if EnergyFor(fix, s, m).Err? then EnergyFor(fix, s, m).error
                                 else EnthalpyFor(fix, s, m).error
  {
    var volume :- VolumeFor(fix, s, m);
    var energy :- EnergyFor(fix, s, m);
    var enthalpy :- EnthalpyFor(fix, s, m);
    Ok(Contents(Some(m), Some(volume), Some(energy), Some(enthalpy)))
  }

  /** The fields of a flask filled with `amount` of `s`: a volume is turned
      into a mass first; any other amount leaves every field unset. */
  function Filled(fix: Fixes, s: Substance, amount: Operand): (r: Result<Contents>)
    requires s.Valid()
    ensures !(amount.Quantity? && DimOf(amount.unit.kind) in {Volume, Mass}) ==> r == Ok(Empty)
    ensures amount.Quantity? && DimOf(amount.unit.kind) == Mass ==> r == FilledByMass(fix, s, amount.unit)
    ensures amount.Quantity? && DimOf(amount.unit.kind) == Volume && MassFor(fix, s, amount.unit).Err? ==>
              r == Err(MassFor(fix, s, amount.unit).error)
    ensures amount.Quantity? && DimOf(amount.unit.kind) == Volume && MassFor(fix, s, amount.unit).Ok? ==>
              r == FilledByMass(fix, s, MassFor(fix, s, amount.unit).value)
  {
    if amount.Quantity? && DimOf(amount.unit.kind) == Volume then
      var m :- MassFor(fix, s, amount.unit);
      FilledByMass(fix, s, m)
    else if amount.Quantity? && DimOf(amount.unit.kind) == Mass then
      FilledByMass(fix, s, amount.unit)
    else Ok(Empty)
  }

  /** A flask; its methods compute with the unit arithmetic under `fix`
      (`AsWritten` for the program as it stands). */
  class Flask {
    var substance: Substance
    var mass: Option<Unit>
    var volume: Option<Unit>
    var energy: Option<Unit>
    var enthalpy: Option<Properties.Value>

    function Fields(): Contents
      reads this
    {
      Contents(mass, volume, energy, enthalpy)
    }

    /** A fresh flask holds the substance and no amount yet. */
    constructor (s: Substance)
      ensures substance == s && Fields() == Empty
    {
      substance := s;
      mass, volume, energy, enthalpy := None, None, None, None;
    }

    /** `_update_by_volume`: the volume first, then the mass it holds. */
    method UpdateByVolume(fix: Fixes, v: Unit) returns (err: Option<Error>)
      modifies this
      ensures substance == old(substance) && energy == old(energy) && enthalpy == old(enthalpy)
      ensures volume == Some(v)
      ensures err.None? <==> MassFor(fix, substance, v).Ok?
      ensures err.None? ==> mass == Some(MassFor(fix, substance, v).value)
      ensures err.Some? ==> err.value == MassFor(fix, substance, v).error && mass == old(mass)
    {
      volume := Some(v);
      var m := MassFor(fix, substance, v);
      if m.Err? {
        return Some(m.error);
      }
      mass := Some(m.value);
      return None;
    }

    /** `_update_by_mass`: the mass, then volume, energy and enthalpy in that
      order; the first failing step stops it and leaves the later fields
      as they were. */
    method UpdateByMass(fix: Fixes, m: Unit) returns (err: Option<Error>)
      requires substance.Valid()
      modifies this
      ensures substance == old(substance) && mass == Some(m)
      ensures err.None? <==> FilledByMass(fix, substance, m).Ok?
      ensures err.None? ==> Fields() == FilledByMass(fix, substance, m).value
      ensures err.Some? ==> err.value == FilledByMass(fix, substance, m).error
      ensures volume == if VolumeFor(fix, substance, m).Ok? then Some(VolumeFor(fix, substance, m).value)
                        else old(volume)
      ensures energy == if VolumeFor(fix, substance, m).Ok? && EnergyFor(fix, substance, m).Ok?
                        then Some(EnergyFor(fix, substance, m).value) else old(energy)
      ensures err.Some? ==> enthalpy == old(enthalpy)
    {
      mass := Some(m);
      var v := VolumeFor(fix, substance, m);
      if v.Err? {
        return Some(v.error);
      }
      volume := Some(v.value);
      var e := EnergyFor(fix, substance, m);
      if e.Err? {
        return Some(e.error);
      }
      energy := Some(e.value);
      var h := EnthalpyFor(fix, substance, m);
      if h.Err? {
        return Some(h.error);
      }
      enthalpy := Some(h.value);
      return None;
    }

    /** `Flask(substance, amount)`: a failure on the way raises, so no flask
      is returned. */
    static method Fill(fix: Fixes, s: Substance, amount: Operand) returns (r: Result<Flask>)
      requires s.Valid()
      ensures r.Ok? <==> Filled(fix, s, amount).Ok?
      ensures r.Ok? ==> fresh(r.value) && r.value.substance == s && r.value.Fields() == Filled(fix, s, amount).value
      ensures r.Err? ==> r.error == Filled(fix, s, amount).error
    {
      var f := new Flask(s);
      if amount.Quantity? && DimOf(amount.unit.kind) == Volume {
        var err := f.UpdateByVolume(fix, amount.unit);
        if err.Some? {
          return Err(err.value);
        }
        err := f.UpdateByMass(fix, f.mass.value);
        if err.Some? {
          return Err(err.value);
        }
      } else if amount.Quantity? && DimOf(amount.unit.kind) == Mass {
        var err := f.UpdateByMass(fix, amount.unit);
        if err.Some? {
          return Err(err.value);
        }
      }
      return Ok(f);
    }
  }

  /** A substance of the kind the saturated states expose: m³/kg specific
      volume, kJ/kg specific energy and specific enthalpy. */
  predicate Saturated(s: Substance)
  {
    && s.volume.Some? && s.volume.value.kind == CubicMeterPerKiloGram
    && s.energy.Some? && s.energy.value.kind == KJPerKg
    && s.enthalpy.Some? && s.enthalpy.value.SpecificEnthalpy? && s.enthalpy.value.specificEnergy.kind == KJPerKg
  }

  /** As written, no saturated substance fills a flask by mass or by volume:
      the energy step multiplies a specific energy by a mass object and
      raises; by volume a zero specific volume raises earlier. */
  lemma FillAsWrittenFails(s: Substance, u: Unit)
    requires Saturated(s) && DimOf(u.kind) in {Volume, Mass}
    ensures Filled(AsWritten, s, Quantity(u)).Err?
    ensures DimOf(u.kind) == Mass ==> Filled(AsWritten, s, Quantity(u)) == Err(TypeMismatch)
    ensures DimOf(u.kind) == Volume && s.volume.value.value != 0.0 ==>
              Filled(AsWritten, s, Quantity(u)) == Err(TypeMismatch)
    ensures DimOf(u.kind) == Volume && s.volume.value.value == 0.0 ==>
              Filled(AsWritten, s, Quantity(u)) == Err(ZeroDivision)
  {
  }

  /** Filling by mass. As written it raises at the energy step, after the
      volume; with the corrections the mass is the amount, and volume,
      energy and enthalpy are the substance's specific values times the
      mass in kilograms, the enthalpy being a raw unit. */
  lemma FillByMass(s: Substance, m: Unit)
    requires Saturated(s) && DimOf(m.kind) == Mass
    ensures Filled(AsWritten, s, Quantity(m)) == Err(TypeMismatch)
    ensures VolumeFor(AsWritten, s, m).Ok? && EnergyFor(AsWritten, s, m) == Err(TypeMismatch)
    ensures Filled(Corrected, s, Quantity(m)).Ok?
    ensures var c := Filled(Corrected, s, Quantity(m)).value;
      && c.mass == Some(m)
      && c.volume.Some? && c.volume.value.kind == CubicMeter
      && c.volume.value.value == Base(m) * s.volume.value.value
      && c.energy.Some? && c.energy.value.kind == KJPerKg
      && c.energy.value.value == s.energy.value.value * m.value
      && c.enthalpy.Some? && c.enthalpy.value.Raw? && c.enthalpy.value.unit.kind == KJPerKg
      && c.enthalpy.value.unit.value == s.enthalpy.value.specificEnergy.value * m.value
  {
    var e := s.energy.value;
    assert ScalarOf(Quantity(m)) == Ok(m.value);
    assert GenericMul(e, Quantity(m)).value == Unit(KJPerKg, e.value * m.value);
    assert Properties.ScalarOf(Properties.Measured(m)) == Ok(m.value);
  }

  /** Filling by volume. As written it raises at the energy step; with the
      corrections the mass is the volume in cubic metres over the specific
      volume, and the volume recomputed from it is the volume given (the
      same pivot, now in cubic metres). */
  lemma FillByVolume(s: Substance, v: Unit)
    requires Saturated(s) && DimOf(v.kind) == Volume && s.volume.value.value != 0.0
    ensures Filled(AsWritten, s, Quantity(v)) == Err(TypeMismatch)
    ensures MassFor(AsWritten, s, v).Ok? && Base(MassFor(AsWritten, s, v).value) * s.volume.value.value == Base(v)
    ensures Filled(Corrected, s, Quantity(v)).Ok?
    ensures Filled(Corrected, s, Quantity(v)).value.mass.Some?
    ensures 1000.0 * Filled(Corrected, s, Quantity(v)).value.mass.value.value * s.volume.value.value == Base(v)
    ensures Filled(Corrected, s, Quantity(v)).value.volume.Some?
    ensures Filled(Corrected, s, Quantity(v)).value.volume.value.kind == CubicMeter
    ensures Base(Filled(Corrected, s, Quantity(v)).value.volume.value) == Base(v)
  {
    var sv := s.volume.value;
    var m := Div(Corrected, v, Quantity(sv)).value;
    assert 1000.0 * Base(m) * Base(sv) == Base(v);
    FillByMass(s, m);
  }

  /** With only the multiply repaired, the division as written makes the
      mass a thousand times too large, and the flask's volume comes out as
      a thousand times the volume poured in. */
  lemma FillByVolumeWithMultiplyFixed(s: Substance, v: Unit)
    requires Saturated(s) && DimOf(v.kind) == Volume && s.volume.value.value != 0.0
    ensures Filled(Fixes(true, false, false), s, Quantity(v)).Ok?
    ensures Filled(Fixes(true, false, false), s, Quantity(v)).value.volume.Some?
    ensures Base(Filled(Fixes(true, false, false), s, Quantity(v)).value.volume.value) == 1000.0 * Base(v)
  {
    var fix := Fixes(true, false, false);
    var sv := s.volume.value;
    var m := Div(fix, v, Quantity(sv)).value;
    assert Base(m) * Base(sv) == Base(v);
    var e := s.energy.value;
    assert ScalarOf(Quantity(m)) == Ok(m.value);
    assert GenericMul(e, Quantity(m)).value == Unit(KJPerKg, e.value * m.value);
    assert Properties.ScalarOf(Properties.Measured(m)) == Ok(m.value);
  }

  /** An amount that is neither a volume nor a mass leaves every field unset. */
  lemma FillByOtherAmount(fix: Fixes, s: Substance, amount: Operand)
    requires s.Valid()
    requires !(amount.Quantity? && DimOf(amount.unit.kind) in {Volume, Mass})
    ensures Filled(fix, s, amount) == Ok(Empty)
  {
  }

  /** A substance without a specific volume cannot fill a flask by mass or
      volume: the attribute lookup fails. */
  lemma FillNeedsSpecificVolume(fix: Fixes, s: Substance, u: Unit)
    requires s.Valid() && s.volume.None? && DimOf(u.kind) in {Volume, Mass}
    ensures Filled(fix, s, Quantity(u)) == Err(MissingOperation)
  {
  }
}
