/** Specific energy: the abstract SpecificEnergy class and its one concrete
    unit, KJPerKg, which stores its magnitude and computes no pivot. */
module EnergyUnits {
  import opened Units

  lemma SpecificEnergyTag()
    ensures PropertyName(DimOf(KJPerKg)) == "specific_energy"
    ensures Symbol(KJPerKg) == "kJ/kg"
    ensures !HasBase(KJPerKg)
  {
  }

  /** KJPerKg(x) stores x as it is; SpecificEnergy itself cannot be built. */
  lemma KJPerKgKeepsValue(x: real)
    ensures Construct(Named(KJPerKg), x) == Ok(Unit(KJPerKg, x))
    ensures Construct(Abstract(SpecificEnergy), x) == Err(UnitNotSupported)
  {
  }

  /** Addition as written: `KJPerKg(other)` keeps the other unit object as
      its magnitude, so the sum of the two magnitudes is a number plus an
      object, which the host language refuses; subtraction goes through the
      same addition. */
  lemma AsWrittenSpecificEnergiesDoNotAdd(x: real, y: real)
    ensures Add(AsWritten, Unit(KJPerKg, x), Quantity(Unit(KJPerKg, y))) == Err(TypeMismatch)
    ensures Sub(AsWritten, Unit(KJPerKg, x), Quantity(Unit(KJPerKg, y))) == Err(TypeMismatch)
    ensures Add(AsWritten, Unit(KJPerKg, x), Num(y)) == Ok(Unit(KJPerKg, x + y))
  {
  }

  /** Two KJPerKg values share a tag, so they pass the same-property guard;
      with the magnitude kept they add up. */
  lemma SpecificEnergiesAdd(x: real, y: real)
    ensures IsSameProperty(Unit(KJPerKg, x), Quantity(Unit(KJPerKg, y)))
    ensures Add(Corrected, Unit(KJPerKg, x), Quantity(Unit(KJPerKg, y))) == Ok(Unit(KJPerKg, x + y))
    ensures Sub(Corrected, Unit(KJPerKg, x), Quantity(Unit(KJPerKg, y))) == Ok(Unit(KJPerKg, x - y))
  {
  }

  /** As written, a specific energy times a mass is refused (the magnitude
      is multiplied by a unit object); with the multiply repaired it is a
      KJPerKg of the product. */
  lemma SpecificEnergyTimesMass(x: real, kg: real)
    ensures Mul(AsWritten, Unit(KJPerKg, x), Quantity(Unit(KiloGram, kg))) == Err(TypeMismatch)
    ensures Mul(Corrected, Unit(KJPerKg, x), Quantity(Unit(KiloGram, kg))) == Ok(Unit(KJPerKg, x * kg))
  {
    var u, m := Unit(KJPerKg, x), Quantity(Unit(KiloGram, kg));
    assert ScalarOf(m) == Ok(kg);
    assert GenericMul(u, m).value == Unit(KJPerKg, x * kg);
  }
}
