/** Property wrappers: Enthalpy wraps an energy unit, SpecificEnthalpy wraps
    a specific-energy unit. Their arithmetic goes through the wrapped unit;
    dividing an enthalpy by a mass raises it to a specific enthalpy, and
    multiplying a specific enthalpy gives back the raw unit. */
module Properties {
  import opened Units

  datatype PropertyClass = GenericProperty | EnthalpyClass | SpecificEnthalpyClass

  datatype Property = Enthalpy(energy: Unit) | SpecificEnthalpy(specificEnergy: Unit)
  {
    /** `_base_unit`. */
    function BaseUnit(): Unit
    {
      match this
      case Enthalpy(e) => e
      case SpecificEnthalpy(s) => s
    }

    function Class(): PropertyClass
    {
      match this
      case Enthalpy(_) => EnthalpyClass
      case SpecificEnthalpy(_) => SpecificEnthalpyClass
    }

    /** `property_name`. */
    function Name(): string
    {
      match this
      case Enthalpy(_) => "enthalpy"
      case SpecificEnthalpy(_) => "specific enthalpy"
    }

    /** The wrapped unit has the dimension the wrapper demands. */
    predicate Valid()
    {
      match this
      case Enthalpy(e) => DimOf(e.kind) == Energy
      case SpecificEnthalpy(s) => DimOf(s.kind) == SpecificEnergy
    }
  }

  /** The right operand of a property operator. */
  datatype Operand =
    | Number(x: real)
    | Measured(unit: Unit)
    | Wrapped(property: Property)
    | Other(name: Option<string>, asFloat: Option<real>, negation: Units.Negation)

  /** A result that is either a raw unit or a property. */
  datatype Value = Raw(unit: Unit) | Prop(property: Property)

  function AsOperand(v: Value): Operand
  {
    match v
    case Raw(u) => Measured(u)
    case Prop(p) => Wrapped(p)
  }

  /** What `p * -1` gives, seen from the unit layer: a specific enthalpy
      returns the raw negated unit, an enthalpy an enthalpy. */
  function NegationOf(p: Property): Units.Negation
  {
    match p
    case SpecificEnthalpy(s) => Units.ToUnit(Unit(s.kind, s.value * -1.0))
    case Enthalpy(_) => Units.ToSame
  }

  /** A property operand as the unit layer sees it: an object with a
      property name whose float() is its base unit's magnitude. */
  function AsUnitOperand(a: Operand): Units.Operand
  {
    match a
    case Number(x) => Units.Num(x)
    case Measured(u) => Units.Quantity(u)
    case Wrapped(p) => Units.Foreign(Some(p.Name()), Some(p.BaseUnit().value), NegationOf(p))
    case Other(n, f, neg) => Units.Foreign(n, f, neg)
  }

  /** float() of an operand. */
  function ScalarOf(a: Operand): (r: Result<real>)
    ensures a.Number? ==> r == Ok(a.x)
    ensures a.Wrapped? ==> r == Ok(a.property.BaseUnit().value)
    ensures a.Measured? ==> r == Ok(a.unit.value)
    ensures a.Other? ==> (r.Ok? <==> a.asFloat.Some?)
    ensures a.Other? && r.Ok? ==> r.value == a.asFloat.value
  {
    Units.ScalarOf(AsUnitOperand(a))
  }

  /** The constructors: a wrapper only accepts a unit of its own dimension,
      and the generic property cannot be built at all. */
  function Wrap(c: PropertyClass, a: Operand): (r: Result<Property>)
    ensures c == GenericProperty ==> r == Err(UnitNotSupported)
    ensures c == EnthalpyClass ==> (r.Ok? <==> a.Measured? && DimOf(a.unit.kind) == Energy)
    ensures c == SpecificEnthalpyClass ==> (r.Ok? <==> a.Measured? && DimOf(a.unit.kind) == SpecificEnergy)
    ensures r.Err? && c != GenericProperty ==> r.error == UnitMismatch
    ensures r.Ok? ==> r.value.Valid() && r.value.Class() == c && r.value.BaseUnit() == a.unit
  {
    match c
    case GenericProperty => Err(UnitNotSupported)
    case EnthalpyClass =>
      if a.Measured? && DimOf(a.unit.kind) == Energy then Ok(Enthalpy(a.unit)) else Err(UnitMismatch)
    case SpecificEnthalpyClass =>
      if a.Measured? && DimOf(a.unit.kind) == SpecificEnergy then Ok(SpecificEnthalpy(a.unit)) else Err(UnitMismatch)
  }

  /** int() and float() of a property are those of its base unit. */
  function IntOf(p: Property): (n: int)
    ensures n == Units.Trunc(FloatOf(p))
  {
    Units.IntOf(p.BaseUnit())
  }

  function FloatOf(p: Property): (x: real)
    ensures Units.ScalarOf(AsUnitOperand(Wrapped(p))) == Ok(x)
  {
    Units.FloatOf(p.BaseUnit())
  }

  /** `*`: the base unit is multiplied; an enthalpy is re-wrapped and a
      specific enthalpy returns the raw product unit, which is always a
      unit. As written the product only exists for a number. */
  function Mul(fix: Fixes, p: Property, m: Operand): (r: Result<Value>)
    requires p.Valid()
    ensures r.Ok? <==> if fix.mulByFloat then ScalarOf(m).Ok? else m.Number?
    ensures r.Err? ==> r.error == TypeMismatch
    ensures r.Ok? ==> (p.SpecificEnthalpy? <==> r.value.Raw?)
    ensures r.Ok? && p.SpecificEnthalpy? ==>
              r.value.unit == Unit(p.BaseUnit().kind, p.BaseUnit().value * ScalarOf(m).value)
    ensures r.Ok? && p.Enthalpy? ==>
              r.value.property == Enthalpy(Unit(p.BaseUnit().kind, p.BaseUnit().value * ScalarOf(m).value))
  {
    var product :- Units.Mul(fix, p.BaseUnit(), AsUnitOperand(m));
    match p
    case Enthalpy(_) => Ok(Prop(Wrap(EnthalpyClass, Measured(product)).value))
    case SpecificEnthalpy(_) => Ok(Raw(product))
  }

  /** `/`: an enthalpy over a mass becomes a specific enthalpy of the energy
      quotient (`divide`, the energy unit's own division by a mass); every
      other division divides the base unit by float() of the divisor. */
  function Div(p: Property, d: Operand, divide: (Unit, Unit) -> Result<Unit>): (r: Result<Property>)
    requires p.Valid()
    ensures p.Enthalpy? && d.Measured? && DimOf(d.unit.kind) == Mass ==>
              (r.Ok? <==> divide(p.energy, d.unit).Ok? && DimOf(divide(p.energy, d.unit).value.kind) == SpecificEnergy)
    ensures p.Enthalpy? && d.Measured? && DimOf(d.unit.kind) == Mass && r.Ok? ==>
              r.value == SpecificEnthalpy(divide(p.energy, d.unit).value)
    ensures !(p.Enthalpy? && d.Measured? && DimOf(d.unit.kind) == Mass) ==>
              (r.Ok? <==> ScalarOf(d).Ok? && ScalarOf(d).value != 0.0)
    ensures !(p.Enthalpy? && d.Measured? && DimOf(d.unit.kind) == Mass) && r.Ok? ==>
              r.value.Class() == p.Class() && r.value.BaseUnit().kind == p.BaseUnit().kind &&
              r.value.BaseUnit().value * ScalarOf(d).value == p.BaseUnit().value
    ensures !(p.Enthalpy? && d.Measured? && DimOf(d.unit.kind) == Mass) && ScalarOf(d) == Ok(0.0) ==>
              r == Err(ZeroDivision)
    ensures !(p.Enthalpy? && d.Measured? && DimOf(d.unit.kind) == Mass) && ScalarOf(d).Err? ==>
              r == Err(TypeMismatch)
  {
    if p.Enthalpy? && d.Measured? && DimOf(d.unit.kind) == Mass then
      var quotient :- divide(p.energy, d.unit);
      Wrap(SpecificEnthalpyClass, Measured(quotient))
    else
      var f :- ScalarOf(d);
      var quotient :- Units.Div(AsWritten, p.BaseUnit(), Units.Num(f));
      Wrap(p.Class(), Measured(quotient))
  }

  /** `/=` applies float() to the divisor first: an enthalpy `/=` a mass
      stays an enthalpy. */
  function IDiv(p: Property, d: Operand, divide: (Unit, Unit) -> Result<Unit>): (r: Result<Property>)
    requires p.Valid()
    ensures ScalarOf(d).Err? ==> r.Err?
    ensures ScalarOf(d).Ok? ==> r == Div(p, Number(ScalarOf(d).value), divide)
    ensures r.Ok? ==> r.value.Class() == p.Class()
  {
    var f :- ScalarOf(d);
    Div(p, Number(f), divide)
  }

  /** Whether `+` accepts the operand: a property of the same class, a unit
      of the base unit's exact class, or a number. */
  predicate Addable(p: Property, a: Operand)
  {
    || a.Number?
    || (a.Wrapped? && a.property.Class() == p.Class() && a.property.Valid())
    || (a.Measured? && a.unit.kind == p.BaseUnit().kind)
  }

  /** `+`: the base unit's own `+` of the operand's base unit, of the unit,
      or of the number, re-wrapped; anything else is refused. As written,
      the base unit of a specific enthalpy (KJPerKg) cannot add a unit. */
  function Add(fix: Fixes, p: Property, a: Operand): (r: Result<Property>)
    requires p.Valid()
    ensures r.Ok? <==> Addable(p, a) && (a.Number? || p.Enthalpy? || fix.keepMagnitude)
    ensures r.Ok? ==> r.value.Class() == p.Class() && r.value.BaseUnit().kind == p.BaseUnit().kind
    ensures a.Number? ==> r == Ok(WithValue(p, p.BaseUnit().value + a.x))
    ensures a.Wrapped? && a.property.Class() == p.Class() && a.property.Valid() && r.Ok? ==>
              r == Ok(WithValue(p, p.BaseUnit().value + Convert(p.BaseUnit().kind, a.property.BaseUnit()).value))
    ensures a.Measured? && a.unit.kind == p.BaseUnit().kind && r.Ok? ==>
              r == Ok(WithValue(p, p.BaseUnit().value + a.unit.value))
    ensures r.Err? ==> r.error == if Addable(p, a) then TypeMismatch else UnlogicalOperation
  {
    var base := p.BaseUnit();
    match a
    case Wrapped(q) =>
      if q.Class() == p.Class() && q.Valid() then
        var sum :- Units.Add(fix, base, Units.Quantity(q.BaseUnit()));
        Wrap(p.Class(), Measured(sum))
      else Err(UnlogicalOperation)
    case Measured(u) =>
      if u.kind == base.kind then
        var sum :- Units.Add(fix, base, Units.Quantity(u));
        Wrap(p.Class(), Measured(sum))
      else Err(UnlogicalOperation)
    case Number(n) =>
      var sum := Units.Add(fix, base, Units.Num(n)).value;
      Wrap(p.Class(), Measured(sum))
    case Other(_, _, _) => Err(UnlogicalOperation)
  }

  /** The property of `p`'s class whose base unit has `p`'s kind and magnitude `x`. */
  function WithValue(p: Property, x: real): (r: Property)
    ensures r.Class() == p.Class() && r.BaseUnit() == Unit(p.BaseUnit().kind, x)
  {
    match p
    case Enthalpy(e) => Enthalpy(Unit(e.kind, x))
    case SpecificEnthalpy(s) => SpecificEnthalpy(Unit(s.kind, x))
  }

  /** `-`: add the subtrahend scaled by -1, as its own `*` computes it. */
  function Sub(fix: Fixes, p: Property, s: Operand): (r: Result<Property>)
    requires p.Valid()
    ensures s.Number? ==> r == Add(fix, p, Number(-s.x))
    ensures s.Measured? ==> r == Add(fix, p, Measured(Unit(s.unit.kind, -s.unit.value)))
    ensures s.Wrapped? && s.property.SpecificEnthalpy? && s.property.Valid() ==>
              r == Add(fix, p, Measured(Unit(s.property.BaseUnit().kind, -s.property.BaseUnit().value)))
    ensures s.Wrapped? && s.property.Enthalpy? && s.property.Valid() ==>
              r == Add(fix, p, Wrapped(Enthalpy(Unit(s.property.BaseUnit().kind, -s.property.BaseUnit().value))))
    ensures s.Other? && s.negation.ToUnit? ==> r == Add(fix, p, Measured(s.negation.unit))
    ensures s.Other? && !s.negation.ToUnit? ==> r.Err?
  {
    match s
    case Number(x) => Add(fix, p, Number(x * -1.0))
    case Measured(u) =>
      Units.NegationByMul(AsWritten, u);
      Add(fix, p, Measured(Units.Mul(AsWritten, u, Units.Num(-1.0)).value))
    case Wrapped(q) =>
      if q.Valid() then
        assert ScalarOf(Number(-1.0)) == Ok(-1.0);
        Add(fix, p, AsOperand(Mul(AsWritten, q, Number(-1.0)).value))
      else Err(UnlogicalOperation)
    case Other(n, f, neg) =>
      match neg
      case ToUnit(u) => Add(fix, p, Measured(u))
      case ToSame => Add(fix, p, Other(n, if f.Some? then Some(f.value * -1.0) else None, Units.ToSame))
      case NoProduct => Err(TypeMismatch)
  }

  /** The `energy` and `specific_energy` accessors return the wrapped unit. */
  lemma AccessorsReturnWrappedUnit(u: Unit)
    ensures Wrap(EnthalpyClass, Measured(u)).Ok? ==> Wrap(EnthalpyClass, Measured(u)).value.energy == u
    ensures Wrap(SpecificEnthalpyClass, Measured(u)).Ok? ==>
              Wrap(SpecificEnthalpyClass, Measured(u)).value.specificEnergy == u
  {
  }

  /** Enthalpies and specific enthalpies cannot be built from numbers,
      from each other, or from units of the other dimension. */
  lemma WrappersRejectOtherDimensions(x: real, u: Unit, p: Property)
    ensures Wrap(EnthalpyClass, Number(x)) == Err(UnitMismatch)
    ensures Wrap(SpecificEnthalpyClass, Wrapped(p)) == Err(UnitMismatch)
    ensures DimOf(u.kind) == SpecificEnergy ==> Wrap(EnthalpyClass, Measured(u)) == Err(UnitMismatch)
    ensures DimOf(u.kind) == Energy ==> Wrap(SpecificEnthalpyClass, Measured(u)) == Err(UnitMismatch)
  {
  }

  /** A specific enthalpy minus a specific enthalpy: the subtrahend times -1
      is a raw KJPerKg, which is the base unit's exact class, so `+` adds it
      to the base unit. As written that addition is refused (KJPerKg keeps
      the unit object); with the magnitude kept the difference is again a
      specific enthalpy. */
  lemma SpecificEnthalpyDifference(x: real, y: real)
    ensures Sub(AsWritten, SpecificEnthalpy(Unit(KJPerKg, x)), Wrapped(SpecificEnthalpy(Unit(KJPerKg, y))))
            == Err(TypeMismatch)
    ensures Sub(Corrected, SpecificEnthalpy(Unit(KJPerKg, x)), Wrapped(SpecificEnthalpy(Unit(KJPerKg, y))))
            == Ok(SpecificEnthalpy(Unit(KJPerKg, x - y)))
  {
  }

  /** A unit minus a specific enthalpy reaches the unit's `+` with a raw
      KJPerKg: a KJPerKg meets the same-property branch, any other unit is
      refused as a different property. */
  lemma UnitMinusSpecificEnthalpy(fix: Fixes, u: Unit, y: real)
    ensures u.kind == KJPerKg ==>
              Units.Sub(fix, u, AsUnitOperand(Wrapped(SpecificEnthalpy(Unit(KJPerKg, y)))))
              == Units.Add(fix, u, Units.Quantity(Unit(KJPerKg, -y)))
    ensures u.kind != KJPerKg ==>
              Units.Sub(fix, u, AsUnitOperand(Wrapped(SpecificEnthalpy(Unit(KJPerKg, y))))) == Err(UnlogicalOperation)
  {
  }

  /** As written, mixing already fails at the first product: a specific
      enthalpy times a mass raises, since the base unit multiplies by a unit
      object. With the corrections, specific enthalpies h1, h2 times m1 and
      m2 kilograms give raw specific-energy units, and their sum over the
      total mass is the mass-weighted specific enthalpy, which lies between
      h1 and h2. */
  lemma MassWeightedMixing(h1: real, h2: real, m1: real, m2: real)
    requires m1 > 0.0 && m2 > 0.0
    ensures Mul(AsWritten, SpecificEnthalpy(Unit(KJPerKg, h1)), Measured(Unit(KiloGram, m1))) == Err(TypeMismatch)
    ensures Mul(Corrected, SpecificEnthalpy(Unit(KJPerKg, h1)), Measured(Unit(KiloGram, m1)))
            == Ok(Raw(Unit(KJPerKg, h1 * m1)))
    ensures Mul(Corrected, SpecificEnthalpy(Unit(KJPerKg, h2)), Measured(Unit(KiloGram, m2)))
            == Ok(Raw(Unit(KJPerKg, h2 * m2)))
    ensures Units.Add(Corrected, Unit(KiloGram, m1), Units.Quantity(Unit(KiloGram, m2))) == Ok(Unit(KiloGram, m1 + m2))
    ensures Units.Add(Corrected, Unit(KJPerKg, h1 * m1), Units.Quantity(Unit(KJPerKg, h2 * m2))).Ok?
    ensures var mixed := Units.Div(Corrected, Units.Add(Corrected, Unit(KJPerKg, h1 * m1),
                                                        Units.Quantity(Unit(KJPerKg, h2 * m2))).value,
                                   Units.Quantity(Unit(KiloGram, m1 + m2)));
      && mixed == Ok(Unit(KJPerKg, (h1 * m1 + h2 * m2) / (m1 + m2)))
      && (h1 <= h2 ==> h1 <= mixed.value.value <= h2)
      && (h2 <= h1 ==> h2 <= mixed.value.value <= h1)
  {
    SpecificEnthalpyTimesMass(h1, m1);
    SpecificEnthalpyTimesMass(h2, m2);
    var total := Units.Add(Corrected, Unit(KJPerKg, h1 * m1), Units.Quantity(Unit(KJPerKg, h2 * m2))).value;
    assert total == Unit(KJPerKg, h1 * m1 + h2 * m2);
    SpecificEnergyOverMass(total.value, m1 + m2);
    WeightedMeanBetween(h1, h2, m1, m2);
  }

  /** A specific enthalpy times a mass: TypeMismatch as written, the raw
      product once the multiply is repaired. */
  lemma SpecificEnthalpyTimesMass(h: real, m: real)
    ensures Mul(AsWritten, SpecificEnthalpy(Unit(KJPerKg, h)), Measured(Unit(KiloGram, m))) == Err(TypeMismatch)
    ensures Mul(Corrected, SpecificEnthalpy(Unit(KJPerKg, h)), Measured(Unit(KiloGram, m)))
            == Ok(Raw(Unit(KJPerKg, h * m)))
  {
    assert Units.GenericMul(Unit(KJPerKg, h), Units.Quantity(Unit(KiloGram, m))).value == Unit(KJPerKg, h * m);
  }

  /** A specific energy over a non-zero mass divides the magnitude. */
  lemma SpecificEnergyOverMass(e: real, m: real)
    requires m != 0.0
    ensures Units.Div(Corrected, Unit(KJPerKg, e), Units.Quantity(Unit(KiloGram, m))) == Ok(Unit(KJPerKg, e / m))
  {
    var kg := Unit(KiloGram, m);
    assert Units.ScalarOf(Units.Quantity(kg)) == Ok(m);
    assert Units.GenericDiv(Unit(KJPerKg, e), Units.Quantity(kg)) == Ok(Unit(KJPerKg, e / m));
  }

  /** A weighted mean with positive weights lies between the values. */
  lemma WeightedMeanBetween(h1: real, h2: real, m1: real, m2: real)
    requires m1 > 0.0 && m2 > 0.0
    ensures h1 <= h2 ==> h1 <= (h1 * m1 + h2 * m2) / (m1 + m2) <= h2
    ensures h2 <= h1 ==> h2 <= (h1 * m1 + h2 * m2) / (m1 + m2) <= h1
  {
    var mean := (h1 * m1 + h2 * m2) / (m1 + m2);
    assert mean * (m1 + m2) == h1 * m1 + h2 * m2;
    assert (mean - h1) * (m1 + m2) == (h2 - h1) * m2;
    assert (mean - h2) * (m1 + m2) == (h1 - h2) * m1;
    if h1 <= h2 {
      assert (h2 - h1) * m2 >= 0.0 && (h1 - h2) * m1 <= 0.0;
      assert mean - h1 >= 0.0 by { SignOfQuotient(mean - h1, m1 + m2); }
      assert mean - h2 <= 0.0 by { SignOfQuotient(h2 - mean, m1 + m2); }
    } else {
      assert (h2 - h1) * m2 <= 0.0 && (h1 - h2) * m1 >= 0.0;
      assert mean - h2 >= 0.0 by { SignOfQuotient(mean - h2, m1 + m2); }
      assert mean - h1 <= 0.0 by { SignOfQuotient(h1 - mean, m1 + m2); }
    }
  }

  /** A product with a positive factor has the sign of the other factor. */
  lemma SignOfQuotient(x: real, w: real)
    requires w > 0.0
    ensures x * w >= 0.0 ==> x >= 0.0
  {
  }
}
