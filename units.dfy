/** The dimension-tagged unit algebra: every unit value carries its dimension
    (the property name), its magnitude in its own named unit, and, for most
    kinds, a magnitude in the pivot unit of its dimension (Kelvin, Pascal,
    litre, kilogram, cubic metre per kilogram). Arithmetic is gated by the
    dimension tag. Class dispatch of the original is a match on the kind. */
module Units {

  /** The exceptions raised by the unit, property and state layers. */
  datatype Error =
    | UnitNotSupported    // an abstract class was instantiated, or a key is not supported
    | UndefinedUnit       // a state was keyed by something that is not a unit or property
    | UnitMismatch        // a property wrapper got a unit of the wrong dimension
    | UnlogicalOperation  // arithmetic between different physical properties
    | UnknownState        // the table has no state for the key, or the key is ambiguous
    | TypeMismatch        // the host language's type error: an operand it cannot combine
    | ZeroDivision        // division by a zero magnitude
    | MissingOperation    // an attribute or operator the object does not have
    | RecursionLimit      // a method that calls itself without end exhausts the stack

  datatype Option<+T> = None | Some(value: T)

  datatype Result<+T> = Ok(value: T) | Err(error: Error) {
    predicate IsFailure() { Err? }
    function PropagateFailure<U>(): Result<U> requires Err? { Err(error) }
    function Extract(): T requires Ok? { value }
  }

  /** Dimensions; each is the `property_name` tag of an abstract unit class. */
  datatype Dim = Temperature | Pressure | SpecificVolume | Volume | Mass | SpecificEnergy | Energy

  function PropertyName(d: Dim): string
  {
    match d
    case Temperature => "temperature"
    case Pressure => "pressure"
    case SpecificVolume => "specific_volume"
    case Volume => "volume"
    case Mass => "mass"
    case SpecificEnergy => "specific_energy"
    case Energy => "energy"
  }

  lemma PropertyNameInjective(d: Dim, e: Dim)
    ensures PropertyName(d) == PropertyName(e) <==> d == e
  {
  }

  /** The concrete (instantiable) unit classes. EnergyQuantity stands for an
      energy unit, whose classes are not part of this model. */
  datatype Kind =
    | Celcius | Kelvin | Fahrenheit
    | Pascal | KiloPascal | Bar | Atmosphere | PoundSquareInch | PSI
    | CubicMeterPerKiloGram
    | Liter | CubicMeter
    | KiloGram
    | KJPerKg
    | EnergyQuantity

  function DimOf(k: Kind): Dim
  {
    match k
    case Celcius | Kelvin | Fahrenheit => Temperature
    case Pascal | KiloPascal | Bar | Atmosphere | PoundSquareInch | PSI => Pressure
    case CubicMeterPerKiloGram => SpecificVolume
    case Liter | CubicMeter => Volume
    case KiloGram => Mass
    case KJPerKg => SpecificEnergy
    case EnergyQuantity => Energy
  }

  function Symbol(k: Kind): string
  {
    match k
    case Celcius => "°C"
    case Kelvin => "°K"
    case Fahrenheit => "°F"
    case Pascal => "Pa"
    case KiloPascal => "kPa"
    case Bar => "bar"
    case Atmosphere => "atm"
    case PoundSquareInch | PSI => "psi"
    case CubicMeterPerKiloGram => "m³/kg"
    case Liter => "l"
    case CubicMeter => "m³"
    case KiloGram => "kg"
    case KJPerKg => "kJ/kg"
    case EnergyQuantity => ""
  }

  /** A unit value: its class and its magnitude in that class's own unit. */
  datatype Unit = Unit(kind: Kind, value: real)
  {
    function Dimension(): Dim { DimOf(kind) }
  }

  /** Whether the kind computes a `base_value` (KJPerKg leaves it unset). */
  predicate HasBase(k: Kind)
  {
    k != KJPerKg && k != EnergyQuantity
  }

  /** The classes whose magnitude is the pivot of their dimension; their
      constructors take `float()` of any argument that is not a unit of
      their own dimension. */
  predicate PivotKind(k: Kind)
  {
    k == Kelvin || k == Pascal || k == Liter || k == KiloGram || k == CubicMeterPerKiloGram
  }

  /** `base_value` as each constructor computes it from its own magnitude. */
  function Base(u: Unit): (r: real)
    requires HasBase(u.kind)
    ensures PivotKind(u.kind) ==> r == u.value
  {
    var v := u.value;
    match u.kind
    case Celcius => v + 273.15
    case Kelvin => v
    case Fahrenheit => (v + 459.67) * 5.0 / 9.0
    case Pascal => v
    case KiloPascal => v * 1000.0
    case Bar => v * 100000.0
    case Atmosphere => v * 101325.0
    case PoundSquareInch | PSI => v * 6894.76
    case CubicMeterPerKiloGram => v
    case Liter => v
    case CubicMeter => v * 1000.0
    case KiloGram => v
  }

  /** The magnitude in kind `k` of a pivot magnitude `b`, as the accessors of
      each dimension compute it. */
  function FromBase(k: Kind, b: real): (r: real)
    requires HasBase(k)
    ensures PivotKind(k) ==> r == b
  {
    match k
    case Celcius => b - 273.15
    case Kelvin => b
    case Fahrenheit => b * (9.0 / 5.0) - 459.67
    case Pascal => b
    case KiloPascal => b / 1000.0
    case Bar => b / 100000.0
    case Atmosphere => b / 101325.0
    case PoundSquareInch | PSI => b / 6894.76
    case CubicMeterPerKiloGram => b
    case Liter => b
    case CubicMeter => b / 1000.0
    case KiloGram => b
  }

  /** The linear part and the zero offset of each kind's conversion to its pivot. */
  function Scale(k: Kind): real
    requires HasBase(k)
  {
    match k
    case Fahrenheit => 5.0 / 9.0
    case KiloPascal | CubicMeter => 1000.0
    case Bar => 100000.0
    case Atmosphere => 101325.0
    case PoundSquareInch | PSI => 6894.76
    case _ => 1.0
  }

  function Offset(k: Kind): real
    requires HasBase(k)
  {
    match k
    case Celcius => 273.15
    case Fahrenheit => 459.67 * 5.0 / 9.0
    case _ => 0.0
  }

  /** Every constructor's `base_value` is an affine function of its magnitude
      with a positive slope; so the pivot determines the magnitude. */
  lemma BaseIsAffine(u: Unit)
    requires HasBase(u.kind)
    ensures Scale(u.kind) > 0.0
    ensures Base(u) == Scale(u.kind) * u.value + Offset(u.kind)
  {
  }

  lemma BaseInjective(u: Unit, w: Unit)
    requires u.kind == w.kind && HasBase(u.kind)
    ensures Base(u) == Base(w) <==> u.value == w.value
  {
    BaseIsAffine(u);
    BaseIsAffine(w);
    if Base(u) == Base(w) {
      assert Scale(u.kind) * (u.value - w.value) == 0.0;
    }
  }

  /** The classes a caller may try to instantiate: the root, an abstract
      dimension class, or a concrete named unit. */
  datatype UnitClass = GenericUnit | Abstract(dim: Dim) | Named(kind: Kind)

  /** Instantiating a class from a number: only concrete classes have a
      constructor; the root and the dimension classes always refuse. */
  function Construct(c: UnitClass, x: real): (r: Result<Unit>)
    ensures r.Err? <==> !c.Named?
    ensures r.Err? ==> r.error == UnitNotSupported
    ensures r.Ok? ==> r.value.kind == c.kind && r.value.value == x
  {
    match c
    case Named(k) => Ok(Unit(k, x))
    case _ => Err(UnitNotSupported)
  }

  /** The conversion constructor `K(u)` for a unit `u` of the same dimension:
      it goes through the pivot, so the pivot is preserved. KJPerKg (and the
      energy stand-in) keep the magnitude as it is. */
  function Convert(k: Kind, u: Unit): (r: Unit)
    requires DimOf(u.kind) == DimOf(k)
    ensures r.kind == k
    ensures HasBase(k) ==> HasBase(u.kind) && Base(r) == Base(u)
    ensures !HasBase(k) ==> r.value == u.value
  {
    if HasBase(k) then Unit(k, FromBase(k, Base(u))) else Unit(k, u.value)
  }

  /** Converting to any kind of the same dimension and back gives the original. */
  lemma ConvertRoundTrip(k: Kind, u: Unit)
    requires DimOf(u.kind) == DimOf(k)
    ensures Convert(u.kind, Convert(k, u)) == u
  {
    var there := Convert(k, u);
    var back := Convert(u.kind, there);
    if HasBase(k) {
      BaseInjective(back, u);
    }
  }

  /** Converting through two kinds of one dimension lands on the same pivot as
      converting directly. */
  lemma PivotConsistency(k1: Kind, k2: Kind, u: Unit)
    requires DimOf(u.kind) == DimOf(k1) == DimOf(k2)
    ensures Convert(k2, Convert(k1, u)) == Convert(k2, u)
  {
    if HasBase(k2) {
      BaseInjective(Convert(k2, Convert(k1, u)), Convert(k2, u));
    }
  }

  /** Python's int() truncates toward zero. */
  function Trunc(x: real): (n: int)
    ensures 0.0 <= x ==> n as real <= x < n as real + 1.0
    ensures x < 0.0 ==> n as real - 1.0 < x <= n as real
  {
    if x >= 0.0 then x.Floor else -((-x).Floor)
  }

  /** int() and float() of a unit read its own magnitude, never the pivot. */
  function IntOf(u: Unit): (n: int)
    ensures n == Trunc(FloatOf(u))
  {
    Trunc(u.value)
  }

  function FloatOf(u: Unit): (x: real)
  {
    u.value
  }

  lemma CoercionReadsOwnValue(u: Unit)
    requires HasBase(u.kind)
    ensures FloatOf(u) == Base(u) <==> (Scale(u.kind) - 1.0) * u.value + Offset(u.kind) == 0.0
    ensures u.kind == Celcius ==> FloatOf(Convert(Kelvin, u)) == FloatOf(u) + 273.15
  {
    BaseIsAffine(u);
  }

  /** What `operand * -1` gives for an object that is not a unit: a unit
      (a specific enthalpy returns its raw product), an object of its own
      kind with its float() negated, or nothing (no `*` at all). */
  datatype Negation = ToUnit(unit: Unit) | ToSame | NoProduct

  /** The right operand of a unit operator: a number, a unit, or any other
      object, described by its `property_name` (if it has one), by what
      float() makes of it (if anything) and by what it gives times -1.
      A property wrapper is such an object. */
  datatype Operand =
    | Num(x: real)
    | Quantity(unit: Unit)
    | Foreign(name: Option<string>, asFloat: Option<real>, negation: Negation)

  /** `issameproperty`: compares property names; a number has none. */
  predicate IsSameProperty(u: Unit, a: Operand)
    ensures a.Num? ==> !IsSameProperty(u, a)
    ensures a.Quantity? ==> (IsSameProperty(u, a) <==> DimOf(u.kind) == DimOf(a.unit.kind))
  {
    PropertyNameInjective(DimOf(u.kind), if a.Quantity? then DimOf(a.unit.kind) else DimOf(u.kind));
    match a
    case Num(_) => false
    case Quantity(w) => PropertyName(DimOf(u.kind)) == PropertyName(DimOf(w.kind))
    case Foreign(name, _, _) => name == Some(PropertyName(DimOf(u.kind)))
  }

  lemma IsSamePropertyIffSameDim(u: Unit, w: Unit)
    ensures IsSameProperty(u, Quantity(w)) <==> DimOf(u.kind) == DimOf(w.kind)
  {
    PropertyNameInjective(DimOf(u.kind), DimOf(w.kind));
  }

  /** float() of an operand. */
  function ScalarOf(a: Operand): (r: Result<real>)
    ensures a.Num? ==> r == Ok(a.x)
    ensures a.Quantity? ==> r == Ok(FloatOf(a.unit))
    ensures a.Foreign? ==> (r.Ok? <==> a.asFloat.Some?)
    ensures a.Foreign? && r.Ok? ==> r.value == a.asFloat.value
  {
    match a
    case Num(x) => Ok(x)
    case Quantity(w) => Ok(FloatOf(w))
    case Foreign(_, f, _) => if f.Some? then Ok(f.value) else Err(TypeMismatch)
  }

  /** The three defects of the arithmetic and their repairs, one flag each:
      the generic multiply takes its multiplier through float(); a volume
      over a specific volume divides the cubic metres, not the litres; and
      `KJPerKg(u)` of a unit keeps its magnitude, not the unit object.
      `AsWritten` is the program as it stands; `Corrected` repairs all three. */
  datatype Fixes = Fixes(mulByFloat: bool, divideCubicMetres: bool, keepMagnitude: bool)

  const AsWritten := Fixes(false, false, false)
  const Corrected := Fixes(true, true, true)

  /** The generic multiply as written: `value * multiplier` only works for a
      number; a unit or other object multiplier has no reflected multiply. */
  function GenericMulAsWritten(u: Unit, m: Operand): (r: Result<Unit>)
    ensures r.Ok? <==> m.Num?
    ensures r.Ok? ==> r.value == Unit(u.kind, u.value * m.x)
    ensures r.Err? ==> r.error == TypeMismatch
  {
    if m.Num? then Ok(Unit(u.kind, u.value * m.x)) else Err(TypeMismatch)
  }

  /** The generic multiply repaired: the multiplier is taken as a bare number
      through float(), as the generic division already does. */
  function GenericMul(u: Unit, m: Operand): (r: Result<Unit>)
    ensures r.Ok? <==> ScalarOf(m).Ok?
    ensures r.Ok? ==> r.value == Unit(u.kind, u.value * ScalarOf(m).value)
  {
    var k :- ScalarOf(m);
    Ok(Unit(u.kind, u.value * k))
  }

  /** `GenericUnit.__mul__` under the given fixes. */
  function GenericTimes(fix: Fixes, u: Unit, m: Operand): (r: Result<Unit>)
    ensures !fix.mulByFloat ==> r == GenericMulAsWritten(u, m)
    ensures fix.mulByFloat ==> r == GenericMul(u, m)
  {
    if fix.mulByFloat then GenericMul(u, m) else GenericMulAsWritten(u, m)
  }

  /** The generic division: `value / float(divisor)`, in the same class. */
  function GenericDiv(u: Unit, d: Operand): (r: Result<Unit>)
    ensures r.Ok? <==> ScalarOf(d).Ok? && ScalarOf(d).value != 0.0
    ensures r.Ok? ==> r.value.kind == u.kind && r.value.value * ScalarOf(d).value == u.value
    ensures ScalarOf(d) == Ok(0.0) ==> r == Err(ZeroDivision)
  {
    var k :- ScalarOf(d);
    if k == 0.0 then Err(ZeroDivision) else Ok(Unit(u.kind, u.value / k))
  }

  /** Specific volume times mass: cubic metres of `kg * m³/kg`. */
  function SpecificVolumeTimesMass(sv: Unit, m: Unit): (r: Unit)
    requires DimOf(sv.kind) == SpecificVolume && DimOf(m.kind) == Mass
    ensures r.kind == CubicMeter
    ensures Base(r) == 1000.0 * Base(m) * Base(sv)
  {
    Unit(CubicMeter, Convert(KiloGram, m).value * Base(sv))
  }

  /** Volume divided by specific volume, as written: the litre pivot is
      divided by the m³/kg magnitude. */
  function VolumeOverSpecificVolumeAsWritten(v: Unit, sv: Unit): (r: Result<Unit>)
    requires DimOf(v.kind) == Volume && DimOf(sv.kind) == SpecificVolume
    ensures r.Ok? <==> Base(sv) != 0.0
    ensures r.Ok? ==> r.value.kind == KiloGram && Base(r.value) * Base(sv) == Base(v)
    ensures r.Err? ==> r.error == ZeroDivision
  {
    var s := Convert(CubicMeterPerKiloGram, sv).value;
    if s == 0.0 then Err(ZeroDivision) else Ok(Unit(KiloGram, Base(v) / s))
  }

  /** Volume divided by specific volume repaired: cubic metres divided by
      m³/kg give kilograms. */
  function VolumeOverSpecificVolume(v: Unit, sv: Unit): (r: Result<Unit>)
    requires DimOf(v.kind) == Volume && DimOf(sv.kind) == SpecificVolume
    ensures r.Ok? <==> Base(sv) != 0.0
    ensures r.Ok? ==> r.value.kind == KiloGram && 1000.0 * Base(r.value) * Base(sv) == Base(v)
    ensures r.Err? ==> r.error == ZeroDivision
  {
    var s := Base(sv);
    if s == 0.0 then Err(ZeroDivision)
    else
      var m3 := Base(v) / 1000.0;
      var kg := m3 / s;
      assert kg * s == m3;
      assert 1000.0 * kg * s == 1000.0 * (kg * s);
      Ok(Unit(KiloGram, kg))
  }

  /** The `*` operator, dispatched on the left operand's class. */
  function Mul(fix: Fixes, u: Unit, m: Operand): (r: Result<Unit>)
    ensures DimOf(u.kind) == SpecificVolume && m.Quantity? && DimOf(m.unit.kind) == Mass ==>
              r == Ok(SpecificVolumeTimesMass(u, m.unit))
    ensures !(DimOf(u.kind) == SpecificVolume && m.Quantity? && DimOf(m.unit.kind) == Mass) ==>
              (r.Ok? <==> if fix.mulByFloat then ScalarOf(m).Ok? else m.Num?)
    ensures !(DimOf(u.kind) == SpecificVolume && m.Quantity? && DimOf(m.unit.kind) == Mass) && r.Ok? ==>
              r.value == Unit(u.kind, u.value * ScalarOf(m).value)
    ensures r.Err? ==> r.error == TypeMismatch
  {
    if DimOf(u.kind) == SpecificVolume && m.Quantity? && DimOf(m.unit.kind) == Mass
    then Ok(SpecificVolumeTimesMass(u, m.unit))
    else GenericTimes(fix, u, m)
  }

  /** The `/` operator, dispatched on the left operand's class. A volume
      divided by anything but a specific volume is multiplied by it. */
  function Div(fix: Fixes, u: Unit, d: Operand): (r: Result<Unit>)
    ensures DimOf(u.kind) == Volume && d.Quantity? && DimOf(d.unit.kind) == SpecificVolume ==>
              r == if fix.divideCubicMetres then VolumeOverSpecificVolume(u, d.unit)
                   else VolumeOverSpecificVolumeAsWritten(u, d.unit)
    ensures DimOf(u.kind) == Volume && !(d.Quantity? && DimOf(d.unit.kind) == SpecificVolume) ==>
              r == GenericTimes(fix, u, d)
    ensures DimOf(u.kind) != Volume ==> r == GenericDiv(u, d)
  {
    if DimOf(u.kind) == Volume then
      if d.Quantity? && DimOf(d.unit.kind) == SpecificVolume then
        if fix.divideCubicMetres then VolumeOverSpecificVolume(u, d.unit)
        else VolumeOverSpecificVolumeAsWritten(u, d.unit)
      else GenericTimes(fix, u, d)
    else GenericDiv(u, d)
  }

  /** `/=` applies float() to the divisor before dividing, so the volume
      special case never fires. */
  function IDiv(u: Unit, d: Operand): (r: Result<Unit>)
    ensures ScalarOf(d).Err? ==> r.Err?
    ensures ScalarOf(d).Ok? ==> r == Div(AsWritten, u, Num(ScalarOf(d).value))
  {
    var k :- ScalarOf(d);
    Div(AsWritten, u, Num(k))
  }

  /** `+`: an operand of the same property is re-expressed in the left
      operand's class first; a number adds to the magnitude; anything else is
      refused. As written, `KJPerKg(w)` keeps the unit object `w`, so a
      specific energy plus a specific energy adds a number to an object.
      Another object of the same property converts only in the classes whose
      constructor takes its `float()`; the others compute on the object
      itself, which it is not given to support. */
  function Add(fix: Fixes, u: Unit, a: Operand): (r: Result<Unit>)
    ensures r.Ok? <==> a.Num? || (a.Quantity? && DimOf(a.unit.kind) == DimOf(u.kind)
                                  && (u.kind != KJPerKg || fix.keepMagnitude))
                         || (a.Foreign? && IsSameProperty(u, a) && PivotKind(u.kind) && a.asFloat.Some?)
    ensures r.Ok? ==> r.value.kind == u.kind
    ensures a.Num? ==> r == Ok(Unit(u.kind, u.value + a.x))
    ensures a.Quantity? && DimOf(a.unit.kind) == DimOf(u.kind) && r.Ok? ==>
              r.value.value == u.value + Convert(u.kind, a.unit).value
    ensures a.Quantity? && DimOf(a.unit.kind) == DimOf(u.kind) && r.Err? ==> r.error == TypeMismatch
    ensures a.Quantity? && DimOf(a.unit.kind) != DimOf(u.kind) ==> r == Err(UnlogicalOperation)
    ensures a.Foreign? && r.Ok? ==> r.value.value == u.value + a.asFloat.value
    ensures a.Foreign? && r.Err? ==> (r.error == UnlogicalOperation <==> !IsSameProperty(u, a))
  {
    if IsSameProperty(u, a) then
      match a
      case Quantity(w) =>
        IsSamePropertyIffSameDim(u, w);
        if u.kind == KJPerKg && !fix.keepMagnitude then Err(TypeMismatch)
        else Ok(Unit(u.kind, u.value + Convert(u.kind, w).value))
      case Foreign(_, f, _) =>
        if PivotKind(u.kind) && f.Some? then Ok(Unit(u.kind, u.value + f.value)) else Err(TypeMismatch)
      case _ => Err(TypeMismatch)
    else if a.Num? then Ok(Unit(u.kind, u.value + a.x))
    else
      if a.Quantity? then IsSamePropertyIffSameDim(u, a.unit); Err(UnlogicalOperation)
      else Err(UnlogicalOperation)
  }

  /** `operand * -1`, computed by the operand's own `*`. */
  function Negated(s: Operand): (r: Result<Operand>)
    ensures s.Num? ==> r == Ok(Num(-s.x))
    ensures s.Quantity? ==> r == Ok(Quantity(Unit(s.unit.kind, -s.unit.value)))
    ensures s.Foreign? && s.negation.ToUnit? ==> r == Ok(Quantity(s.negation.unit))
    ensures s.Foreign? && s.negation.ToSame? ==>
              r.Ok? && r.value.Foreign? && r.value.name == s.name && r.value.negation == ToSame
              && (r.value.asFloat.Some? <==> s.asFloat.Some?)
              && (s.asFloat.Some? ==> r.value.asFloat.value == -s.asFloat.value)
    ensures s.Foreign? && s.negation.NoProduct? ==> r == Err(TypeMismatch)
  {
    match s
    case Num(x) => Ok(Num(x * -1.0))
    case Quantity(w) =>
      NegationByMul(AsWritten, w);
      Ok(Quantity(Mul(AsWritten, w, Num(-1.0)).value))
    case Foreign(name, f, neg) =>
      match neg
      case ToUnit(w) => Ok(Quantity(w))
      case ToSame => Ok(Foreign(name, if f.Some? then Some(f.value * -1.0) else None, ToSame))
      case NoProduct => Err(TypeMismatch)
  }

  /** `-`: add the subtrahend scaled by -1. */
  function Sub(fix: Fixes, u: Unit, s: Operand): (r: Result<Unit>)
    ensures s.Num? ==> r == Add(fix, u, Num(-s.x))
    ensures s.Quantity? ==> r == Add(fix, u, Quantity(Unit(s.unit.kind, -s.unit.value)))
    ensures s.Foreign? && s.negation.ToUnit? ==> r == Add(fix, u, Quantity(s.negation.unit))
    ensures s.Foreign? && s.negation.NoProduct? ==> r == Err(TypeMismatch)
    ensures s.Foreign? && s.negation.ToSame? ==>
              (r.Ok? <==> IsSameProperty(u, s) && PivotKind(u.kind) && s.asFloat.Some?)
    ensures s.Foreign? && s.negation.ToSame? && r.Ok? ==>
              r == Ok(Unit(u.kind, u.value - s.asFloat.value))
    ensures s.Foreign? && s.negation.ToSame? && r.Err? ==> (r.error == UnlogicalOperation <==> !IsSameProperty(u, s))
  {
    var n :- Negated(s);
    Add(fix, u, n)
  }

  /** `unit * -1` negates the magnitude in the same class. */
  lemma NegationByMul(fix: Fixes, w: Unit)
    ensures Mul(fix, w, Num(-1.0)) == Ok(Unit(w.kind, -w.value))
  {
    assert ScalarOf(Num(-1.0)) == Ok(-1.0);
  }

  /** As written, a unit times a unit is refused unless it is a specific
      volume times a mass; with the multiply repaired it scales the
      magnitude by the multiplier's own magnitude. */
  lemma UnitTimesUnit(u: Unit, w: Unit)
    requires !(DimOf(u.kind) == SpecificVolume && DimOf(w.kind) == Mass)
    ensures Mul(AsWritten, u, Quantity(w)) == Err(TypeMismatch)
    ensures Mul(Corrected, u, Quantity(w)).Ok?
    ensures Mul(Corrected, u, Quantity(w)).value.kind == u.kind
    ensures Mul(Corrected, u, Quantity(w)).value.value == u.value * w.value
  {
  }

  /** Among same-dimension units with no zero offset, addition sums the pivots
      and is commutative in the pivot. */
  lemma AddSumsPivots(fix: Fixes, u: Unit, w: Unit)
    requires DimOf(u.kind) == DimOf(w.kind) && HasBase(u.kind)
    ensures Add(fix, u, Quantity(w)).Ok?
    ensures Base(Add(fix, u, Quantity(w)).value) == Base(u) + Base(w) - Offset(u.kind)
  {
    var c := Convert(u.kind, w);
    var r := Add(fix, u, Quantity(w)).value;
    assert r == Unit(u.kind, u.value + c.value);
    BaseIsAffine(r);
    BaseIsAffine(u);
    BaseIsAffine(c);
  }

  lemma AddCommutesWithoutOffset(fix: Fixes, u: Unit, w: Unit)
    requires DimOf(u.kind) == DimOf(w.kind) && HasBase(u.kind)
    requires Offset(u.kind) == 0.0 && Offset(w.kind) == 0.0
    ensures Base(Add(fix, u, Quantity(w)).value) == Base(Add(fix, w, Quantity(u)).value)
  {
    AddSumsPivots(fix, u, w);
    AddSumsPivots(fix, w, u);
  }

  /** The zero offset breaks commutativity: 0 °C + 0 K is absolute zero,
      0 K + 0 °C is 273.15 K. */
  lemma AddDoesNotCommuteWithOffset(fix: Fixes)
    ensures Add(fix, Unit(Celcius, 0.0), Quantity(Unit(Kelvin, 0.0))) == Ok(Unit(Celcius, -273.15))
    ensures Add(fix, Unit(Kelvin, 0.0), Quantity(Unit(Celcius, 0.0))) == Ok(Unit(Kelvin, 273.15))
  {
    assert Convert(Celcius, Unit(Kelvin, 0.0)) == Unit(Celcius, -273.15);
    assert Convert(Kelvin, Unit(Celcius, 0.0)) == Unit(Kelvin, 273.15);
  }

  /** Subtracting a same-dimension unit subtracts its pivot. */
  lemma SubSubtractsPivot(fix: Fixes, u: Unit, w: Unit)
    requires DimOf(u.kind) == DimOf(w.kind) && HasBase(u.kind)
    ensures Sub(fix, u, Quantity(w)).Ok?
    ensures Base(Sub(fix, u, Quantity(w)).value) == Base(u) - Base(w) + 2.0 * Offset(w.kind) - Offset(u.kind)
  {
    var n := Unit(w.kind, -w.value);
    assert Sub(fix, u, Quantity(w)) == Add(fix, u, Quantity(n));
    AddSumsPivots(fix, u, n);
    NegatedPivot(w);
  }

  /** Negating the magnitude reflects the pivot about the zero offset. */
  lemma NegatedPivot(w: Unit)
    requires HasBase(w.kind)
    ensures Base(Unit(w.kind, -w.value)) == 2.0 * Offset(w.kind) - Base(w)
  {
    BaseIsAffine(Unit(w.kind, -w.value));
    BaseIsAffine(w);
  }

  /** Subtraction undoes addition of a number, and division undoes scaling
      for every class outside the volume dimension. */
  lemma SubUndoesAdd(fix: Fixes, u: Unit, x: real)
    ensures Sub(fix, Add(fix, u, Num(x)).value, Num(x)) == Ok(u)
  {
  }

  lemma DivUndoesMul(fix: Fixes, u: Unit, k: real)
    requires k != 0.0 && DimOf(u.kind) != Volume
    ensures Mul(fix, u, Num(k)).Ok?
    ensures Div(fix, Mul(fix, u, Num(k)).value, Num(k)) == Ok(u)
  {
    var m := Mul(fix, u, Num(k)).value;
    assert m == Unit(u.kind, u.value * k);
    var d := GenericDiv(m, Num(k)).value;
    assert (d.value - u.value) * k == 0.0;
    assert d.value == u.value;
    assert Div(fix, m, Num(k)) == Ok(d);
  }
}
