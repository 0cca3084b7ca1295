/** Pressure units: Pascal, KiloPascal, Bar, Atmosphere and PoundSquareInch
    (with its alias PSI), pivoting on the Pascal. */
module PressureUnits {
  import opened Units

  predicate IsPressure(p: Unit) { DimOf(p.kind) == Pressure }

  /** The factor each pressure class multiplies its magnitude by. */
  function Factor(k: Kind): real
    requires DimOf(k) == Pressure
  {
    match k
    case Pascal => 1.0
    case KiloPascal => 1000.0
    case Bar => 100000.0
    case Atmosphere => 101325.0
    case PoundSquareInch | PSI => 6894.76
  }

  lemma PivotIsScaledValue(p: Unit)
    requires IsPressure(p)
    ensures Base(p) == p.value * Factor(p.kind)
    ensures PropertyName(DimOf(p.kind)) == "pressure"
  {
  }

  /** The accessors divide the pivot by the factor of their class. */
  function ToPascal(p: Unit): (r: Unit)
    requires IsPressure(p)
    ensures r.kind == Pascal && Base(r) == Base(p)
  {
    Unit(Pascal, Base(p))
  }

  function ToBar(p: Unit): (r: Unit)
    requires IsPressure(p)
    ensures r.kind == Bar && Base(r) == Base(p)
    ensures r.value * Factor(Bar) == Base(p)
  {
    Unit(Bar, Base(p) / 100000.0)
  }

  function ToAtmosphere(p: Unit): (r: Unit)
    requires IsPressure(p)
    ensures r.kind == Atmosphere && Base(r) == Base(p)
    ensures r.value * Factor(Atmosphere) == Base(p)
  {
    Unit(Atmosphere, Base(p) / 101325.0)
  }

  function ToKPa(p: Unit): (r: Unit)
    requires IsPressure(p)
    ensures r.kind == KiloPascal && Base(r) == Base(p)
    ensures r.value * Factor(KiloPascal) == Base(p)
  {
    Unit(KiloPascal, Base(p) / 1000.0)
  }

  function ToPsi(p: Unit): (r: Unit)
    requires IsPressure(p)
    ensures r.kind == PoundSquareInch && Base(r) == Base(p)
    ensures r.value * Factor(PoundSquareInch) == Base(p)
  {
    Unit(PoundSquareInch, Base(p) / 6894.76)
  }

  /** `kilo_pascal` is `kPa`. */
  function ToKiloPascal(p: Unit): (r: Unit)
    requires IsPressure(p)
    ensures r.kind == KiloPascal && Base(r) == Base(p)
  {
    ToKPa(p)
  }

  /** The accessors agree with the conversion constructors. */
  lemma AccessorsAreConversions(p: Unit)
    requires IsPressure(p)
    ensures ToPascal(p) == Convert(Pascal, p)
    ensures ToBar(p) == Convert(Bar, p)
    ensures ToAtmosphere(p) == Convert(Atmosphere, p)
    ensures ToKPa(p) == Convert(KiloPascal, p)
    ensures ToPsi(p) == Convert(PoundSquareInch, p)
  {
  }

  /** PSI behaves as PoundSquareInch in every respect but its class name. */
  lemma PsiIsPoundSquareInch(fix: Fixes, x: real, a: Operand)
    ensures Base(Unit(PSI, x)) == Base(Unit(PoundSquareInch, x))
    ensures Symbol(PSI) == Symbol(PoundSquareInch)
    ensures DimOf(PSI) == DimOf(PoundSquareInch)
    ensures Add(fix, Unit(PSI, x), a).Ok? == Add(fix, Unit(PoundSquareInch, x), a).Ok?
    ensures Add(fix, Unit(PSI, x), a).Ok? ==>
              Add(fix, Unit(PSI, x), a).value.value == Add(fix, Unit(PoundSquareInch, x), a).value.value
  {
  }

  /** One atmosphere is 101.325 kPa. */
  lemma AtmosphereInKiloPascal()
    ensures ToKPa(Unit(Atmosphere, 1.0)) == Unit(KiloPascal, 101.325)
  {
  }
}
