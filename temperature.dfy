/** Temperature units: Celcius, Kelvin and Fahrenheit, pivoting on Kelvin. */
module TemperatureUnits {
  import opened Units

  predicate IsTemperature(t: Unit) { DimOf(t.kind) == Temperature }

  /** The `kelvin` accessor. */
  function ToKelvin(t: Unit): (r: Unit)
    requires IsTemperature(t)
    ensures r.kind == Kelvin && Base(r) == Base(t)
    ensures r.value == Base(t)
  {
    Unit(Kelvin, Base(t))
  }

  /** The `celcius` accessor. */
  function ToCelcius(t: Unit): (r: Unit)
    requires IsTemperature(t)
    ensures r.kind == Celcius && Base(r) == Base(t)
  {
    Unit(Celcius, Base(t) - 273.15)
  }

  /** The `fahrenheit` accessor. */
  function ToFahrenheit(t: Unit): (r: Unit)
    requires IsTemperature(t)
    ensures r.kind == Fahrenheit && Base(r) == Base(t)
  {
    Unit(Fahrenheit, (Base(t) * (9.0 / 5.0)) - 459.67)
  }

  /** The accessors agree with the conversion constructors. */
  lemma AccessorsAreConversions(t: Unit)
    requires IsTemperature(t)
    ensures ToKelvin(t) == Convert(Kelvin, t)
    ensures ToCelcius(t) == Convert(Celcius, t)
    ensures ToFahrenheit(t) == Convert(Fahrenheit, t)
  {
  }

  /** All three scales carry the tag "temperature". */
  lemma TemperatureTag(k: Kind)
    requires k == Celcius || k == Kelvin || k == Fahrenheit
    ensures PropertyName(DimOf(k)) == "temperature"
  {
  }

  /** An object that is not a unit but has the property name "temperature"
      and a `float()` is added through `Kelvin(obj)`, which reads its
      `float()`; `Celcius(obj)` adds 273.15 to the object itself, which such
      an object does not support. Subtracting an object whose product with -1
      is of the same sort subtracts its `float()`. */
  lemma ForeignTemperatureAdds(fix: Fixes, x: real, y: real)
    ensures Add(fix, Unit(Kelvin, x), Foreign(Some("temperature"), Some(y), ToSame)) == Ok(Unit(Kelvin, x + y))
    ensures Add(fix, Unit(Celcius, x), Foreign(Some("temperature"), Some(y), ToSame)) == Err(TypeMismatch)
    ensures Sub(fix, Unit(Kelvin, x), Foreign(Some("temperature"), Some(y), ToSame)) == Ok(Unit(Kelvin, x - y))
    ensures Add(fix, Unit(Kelvin, x), Foreign(Some("pressure"), Some(y), ToSame)) == Err(UnlogicalOperation)
  {
    TemperatureTag(Kelvin);
  }

  /** The constructors from a number. */
  lemma ConstructorPivots(x: real)
    ensures Base(Unit(Celcius, x)) == x + 273.15
    ensures Base(Unit(Kelvin, x)) == x
    ensures Base(Unit(Fahrenheit, x)) == (x + 459.67) * 5.0 / 9.0
  {
  }

  /** Celcius(100).kelvin is 373.15 K. */
  lemma BoilingPointInKelvin()
    ensures ToKelvin(Unit(Celcius, 100.0)) == Unit(Kelvin, 373.15)
  {
  }

  /** Celcius(Fahrenheit(Celcius(c))) is c again. */
  lemma CelciusFahrenheitRoundTrip(c: real)
    ensures Convert(Celcius, Convert(Fahrenheit, Unit(Celcius, c))).value == c
  {
    ConvertRoundTrip(Fahrenheit, Unit(Celcius, c));
  }

  /** Any accessor chain that ends in a scale gives the same unit as going
      there directly. */
  lemma AccessorChain(t: Unit)
    requires IsTemperature(t)
    ensures ToCelcius(ToFahrenheit(ToKelvin(t))) == ToCelcius(t)
    ensures ToFahrenheit(ToCelcius(t)) == ToFahrenheit(t)
  {
  }
}
