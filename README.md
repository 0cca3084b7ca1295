# thermodynamics: units, property wrappers, saturated water and flasks

This Dafny project models the core of a small thermodynamics library. It has
three layers.

1. **Physical units.** A unit is a class (Celcius, KiloPascal, Liter,
   KJPerKg, ...) and a magnitude, `value`. Every class except KJPerKg also
   keeps a pivot, `base_value`, in one base unit per dimension: K, Pa, litre,
   kg and m³/kg. Converting between classes goes through the pivot. The accessors
   (`kelvin`, `kPa`, `m3`, ...) rebuild the pivot in another class.
   - Arithmetic works on the magnitude, in the left operand's class.
   - `+` and `-` accept only a unit of the same `property_name` or a bare
     number.
   - Specific volume × mass is a volume, and volume ÷ specific volume is a mass.
     A volume divided by anything else is multiplied by it.
2. **Property wrappers.** `Enthalpy` wraps an energy unit and
   `SpecificEnthalpy` wraps a specific-energy unit. Their arithmetic goes
   through the wrapped unit. An enthalpy divided by a mass becomes a specific
   enthalpy. A specific enthalpy times anything returns the raw product unit.
3. **Saturated water and flasks.** A state of water on the saturation line is
   found from one known property by a table lookup. The known property is a
   temperature, a pressure, or, for liquid water only, a specific enthalpy.
   The row's columns become the state's fields. A state times a mass or a
   volume fills a `Flask`. The flask sets its mass, volume, energy and
   enthalpy from the state's specific quantities.

The model has these modules:

- **`Units`** (`units.dfy`). The unit value `Unit(kind, value)` and the pivot
  table `Base`/`FromBase`. It also has the conversion constructor `Convert`
  and the operators `Mul`, `Div`, `IDiv`, `Add` and `Sub`, dispatched on
  the left operand's class.
- **Per-dimension accessors and facts:**
  - `TemperatureUnits` (`temperature.dfy`)
  - `PressureUnits` (`pressure.dfy`)
  - `AmountUnits` (`amount.dfy`)
  - `EnergyUnits` (`energy.dfy`)
- **`Properties`** (`properties.dfy`). The wrappers and their operators.
- **`Containers`** (`containers.dfy`). The class `Flask`, with fields that
  its methods assign step by step. The pure functions `MassFor`,
  `VolumeFor`, `EnergyFor`, `EnthalpyFor`, `FilledByMass` and `Filled` are
  its specification.
- **`Water`** (`water.dfy`). The lookup `Lookup`/`FindState`, and the
  classes `SaturationLineWater`, `SaturatedWater` and `SaturatedSteam`.
  Their constructors assign the row's columns. `SuperMul` models the lookup
  that `super(...).__mul__` performs along the classes' inheritance order.

Python exceptions become `Err` values of a `Result` type:

- `UnitNotSuported`/`UnitNotSupported` are one error kind.
- `TypeError` is `TypeMismatch`.
- `AttributeError` (a missing attribute or operator) is `MissingOperation`.
- `ZeroDivisionError` is `ZeroDivision`.
- `RuntimeError` for the maximum recursion depth is `RecursionLimit`.

The code is modelled as it is written, including the defects listed under
Findings. Three of them lie in the operators, and each operator takes a
`Units.Fixes` value that says which of three minimal repairs to apply:

- `mulByFloat`: the multiplier is taken through `float()`, as `/` does.
- `divideCubicMetres`: a volume over a specific volume divides the volume in
  m³, not the litre pivot.
- `keepMagnitude`: a KJPerKg built from a specific energy keeps that energy's
  magnitude.

`Units.AsWritten` applies none of them, and the classes of `Water` use it.
`Units.Corrected` applies all three. A member whose contract takes a `fix`
parameter holds for every combination. One whose contract names `AsWritten`
or `Corrected` states what the program as written, or as repaired, does.

`x - y` is `x + (y * -1)` in the code. For a number or a unit the product is
computed. For any other object, what `y * -1` returns is an input, a
`Units.Negation`: a unit, an object of the same sort, or no product at all.

Class dispatch (`isinstance`, overridden methods) becomes a match on the
unit's kind or on the wrapper's constructor.

## Model

| member | source | states |
|---|---|---|
| Units.PropertyNameInjective | units/__init__.py:104-109 | two dimensions have the same `property_name` exactly when they are the same dimension |
| Units.Base | units/temperature.py:50-55 | the pivot of a unit; in the pivot classes (K, Pa, l, kg, m³/kg) the magnitude is the pivot |
| Units.FromBase | units/temperature.py:16-19 | the magnitude an accessor builds from a pivot; a pivot class takes the pivot unchanged |
| Units.BaseIsAffine | units/temperature.py:63-68 | every constructor's pivot is a positive-slope affine function of its magnitude (slope and zero offset per class) |
| Units.BaseInjective | units/temperature.py:37-42 | within a class, the pivot determines the magnitude and vice versa |
| Units.Construct | units/__init__.py:37-39 | only a concrete class can be built from a number, and it keeps the number; the root class and the dimension classes raise UnitNotSupported |
| Units.Convert | units/temperature.py:32-68 | the conversion constructor yields the target class with the same pivot; for KJPerKg it keeps the magnitude, which is the repaired reading of the second Findings row (as written `KJPerKg(u)` stores the object `u`, and `Units.Add` models what follows) |
| Units.ConvertRoundTrip | units/pressure.py:48-116 | converting to any class of the same dimension and back gives the original unit |
| Units.PivotConsistency | units/amount.py:84-89 | converting through an intermediate class gives the same unit as converting directly |
| Units.Trunc | units/__init__.py:55-57 | `int()` truncates toward zero: the result is within 1 of the magnitude, on the side of zero |
| Units.IntOf | units/__init__.py:55-57 | `int()` of a unit is its `float()` truncated toward zero |
| Units.CoercionReadsOwnValue | units/__init__.py:55-61 | `float()` reads the unit's own magnitude, which equals the pivot exactly when the class's affine map fixes that value; `float()` of a Celcius in Kelvin is 273.15 more |
| Units.IsSameProperty | units/__init__.py:104-109 | a number has no `property_name`, so the check is false; a unit passes exactly when it has the same dimension |
| Units.IsSamePropertyIffSameDim | units/__init__.py:104-109 | two units pass `issameproperty` exactly when they have the same dimension |
| Units.ScalarOf | units/__init__.py:59-61 | `float()` of a number is the number and of a unit is its `float()`; another object has a `float()` only if it defines one, and then it is that value |
| Units.GenericMulAsWritten | units/__init__.py:63-65 | as written, the generic multiply succeeds exactly for a number and scales the magnitude; a unit or other object raises TypeMismatch |
| Units.GenericMul | units/__init__.py:63-65 | the repaired generic multiply succeeds exactly when the multiplier has a `float()`, and scales the magnitude by it in the same class |
| Units.GenericTimes | units/__init__.py:63-65 | the generic multiply is the as-written one unless `mulByFloat` is repaired |
| Units.GenericDiv | units/__init__.py:72-74 | division succeeds exactly for a non-zero `float()` divisor, and the result times the divisor is the original magnitude; a zero divisor raises ZeroDivision |
| Units.SpecificVolumeTimesMass | units/amount.py:17-22 | specific volume times mass is cubic metres whose litre pivot is 1000 × kg × m³/kg |
| Units.VolumeOverSpecificVolumeAsWritten | units/amount.py:48-53 | as written, the mass times the specific volume is the litre pivot, not the volume in m³; a zero specific volume raises ZeroDivision |
| Units.VolumeOverSpecificVolume | units/amount.py:48-53 | repaired: kilograms whose product with the specific volume, times 1000, is the litre pivot |
| Units.Mul | units/amount.py:17-22 | `*` is the specific-volume rule for a specific volume times a mass; otherwise, as written, it succeeds exactly for a number (with `mulByFloat`, for anything with a `float()`) and scales the magnitude in the same class; every failure is TypeMismatch |
| Units.Div | units/amount.py:48-53 | `/` is the as-written mass rule (or the repaired one) for a volume over a specific volume, the multiply for a volume over anything else, and the generic division in every other class |
| Units.IDiv | units/__init__.py:76-79 | `/=` fails when the divisor has no `float()`, and otherwise is the as-written `/` by that number |
| Units.Add | units/__init__.py:81-88 | `+` succeeds exactly for a number or a unit of the same dimension, except that as written a KJPerKg cannot take a unit; the result is in the left class and its magnitude is the left magnitude plus the right one re-expressed in the left class; a same-dimension failure is TypeMismatch and another dimension UnlogicalOperation; a foreign object of the same `property_name` with a `float()` adds that `float()` in the classes whose constructor takes `float()` of its argument (K, Pa, l, kg, m³/kg) and raises TypeMismatch in the others, and one of another `property_name` raises UnlogicalOperation |
| Units.Negated | units/__init__.py:95-97 | `subtractor * -1`: a number or a unit negated, a foreign object's given product, or TypeMismatch when it has none |
| Units.Sub | units/__init__.py:95-97 | `-` is `+` of `subtractor * -1`: of the negated number or unit, or of a foreign object's product; an object without a product raises TypeMismatch; one whose product is of the same sort subtracts its `float()` exactly when `+` would accept it, and otherwise fails with UnlogicalOperation exactly when its `property_name` differs |
| Units.NegationByMul | units/__init__.py:95-97 | `unit * -1` is the same class with the magnitude negated, as written and repaired |
| Units.UnitTimesUnit | units/__init__.py:63-65 | as written, a unit times a unit (other than specific volume × mass) raises TypeMismatch; repaired, it is the product of the magnitudes in the left class |
| Units.AddSumsPivots | units/__init__.py:81-88 | for same-dimension units with a pivot the sum succeeds, and its pivot is the sum of the pivots minus the left class's zero offset |
| Units.AddCommutesWithoutOffset | units/__init__.py:81-88 | addition commutes in the pivot when neither class has a zero offset |
| Units.AddDoesNotCommuteWithOffset | units/__init__.py:81-88 | 0 °C + 0 K is −273.15 °C but 0 K + 0 °C is 273.15 K |
| Units.SubSubtractsPivot | units/__init__.py:95-97 | the difference succeeds, and its pivot is the difference of the pivots, corrected by the zero offsets |
| Units.SubUndoesAdd | units/__init__.py:95-97 | subtracting a number undoes adding it |
| Units.DivUndoesMul | units/__init__.py:63-74 | outside the volume dimension, dividing by a non-zero number undoes multiplying by it |
| TemperatureUnits.ToKelvin | units/temperature.py:16-19 | `kelvin` is a Kelvin unit with the same pivot, whose magnitude is the pivot |
| TemperatureUnits.ToCelcius | units/temperature.py:21-24 | `celcius` is a Celcius unit with the same pivot |
| TemperatureUnits.ToFahrenheit | units/temperature.py:26-29 | `fahrenheit` is a Fahrenheit unit with the same pivot |
| TemperatureUnits.AccessorsAreConversions | units/temperature.py:16-29 | each accessor equals the conversion constructor of its class |
| TemperatureUnits.TemperatureTag | units/temperature.py:14 | all three scales have the property name "temperature" |
| TemperatureUnits.ForeignTemperatureAdds | units/temperature.py:50-55 | K + an object named "temperature" with `float()` y is K of the sum, and K minus it K of the difference, because `Kelvin(obj)` reads `float(obj)`; °C + the same object raises TypeMismatch, since `Celcius(obj)` adds 273.15 to the object; an object named "pressure" raises UnlogicalOperation |
| TemperatureUnits.ConstructorPivots | units/temperature.py:37-68 | the pivot the Celcius, Kelvin and Fahrenheit constructors compute from a number |
| TemperatureUnits.BoilingPointInKelvin | units/temperature.py:16-19 | 100 °C is 373.15 K |
| TemperatureUnits.CelciusFahrenheitRoundTrip | units/temperature.py:58-68 | Celcius to Fahrenheit and back gives the original magnitude |
| TemperatureUnits.AccessorChain | units/temperature.py:16-29 | a chain of accessors gives the same unit as the last accessor alone |
| PressureUnits.PivotIsScaledValue | units/pressure.py:48-116 | every pressure pivot is the magnitude times its class factor (1, 1000, 100000, 101325, 6894.76) |
| PressureUnits.ToPascal | units/pressure.py:17-20 | `pascal` keeps the pivot |
| PressureUnits.ToBar | units/pressure.py:22-25 | `bar` keeps the pivot, and its magnitude times 100000 is the pivot |
| PressureUnits.ToAtmosphere | units/pressure.py:27-30 | `atmosphere` keeps the pivot, and its magnitude times 101325 is the pivot |
| PressureUnits.ToKPa | units/pressure.py:32-35 | `kPa` keeps the pivot, and its magnitude times 1000 is the pivot |
| PressureUnits.ToPsi | units/pressure.py:37-40 | `psi` keeps the pivot, and its magnitude times 6894.76 is the pivot |
| PressureUnits.ToKiloPascal | units/pressure.py:42-45 | `kilo_pascal` is a KiloPascal with the same pivot |
| PressureUnits.AccessorsAreConversions | units/pressure.py:17-45 | each accessor equals the conversion constructor of its class |
| PressureUnits.PsiIsPoundSquareInch | units/pressure.py:113-116 | PSI has the pivot, symbol, dimension and addition behaviour of PoundSquareInch |
| PressureUnits.AtmosphereInKiloPascal | units/pressure.py:32-35 | 1 atm is 101.325 kPa |
| AmountUnits.ToM3 | units/amount.py:55-58 | `m3` keeps the pivot, and 1000 times its magnitude is the litre pivot |
| AmountUnits.ToLiter | units/amount.py:60-63 | `liter` keeps the pivot as its magnitude |
| AmountUnits.ToKilogram | units/amount.py:97-100 | `kilogram` keeps the pivot as its magnitude |
| AmountUnits.ToKg | units/amount.py:102-105 | `kg` is a KiloGram with the same pivot |
| AmountUnits.ToM3PerKg | units/amount.py:24-27 | `m3_per_kg` keeps the pivot |
| AmountUnits.AccessorsAreConversions | units/amount.py:24-105 | each accessor equals the conversion constructor of its class |
| AmountUnits.ConstructorPivots | units/amount.py:30-118 | the litre is the volume pivot (a m³ is 1000 of it); kilograms and m³/kg are their own pivots |
| AmountUnits.SpecificVolumeTimesMassIsVolume | units/amount.py:17-20 | specific volume × mass succeeds, as written and repaired, and is the cubic metres `kg × m³/kg` |
| AmountUnits.SpecificVolumeTimesOtherScales | units/amount.py:21-22 | specific volume times anything but a mass is the generic multiply, which as written succeeds exactly for a number |
| AmountUnits.VolumeOverSpecificVolumeIsMass | units/amount.py:48-51 | volume ÷ a non-zero specific volume is kilograms; as written their product with the specific volume is the volume in litres (1000 times the volume in m³), repaired it is the volume in m³ |
| AmountUnits.VolumeOverZeroSpecificVolume | units/amount.py:48-51 | volume ÷ a zero specific volume raises ZeroDivision |
| AmountUnits.VolumeOverNumberMultiplies | units/amount.py:52-53 | a volume divided by a number is multiplied by it |
| AmountUnits.VolumeOverOtherUnitRefused | units/amount.py:52-53 | as written, a volume divided by a unit other than a specific volume raises TypeMismatch; repaired, it is multiplied by that unit's magnitude |
| AmountUnits.TenLitresOverTwo | units/amount.py:52-53 | 10 l ÷ 2 is 20 l |
| AmountUnits.InPlaceDivisionOfVolume | units/__init__.py:76-79 | a volume `/=` a specific volume multiplies by its magnitude and never gives a mass |
| AmountUnits.InPlaceDivisionAgrees | units/__init__.py:76-79 | outside the volume dimension, `/=` equals `/` |
| AmountUnits.AmountsDoNotMix | units/__init__.py:81-88 | adding or subtracting across specific volume, volume and mass raises UnlogicalOperation |
| AmountUnits.AsWrittenVolumeRoundTrip | units/amount.py:48-51 | as written, volume ÷ specific volume × specific volume gives 1000 times the original volume |
| AmountUnits.AsWrittenCubicMetreOfWater | units/amount.py:48-51 | 1 m³ at 0.001 m³/kg is 1 000 000 kg as written and 1000 kg repaired |
| AmountUnits.VolumeRoundTrip | units/amount.py:48-51 | repaired, volume ÷ specific volume × specific volume gives back the original volume |
| EnergyUnits.SpecificEnergyTag | units/energy.py:11-19 | KJPerKg has the property name "specific_energy", the symbol "kJ/kg" and no pivot |
| EnergyUnits.KJPerKgKeepsValue | units/energy.py:17-22 | KJPerKg stores its number as it is; the abstract SpecificEnergy cannot be built |
| EnergyUnits.AsWrittenSpecificEnergiesDoNotAdd | units/energy.py:21-22 | as written, x kJ/kg + y kJ/kg and x kJ/kg − y kJ/kg raise TypeMismatch, while x kJ/kg + y is x + y kJ/kg |
| EnergyUnits.SpecificEnergiesAdd | units/__init__.py:81-97 | repaired, specific energies pass the property guard, and add and subtract their magnitudes |
| EnergyUnits.SpecificEnergyTimesMass | units/__init__.py:63-65 | as written, kJ/kg × kg raises TypeMismatch; repaired, it is kJ/kg of the product |
| Properties.IntOf | properties/__init__.py:35-37 | `int()` of a property is its `float()` truncated toward zero |
| Properties.FloatOf | properties/__init__.py:39-41 | `float()` of a property is `float()` of its base unit |
| Properties.ScalarOf | properties/__init__.py:39-41 | `float()` of a property is its base unit's magnitude, of a unit its magnitude, of a number the number; another object has one only if it defines one, and then it is that value |
| Properties.Wrap | properties/__init__.py:92-119 | a wrapper accepts exactly a unit of its own dimension and keeps it as its base unit; otherwise UnitMismatch; the generic property raises UnitNotSupported |
| Properties.Mul | properties/__init__.py:126-131 | a property times an operand succeeds exactly for a number as written (with `mulByFloat`, for anything with a `float()`), otherwise TypeMismatch; it scales the base unit's magnitude; a specific enthalpy returns the raw unit and an enthalpy stays an enthalpy |
| Properties.Div | properties/__init__.py:103-107 | an enthalpy over a mass is the specific enthalpy of the energy quotient; any other division divides the base magnitude by a non-zero `float()` and keeps the class; a zero `float()` raises ZeroDivision and a divisor without one TypeMismatch |
| Properties.IDiv | properties/__init__.py:56-59 | `/=` divides by `float()` of the divisor, so the class never changes |
| Properties.Add | properties/__init__.py:61-70 | `+` accepts a number, a property of the same class, or a unit of the base unit's exact class; as written a specific enthalpy can take only the number; the sum keeps the class and the base kind and adds the magnitudes; a refused operand is UnlogicalOperation and a failure of the unit sum TypeMismatch |
| Properties.Sub | properties/__init__.py:77-79 | `-` is `+` of `subtractor * -1`: a number or unit negated, a specific enthalpy turned into its raw negated unit, an enthalpy negated, a foreign object's product; a foreign object without a unit product fails |
| Properties.AccessorsReturnWrappedUnit | properties/__init__.py:98-124 | `energy` and `specific_energy` return the wrapped unit |
| Properties.WrappersRejectOtherDimensions | properties/__init__.py:92-119 | a number, another wrapper, or a unit of the other energy dimension is refused with UnitMismatch |
| Properties.SpecificEnthalpyDifference | properties/__init__.py:77-79 | as written, x kJ/kg − y kJ/kg as specific enthalpies raises TypeMismatch; repaired, it is the specific enthalpy of x − y |
| Properties.UnitMinusSpecificEnthalpy | units/__init__.py:95-97 | a kJ/kg unit minus a specific enthalpy is the unit plus the negated raw kJ/kg; any other unit refuses it with UnlogicalOperation |
| Properties.MassWeightedMixing | properties/__init__.py:126-131 | for any positive masses m1, m2: as written, h kJ/kg × m1 kg already raises TypeMismatch; repaired, the two products are the raw kJ/kg of h × m, the masses add to m1 + m2, and the sum of the products over that total is the mass-weighted mean, which lies between h1 and h2 |
| Properties.SpecificEnthalpyTimesMass | properties/__init__.py:126-131 | a specific enthalpy times a mass raises TypeMismatch as written and is the raw kJ/kg unit of the product repaired |
| Properties.SpecificEnergyOverMass | units/__init__.py:72-74 | repaired, a kJ/kg unit over a non-zero mass divides the magnitude by the kilograms |
| Containers.MassFor | containers/__init__.py:29 | `volume / substance.volume` is the as-written or the repaired mass rule; a substance without `volume` is MissingOperation |
| Containers.VolumeFor | containers/__init__.py:34 | `substance.volume * mass` is the specific-volume rule's cubic metres; MissingOperation without `volume` |
| Containers.EnergyFor | containers/__init__.py:35 | `substance.energy * mass` succeeds for a specific energy exactly when `mulByFloat` is repaired, and then is that class with the product of the magnitudes; every failure of an existing attribute is TypeMismatch |
| Containers.EnthalpyFor | containers/__init__.py:36 | `substance.enthalpy * mass` succeeds exactly when `mulByFloat` is repaired, and a specific enthalpy then gives the raw unit of the product; MissingOperation without `enthalpy` |
| Containers.FilledByMass | containers/__init__.py:31-36 | `_update_by_mass` as a value: it succeeds exactly when the volume, energy and enthalpy steps do; the mass is the one given and the volume, energy and enthalpy are those the three steps compute; otherwise the first step's error |
| Containers.Filled | containers/__init__.py:17-24 | a flask of something that is neither a volume nor a mass is empty; a mass is `FilledByMass`; a volume whose mass step fails gives that error, and otherwise is `FilledByMass` of the computed mass, which also replaces the volume |
| Containers.Flask.constructor | containers/__init__.py:11-19 | a new flask stores the substance and has no mass, volume, energy or enthalpy |
| Containers.Flask.UpdateByVolume | containers/__init__.py:26-29 | `_update_by_volume` sets the volume, then sets the mass to the volume over the substance's specific volume; it leaves the mass alone if that raises |
| Containers.Flask.UpdateByMass | containers/__init__.py:31-36 | `_update_by_mass` sets the mass, then the volume, energy and enthalpy in order; it stops at the first error, and the fields it does not reach keep their old values; without an error the fields are the fill-by-mass specification |
| Containers.Flask.Fill | containers/__init__.py:17-24 | the flask exists exactly when the specification succeeds; it is new, holds the substance unchanged, and its fields are the specification's; otherwise the first error |
| Containers.FillAsWrittenFails | containers/__init__.py:17-24 | as written, a saturated substance cannot be filled: by mass TypeMismatch at the energy step, by volume TypeMismatch, or ZeroDivision at a zero specific volume |
| Containers.FillByMass | containers/__init__.py:31-36 | as written, filling with a mass raises TypeMismatch at the energy step after the volume step succeeds; repaired, the mass is the one given, and the volume, energy and enthalpy are the specific values times the kilograms (the enthalpy as a raw unit) |
| Containers.FillByVolume | containers/__init__.py:20-29 | as written, filling with a volume raises TypeMismatch, after a mass whose product with the specific volume is the litre pivot; repaired, the mass times the specific volume is the volume in m³ and the final volume has the pivot of the volume given |
| Containers.FillByVolumeWithMultiplyFixed | containers/__init__.py:20-29 | with only the multiply repaired, filling with a volume succeeds but the final volume is 1000 times the volume given |
| Containers.FillByOtherAmount | containers/__init__.py:17-24 | an amount that is neither a volume nor a mass leaves every field unset |
| Containers.FillNeedsSpecificVolume | containers/__init__.py:29-34 | a substance without a specific volume cannot be filled by mass or by volume (MissingOperation) |
| Water.NameOf | substances/water.py:37 | `property_name` of a unit is "temperature" or "pressure" exactly for those dimensions, and of a property "specific enthalpy" exactly for a specific enthalpy |
| Water.Lookup | substances/water.py:35-46 | no unit gives UndefinedUnit. A temperature looks up the "temperature" column in °C with the same pivot, and a pressure looks up "pressure" in kPa with the same pivot. An enthalpy gives UnknownState. A specific enthalpy works only for liquid water. Every other dimension gives UnitNotSupported |
| Water.FindState | substances/water.py:46 | the state's row is the table's row at the looked-up column and value; errors before the lookup pass through; a missing row is UnknownState |
| Water.UnitKeysAgree | substances/water.py:90-96 | for a unit key, the three state classes look up the same row |
| Water.SpecificEnthalpyOnlyForLiquid | substances/water.py:90-96 | a specific enthalpy looks up "enthalpy_liquid" by its kJ/kg value for liquid water; the other two classes raise UnitNotSupported |
| Water.StateAtRequestedTemperature | substances/water.py:37-51 | if the table files each row under its own temperature, the state's temperature has the pivot of the temperature asked for, whatever its scale |
| Water.StateAtRequestedPressure | substances/water.py:40-52 | the same for pressure |
| Water.BoilingPointLookup | substances/water.py:38-39 | 373.15 K is looked up as 100 °C |
| Water.Mro | substances/water.py:85 | the classes searched for an attribute start at the instance's class and end at SaturationLineWater (before `object`) |
| Water.After | substances/water.py:82 | `super(c, self)` searches the classes after the first occurrence of `c` in that order, and nothing when `c` is absent |
| Water.AsWrittenNonAmountProduct | substances/water.py:82 | as written, a subclass instance times a non-amount calls `super(self.__class__, self).__mul__`, which is the same method again, so it exhausts any stack depth (RecursionLimit); on the base class it reaches `object` (MissingOperation) |
| Water.NamedSuperReachesObject | substances/water.py:82 | with `super(SaturationLineWater, self)` every class reaches `object` (MissingOperation), as the base class does as written |
| Water.SaturationLineWater.FromRow | substances/water.py:48-63 | `_set_state` wraps columns 0–9 in °C, kPa, m³/kg, kJ/kg and specific enthalpy, and keeps the entropies as numbers; the fields' magnitudes in column order are the row |
| Water.SaturationLineWater.New | substances/water.py:28-33 | the state exists exactly when the lookup finds a row, and is new; its thirteen fields hold that row's columns in their classes; otherwise the lookup's error |
| Water.SaturationLineWater.Times | substances/water.py:77-82 | multiplying the saturation-line state always fails with MissingOperation: a flask needs a `volume` attribute and `object` has no `__mul__` |
| Water.SaturatedWater.FromRow | substances/water.py:98-107 | liquid water takes columns 0, 1, 2, 4, 7, 8 and 10 in their classes |
| Water.SaturatedWater.New | substances/water.py:85-100 | the state exists exactly when the lookup (with the specific-enthalpy case) finds a row, and is new and holds that row's columns; otherwise the lookup's error |
| Water.SaturatedWater.Times | substances/water.py:77-82 | as written, liquid water times a mass raises TypeMismatch and times a volume TypeMismatch (ZeroDivision at a zero specific volume), each the flask's first error; anything else recurses without end (RecursionLimit) |
| Water.SaturatedSteam.FromRow | substances/water.py:115-124 | steam takes columns 0, 1, 3, 6, 9 and 12, and its condensation enthalpy is minus column 8 |
| Water.SaturatedSteam.New | substances/water.py:110-117 | the state exists exactly when the lookup finds a row, and is new and holds that row's columns; otherwise the lookup's error |
| Water.SaturatedSteam.Times | substances/water.py:77-82 | as written, steam times a mass or a volume raises as for liquid water; anything else recurses without end (RecursionLimit) |

## Left out

- `SaturatedWaterTable.find_state` (imported at substances/water.py:5) is not part of this model. It is a parameter, `Water.Table`, that maps a column and a value to a 13-column row, or to nothing (UnknownState). No interpolation rule is assumed.
- `Energy`, `Joule` and `KiloJoule` (imported at properties/__init__.py:7) are not part of this model.
  - `Energy` is the dimension `Energy`. One stand-in class has generic arithmetic, keeps its magnitude when added to, and has the property name "energy". These are assumptions.
  - Energy ÷ mass is a parameter `divide` of `Properties.Div`.
- `units.py`, `substances.py` and `units/all.py` are superseded copies and a re-export list; they are not modelled.
- String methods (`__unicode__`, `__str__`, `__repr__`) and class `symbol`/`name` strings are formatting only. Only `Units.Symbol` is kept.
- IEEE floating point: magnitudes are mathematical reals, so `5/9.0` is exactly 5/9 and no rounding occurs. Python 2 `long` is not modelled.
- Constructors given a unit of another dimension are not modelled: `Convert` requires the same dimension.
- `__imul__`, `__iadd__` and `__isub__` only rebind a local name. In a value model they are the binary operators, so they have no members of their own. `__idiv__` differs from `/` and is `Units.IDiv` / `Properties.IDiv`.
- The reflected operators (`__rmul__` etc.) do not exist in the source. A number on the left of a unit is not modelled.
- An object that is not a number, a unit or a property is given by its `property_name`, its `float()` (if any) and what `* -1` returns (`Units.Negation`). A product of the same sort is assumed to keep the `property_name` and to negate the `float()`.
- Units.Add: such an object is assumed to support no other arithmetic, so the constructors that scale or offset their argument (Celcius, Fahrenheit, KiloPascal, Bar, Atmosphere, PoundSquareInch, CubicMeter) and KJPerKg's `+` raise TypeMismatch for it; an object that defines `*` or `+` with numbers is not modelled.
- Water.Lookup: the missing `kJperkg` accessor (substances/water.py:94) is read as the specific energy's own magnitude.
- Addition is commutative only between classes without a zero offset (`Units.AddCommutesWithoutOffset`). Celcius and Fahrenheit add their magnitudes, not their pivots (`Units.AddDoesNotCommuteWithOffset`). The code is followed here.
- The stack depth is the constant `Water.RecursionDepth`; `Water.AsWrittenNonAmountProduct` holds for every depth.
- The flask's methods take the `Fixes` value as a parameter so that the repaired program can be stated; `Water` always passes `AsWritten`.
- In the flask, the model gives the substance as the three specific attributes it reads (`Containers.Substance`), not as the state object itself.
- Units.FloatOf: `float()` of a unit is its magnitude; what that means is stated by `Units.CoercionReadsOwnValue`, not by a contract of its own.

## Findings

| source | as written | input that shows it | evidently intended | confidence | as-written member | corrected member |
|---|---|---|---|---|---|---|
| units/__init__.py:63-65 | `self.value * multiplier` with a unit multiplier is a float times an object with no reflected multiply, so it raises TypeError | `KJPerKg(2.0) * KiloGram(3.0)`: the energy step of every flask of saturated water | a unit times a mass must work for a flask to fill; the minimal repair takes the multiplier through `float()`, as `__div__` does, giving 6 kJ/kg | not executed | Units.GenericMulAsWritten | Units.GenericMul |
| units/energy.py:21-22 | `KJPerKg(value)` stores whatever it is given, so `KJPerKg(a) + KJPerKg(b)` adds a float to a unit object and raises TypeError | `KJPerKg(1.0) + KJPerKg(2.0)` | a KJPerKg given a specific energy keeps that energy's magnitude: 3 kJ/kg | not executed | EnergyUnits.AsWrittenSpecificEnergiesDoNotAdd | EnergyUnits.SpecificEnergiesAdd |
| units/amount.py:48-53 | `Volume.__div__` divides the litre pivot by the m³/kg magnitude, so the mass is 1000 times too large and a flask's volume round trip gives 1000 times the volume | `CubicMeter(1.0) / CubicMeterPerKiloGram(0.001)` gives 1 000 000 kg | the volume in m³ over the m³/kg: 1000 kg | not executed | AmountUnits.AsWrittenVolumeRoundTrip | AmountUnits.VolumeRoundTrip |
| substances/water.py:82 | `super(self.__class__, self)` on a SaturatedWater or SaturatedSteam finds `SaturationLineWater.__mul__` again, so a non-amount multiplier recurses until RuntimeError | `SaturatedWater(Celcius(100.0)) * 2` | `super(SaturationLineWater, self)`: `object` has no `__mul__`, as for the base class | not executed | Water.AsWrittenNonAmountProduct | Water.NamedSuperReachesObject |
