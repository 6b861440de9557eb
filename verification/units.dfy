/** `unit_converter` of tools/calculator.py: a table of length and weight
    factors relative to the metre and the kilogram, four temperature
    formulas, and the dispatch between them. Numbers are exact reals; the
    final `round(result, 6)` is not part of this model. */
module Units {
  import opened Wrappers

  /** Metres per unit. */
  const Length: map<string, real> :=
    map["m" := 1.0, "cm" := 0.01, "mm" := 0.001, "km" := 1000.0, "in" := 0.0254, "ft" := 0.3048]

  /** Kilograms per unit. */
  const Weight: map<string, real> :=
    map["kg" := 1.0, "g" := 0.001, "lb" := 0.453592, "oz" := 0.0283495]

  const TemperatureUnits: set<string> := {"C", "F", "K"}

  /** The temperature pairs the formula table holds. */
  const TemperaturePairs: set<(string, string)> := {("C", "F"), ("F", "C"), ("C", "K"), ("K", "C")}

  /** The one exception the converter catches here: a missing table key.
      Python reports it as the key's `repr`; the text here is the key in
      single quotes, which is that `repr` for every key without a quote, a
      backslash or an unprintable character. */
  datatype ConvError = KeyError(key: string)
  {
    function Words(): string { "'" + key + "'" }
  }

  /** The temperature table: formula by key `"<from>-><to>"`; `None` for a
      key the table does not hold. */
  function TemperatureFormula(key: string, x: real): Option<real>
  {
    if key == "C->F" then Some(x * 9.0 / 5.0 + 32.0)
    else if key == "F->C" then Some((x - 32.0) * 5.0 / 9.0)
    else if key == "C->K" then Some(x + 273.15)
    else if key == "K->C" then Some(x - 273.15)
    else None
  }

  /** `unit_converter(value, from_unit, to_unit)` before rounding. Two
      temperature units take the temperature branch; otherwise the category is
      length when `from` is a length unit and weight in every other case. */
  function Convert(value: real, from: string, to: string): (r: Result<real, ConvError>)
    ensures from in TemperatureUnits && from == to ==> r == Success(value)
    ensures r.Success? <==> Supported(from, to)
    ensures r.Success? && from in TemperatureUnits ==> Kelvin(to, r.value) == Kelvin(from, value)
    ensures r.Success? && from !in TemperatureUnits ==> r.value == Scale(value, Factor(from), Factor(to))
  {
    if from in TemperatureUnits && to in TemperatureUnits then ConvertTemperature(value, from, to)
    else ConvertQuantity(value, from, to)
  }

  /** The temperature branch: the identity on equal units, else the formula
      under the key `"<from>-><to>"`, failing with that key when it is absent. */
  function ConvertTemperature(value: real, from: string, to: string): (r: Result<real, ConvError>)
    requires from in TemperatureUnits && to in TemperatureUnits
    ensures from == to ==> r == Success(value)
    ensures r.Success? <==> from == to || (from, to) in TemperaturePairs
    ensures r.Failure? ==> r.error == KeyError(from + "->" + to)
    ensures r.Success? ==> Kelvin(to, r.value) == Kelvin(from, value)
  {
    if from == to then Success(value)
    else
      var key := from + "->" + to;
      TemperatureKey(from, to);
      FormulaKeepsKelvin(from, to, value);
      match TemperatureFormula(key, value)
      case Some(x) => Success(x)
      case None => Failure(KeyError(key))
  }

  /** The length/weight branch: the table is chosen by `from` alone, and a
      unit missing from it fails with that unit as the key. */
  function ConvertQuantity(value: real, from: string, to: string): (r: Result<real, ConvError>)
    requires !(from in TemperatureUnits && to in TemperatureUnits)
    ensures r.Success? <==> (from in Length && to in Length) || (from in Weight && to in Weight)
    ensures r.Failure? ==> r.error == KeyError(if from in Length || from in Weight then to else from)
    ensures r.Success? ==> r.value == Scale(value, Factor(from), Factor(to))
  {
    var table := if from in Length then Length else Weight;
    if from !in table then Failure(KeyError(from))
    else if to !in table then Failure(KeyError(to))
    else Success(Scale(value, table[from], table[to]))
  }

  // ----- An independent description of what the converter promises -----

  /** The pairs the converter accepts: equal temperature units, the four
      temperature pairs of the table, or two units of one category. */
  predicate Supported(from: string, to: string)
  {
    || (from in TemperatureUnits && to in TemperatureUnits && (from == to || (from, to) in TemperaturePairs))
    || (from in Length && to in Length)
    || (from in Weight && to in Weight)
  }

  /** The size of one unit in its category's base unit. */
  function Factor(u: string): (f: real)
    ensures f > 0.0
  {
    if u in Length then Length[u] else if u in Weight then Weight[u] else 1.0
  }

  /** A temperature in kelvin, given its unit. */
  function Kelvin(u: string, x: real): real
  {
    if u == "C" then x + 273.15
    else if u == "F" then (x - 32.0) * 5.0 / 9.0 + 273.15
    else x
  }

  /** The table key of two distinct temperature units names exactly that pair. */
  lemma TemperatureKey(from: string, to: string)
    requires from in TemperatureUnits && to in TemperatureUnits && from != to
    ensures var key := from + "->" + to;
            && (key == "C->F" <==> from == "C" && to == "F")
            && (key == "F->C" <==> from == "F" && to == "C")
            && (key == "C->K" <==> from == "C" && to == "K")
            && (key == "K->C" <==> from == "K" && to == "C")
  {
    var key := from + "->" + to;
    assert key[0] == from[0] && key[3] == to[0];
    assert key == [from[0], '-', '>', to[0]];
  }

  /** Each formula of the table keeps the absolute temperature. */
  lemma FormulaKeepsKelvin(from: string, to: string, x: real)
    requires from in TemperatureUnits && to in TemperatureUnits && from != to
    ensures TemperatureFormula(from + "->" + to, x).Some? ==>
              Kelvin(to, TemperatureFormula(from + "->" + to, x).value) == Kelvin(from, x)
  {
    TemperatureKey(from, to);
  }

  /** A converted length or weight measures the same physical amount. */
  lemma QuantityPreserved(value: real, from: string, to: string)
    requires from !in TemperatureUnits && Convert(value, from, to).Success?
    ensures Convert(value, from, to).value * Factor(to) == value * Factor(from)
  {
    QuantityValue(value, from, to);
    ScaleFactor(value, Factor(from), Factor(to));
  }

  /** Scaling by `f / t` turns an amount of `f`-sized units into the same
      amount of `t`-sized units. */
  lemma ScaleFactor(v: real, f: real, t: real)
    requires t > 0.0
    ensures Scale(v, f, t) * t == v * f
  {
  }

  /** The pairs missing from the temperature table fail with their key
      instead of raising out of the tool. */
  lemma FahrenheitKelvinUnsupported(value: real)
    ensures Convert(value, "F", "K") == Failure(KeyError("F->K"))
    ensures Convert(value, "K", "F") == Failure(KeyError("K->F"))
  {
    assert "F" + "->" + "K" == "F->K";
    assert "K" + "->" + "F" == "K->F";
  }

  /** Units of different categories, or an unknown unit, fail. */
  lemma MixedCategoriesFail(value: real, from: string, to: string)
    requires (from in Length && to !in Length) || (from in Weight && to !in Weight)
             || (from !in Length && from !in Weight && from !in TemperatureUnits)
             || (to !in Length && to !in Weight && to !in TemperatureUnits)
             || (from in TemperatureUnits && to !in TemperatureUnits)
             || (from !in TemperatureUnits && to in TemperatureUnits)
    ensures Convert(value, from, to).Failure?
  {
  }

  /** Converting there and back gives the original value, for every pair the
      converter accepts; so C to F to C and C to K to C are identities, and so
      is a round trip within a category. */
  lemma RoundTrip(value: real, from: string, to: string)
    requires Convert(value, from, to).Success?
    ensures Convert(Convert(value, from, to).value, to, from) == Success(value)
  {
    if from in TemperatureUnits {
      TemperatureRoundTrip(value, from, to);
    } else {
      QuantityRoundTrip(value, from, to);
    }
  }

  lemma TemperatureRoundTrip(value: real, from: string, to: string)
    requires from in TemperatureUnits && Convert(value, from, to).Success?
    ensures Convert(Convert(value, from, to).value, to, from) == Success(value)
  {
    assert to in TemperatureUnits;
    var x := ConvertTemperature(value, from, to).value;
    var back := ConvertTemperature(x, to, from);
    assert back.Success?;
    assert Kelvin(from, back.value) == Kelvin(to, x) == Kelvin(from, value);
    KelvinInjective(from, back.value, value);
  }

  lemma QuantityRoundTrip(value: real, from: string, to: string)
    requires from !in TemperatureUnits && Convert(value, from, to).Success?
    ensures Convert(Convert(value, from, to).value, to, from) == Success(value)
  {
    var x := Convert(value, from, to).value;
    QuantityValue(value, from, to);
    QuantityValue(x, to, from);
    ScaleBack(value, Factor(from), Factor(to));
  }

  /** Two units of one category convert by their factors, in both directions. */
  lemma QuantityValue(v: real, from: string, to: string)
    requires from !in TemperatureUnits && Supported(from, to)
    ensures to !in TemperatureUnits && Supported(to, from)
    ensures Convert(v, from, to) == Success(Scale(v, Factor(from), Factor(to)))
  {
  }

  /** `v` measured in a unit of size `f`, expressed in a unit of size `t`. */
  function Scale(v: real, f: real, t: real): real
    requires t > 0.0
  {
    v * f / t
  }

  /** Scaling by `f / t` and then by `t / f` is the identity. */
  lemma ScaleBack(v: real, f: real, t: real)
    requires f > 0.0 && t > 0.0
    ensures Scale(Scale(v, f, t), t, f) == v
  {
  }

  lemma KelvinInjective(u: string, x: real, y: real)
    requires Kelvin(u, x) == Kelvin(u, y)
    ensures x == y
  {
  }

  /** The error text names the missing key, so distinct keys give distinct
      replies. */
  lemma KeyErrorWordsInjective(k1: string, k2: string)
    requires KeyError(k1).Words() == KeyError(k2).Words()
    ensures k1 == k2
  {
    var w := KeyError(k1).Words();
    assert k1 == w[1..|w| - 1];
    assert k2 == KeyError(k2).Words()[1..|w| - 1];
  }

  /** The documented example: 100 cm is 1 m. */
  lemma CentimetresToMetres()
    ensures Convert(100.0, "cm", "m") == Success(1.0)
  {
  }
}
