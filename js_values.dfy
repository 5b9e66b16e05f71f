/**
 * The JavaScript values a submission can carry, and the coercions the forms
 * apply to them. Converting TEXT to a number or to a date, and printing a
 * number that is not an integer, are left to a `Runtime` given as a parameter;
 * numbers, booleans and null coerce as the language defines.
 */
module JsValues {
  import opened Wrappers
  import opened Text

  /** A submitted value. A key missing from a record is absence in the record's map, i.e. `undefined`. */
  datatype Value = Str(s: string) | Num(n: real) | Bool(b: bool) | Null

  /**
   * The text primitives the model does not re-implement.
   * `parseFloatText(s)`: `parseFloat(s)`, None for NaN.
   * `numberText(s)`: `Number(s)`, the coercion `isNaN` applies, None for NaN.
   * `dateText(s)`: whether `new Date(s)` is a valid time.
   * `otherNumberText(x)`: `String(x)` for an `x` that is not an integer below 10^21 in magnitude.
   */
  datatype Runtime = Runtime(
    parseFloatText: string -> Option<real>,
    numberText: string -> Option<real>,
    dateText: string -> bool,
    otherNumberText: real -> string)

  /** Whether `x` is printed as a plain integer by JavaScript. */
  predicate IsPlainInteger(x: real) {
    x == x.Floor as real && -1_000_000_000_000_000_000_000.0 < x < 1_000_000_000_000_000_000_000.0
  }

  /** `String(x)` for a number `x`. */
  function NumberToString(rt: Runtime, x: real): string {
    if IsPlainInteger(x) then IntToString(x.Floor) else rt.otherNumberText(x)
  }

  /** A whole number below 10^21 prints as its decimal digits. */
  lemma WholeNumberText(rt: Runtime, n: nat)
    requires n < 1_000_000_000_000_000_000_000
    ensures NumberToString(rt, n as real) == NatToString(n)
  {
    assert (n as real).Floor == n;
  }

  /** `String(v)`: what a template literal or a regular expression's `test` sees. */
  function ToText(rt: Runtime, v: Value): string {
    match v
    case Str(s) => s
    case Num(x) => NumberToString(rt, x)
    case Bool(b) => if b then "true" else "false"
    case Null => "null"
  }

  /** `parseFloat(v)`, None for NaN. A number parses to itself; `true`, `false` and `null` print as words and give NaN. */
  function ParseFloat(rt: Runtime, v: Value): Option<real> {
    match v
    case Str(s) => rt.parseFloatText(s)
    case Num(x) => Some(x)
    case Bool(_) => None
    case Null => None
  }

  /** `isNaN(v)`: coerces with `Number(v)`, under which booleans are 0 or 1 and null is 0. */
  predicate IsNaN(rt: Runtime, v: Value) {
    match v
    case Str(s) => rt.numberText(s).None?
    case _ => false
  }

  /** JavaScript truthiness: the empty string, 0, `false` and `null` are falsy. */
  predicate IsTruthy(v: Value) {
    match v
    case Str(s) => s != ""
    case Num(x) => x != 0.0
    case Bool(b) => b
    case Null => false
  }

  /** Truthiness of a possibly absent value; `undefined` is falsy. */
  predicate IsPresentTruthy(v: Option<Value>) {
    v.Some? && IsTruthy(v.value)
  }

  /** `record[key]`: None when the key is absent (`undefined`). */
  function Lookup(data: map<string, Value>, key: string): Option<Value> {
    if key in data then Some(data[key]) else None
  }
}
