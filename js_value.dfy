// The JavaScript values the language data, the interpolation variables and the
// inbound messages are made of, with the three conversions the core applies
// to them: truthiness (`if (x)`), nullishness (`x ?? y`, `x === undefined ||
// x === null`) and `String(x)` (what `replace` does with a callback's result).
module JsValue {
  import JsText

  /** A JavaScript value built from primitives and plain objects. `Obj` is a plain
      object; numbers are modelled as integers; there are no arrays. Reading an
      absent property yields `Undefined`. */
  datatype Value =
    | Undefined
    | Null
    | Bool(b: bool)
    | Num(n: int)
    | Str(s: string)
    | Obj(fields: map<string, Value>)

  /** `v === undefined || v === null`, the values `??` and `?.` pass over. */
  predicate Nullish(v: Value) {
    v.Undefined? || v.Null?
  }

  /** `if (v)`: undefined, null, false, 0 and "" are falsy; every object is truthy. */
  predicate Truthy(v: Value) {
    match v
    case Undefined => false
    case Null => false
    case Bool(b) => b
    case Num(n) => n != 0
    case Str(s) => s != ""
    case Obj(_) => true
  }

  /** `o[p]` for a value that is neither undefined nor null. Only a plain object's
      own properties are seen; a primitive has none. */
  function Get(o: Value, p: string): Value
    requires !Nullish(o)
  {
    if o.Obj? && p in o.fields then o.fields[p] else Undefined
  }

  /** `String(v)`. */
  function ToText(v: Value): string
  {
    match v
    case Undefined => "undefined"
    case Null => "null"
    case Bool(b) => if b then "true" else "false"
    case Num(n) => JsText.IntToDecimal(n)
    case Str(s) => s
    case Obj(_) => "[object Object]"
  }

  /** A nullish value is falsy; truthiness and non-nullishness differ exactly on
      false, 0 and "". */
  lemma TruthyNotNullish(v: Value)
    ensures Truthy(v) ==> !Nullish(v)
    ensures !Nullish(v) && !Truthy(v) <==> v == Bool(false) || v == Num(0) || v == Str("")
  {
  }
}
