/** JavaScript values as the service sees them, and JavaScript truthiness. */
module JsValues {

  datatype Option<+T> = None | Some(value: T)

  /** A value read from a request body or a query string. `Obj` stands for
      every object (arrays included): truthy, and neither a string nor a number. */
  datatype JsValue = Undefined | Null | Bool(b: bool) | Num(n: real) | Str(s: string) | Obj

  /** `if (v)` in JavaScript (NaN is not modelled). */
  predicate Truthy(v: JsValue)
  {
    match v
    case Undefined => false
    case Null => false
    case Bool(b) => b
    case Num(n) => n != 0.0
    case Str(s) => s != ""
    case Obj => true
  }

  /** A nullable string column or property is truthy when present and non-empty. */
  predicate TruthyText(s: Option<string>)
  {
    s.Some? && s.value != ""
  }

  /** `s || null`: an empty string collapses to null, anything else is kept. */
  function OrNull(s: Option<string>): (r: Option<string>)
    ensures r.None? <==> !TruthyText(s)
    ensures r.Some? ==> r == s
  {
    if TruthyText(s) then s else None
  }
}
