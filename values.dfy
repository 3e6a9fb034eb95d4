/** JavaScript values as the adapter sees them: arguments of console.format and
    the error values that casper hands to its error-event listeners. */
module JsValue {

  datatype Option<+T> = None | Some(value: T)

  /** The kinds of value whose `typeof` the adapter distinguishes. Objects and
      functions are known only by their identity; numbers are not rendered by
      the model (see the Format module), so a real suffices. */
  datatype Value =
    | Undef
    | Null
    | Bool(b: bool)
    | Num(n: real)
    | Str(s: string)
    | Obj(id: nat)
    | Fn(id: nat)

  /** JavaScript truthiness, as used by `lastError || error`. */
  predicate Truthy(v: Value)
  {
    match v
    case Undef => false
    case Null => false
    case Bool(b) => b
    case Num(n) => n != 0.0
    case Str(s) => s != ""
    case Obj(_) => true
    case Fn(_) => true
  }

  /** `typeof v === 'object'` (true of `null` as well). */
  predicate IsObjectType(v: Value)
  {
    v.Null? || v.Obj?
  }
}
