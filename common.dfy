/** Values shared by the three widgets: an optional value and the JavaScript
    values the widgets pass around (form defaults, parsed documents). */
module Common {

  datatype Option<+T> = None | Some(value: T)

  /** A JavaScript value as far as the widgets look at it. Numbers are
      modelled as integers; a `Blob` (a `File` from an `<input type="file">`
      is one) is an opaque handle. */
  datatype Value =
    | Undefined
    | Null
    | Bool(b: bool)
    | Num(n: int)
    | Str(s: string)
    | Blob(handle: nat)
    | Arr(items: seq<Value>)
    | Obj(fields: map<string, Value>)
}
