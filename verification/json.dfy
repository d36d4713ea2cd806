/**
 * The JSON-like values that the selector engine returns and that the result set filters.
 * Deep equality of the source (`equals` of x-common) is Dafny's structural equality on `Value`.
 */
module Json {

  datatype Value =
    | Undefined
    | Null
    | Bool(b: bool)
    | Num(n: int)
    | Str(s: string)
    | Arr(items: seq<Value>)
    | Obj(fields: map<string, Value>)
}
