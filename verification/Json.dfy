/** Decoded JSON: what Go holds in an `any` after encoding/json has read a document.
    Numbers are reals, so every numeric Go kind that `asFloat64` accepts is one constructor. */
module Json {

  datatype Json =
    | Null
    | Bool(b: bool)
    | Num(n: real)
    | Str(s: string)
    | Arr(items: seq<Json>)
    | Obj(fields: map<string, Json>)
}
