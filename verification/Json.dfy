/** JSON values; an integer and a float are different numbers, and the order of keys does not matter. */
module Json {
  datatype Number = Int(i: int) | Float(r: real)

  datatype Json =
    | Null
    | Bool(b: bool)
    | Num(n: Number)
    | Str(s: string)
    | Array(items: seq<Json>)
    | Object(fields: map<string, Json>)
}
