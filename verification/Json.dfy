/** The JSON values that manifests and wire records are made of. */
module Json {
  datatype Json =
    | Null
    | Bool(b: bool)
    | Int(i: int)
    | Float(r: real)
    | Str(s: string)
    | Arr(items: seq<Json>)
    | Obj(fields: map<string, Json>)

  predicate Has(j: Json, key: string) {
    j.Obj? && key in j.fields
  }

  /** dict.get: a missing key reads as null. */
  function Get(j: Json, key: string): Json {
    if Has(j, key) then j.fields[key] else Null
  }
}
