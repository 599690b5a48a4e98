/** Values that may be absent, and JSON data. */
module Json {

  datatype Option<+T> = None | Some(value: T)

  /** JSON data; the order of the members of an object carries no meaning. */
  datatype Json =
    | Null
    | Bool(b: bool)
    | Num(n: real)
    | Str(s: string)
    | Arr(items: seq<Json>)
    | Obj(members: map<string, Json>)

  /** `Number.isInteger` */
  predicate IsInteger(j: Json) {
    j.Num? && j.n.Floor as real == j.n
  }

  function ToInt(j: Json): int
    requires IsInteger(j)
  {
    j.n.Floor
  }

  /** An object with every required member and no member outside the two lists. */
  predicate IsRecord(j: Json, required: set<string>, optional: set<string>) {
    j.Obj? && required <= j.members.Keys && j.members.Keys <= required + optional
  }
}
