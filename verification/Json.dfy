/** JSON values. */
module Json {
  /**
   `Atom` stands for a number, a boolean or null. An `Entry` is an object with the order of its keys,
   an `Obj` one where the order does not matter.
   */
  datatype Json =
    | Text(text: string) | Atom(atom: string) | Arr(items: seq<Json>)
    | Obj(fields: Fields) | Entry(keys: seq<string>, fields: Fields)

  type Fields = map<string, Json>
}
