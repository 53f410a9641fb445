/** JSON values; a canonical encoding is taken as injective, so the value stands for its text. */
module Json {
  datatype Json =
    | Null
    | Bool(value: bool)
    | Number(number: int)
    | Str(text: string)
    | List(items: seq<Json>)
    | Obj(fields: map<string, Json>)

  type Fields = map<string, Json>
}
