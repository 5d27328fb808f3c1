/** JSON values as Python holds them after parsing. */
module Json {
  datatype Value =
    | Null
    | Bool(flag: bool)
    | Number(number: real)
    | Text(text: string)
    | List(items: seq<Value>)
    | Dict(fields: map<string, Value>)
}
