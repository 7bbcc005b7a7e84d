/** A parsed JSON value. Numbers keep their text; an object lists its members. */
module JsonValue {
  import opened Text

  datatype Json =
    | Null
    | Bool(b: bool)
    | Num(text: string)
    | Str(s: string)
    | Arr(items: seq<Json>)
    | Obj(fields: seq<Field>)

  datatype Field = Field(key: string, value: Json)

  function Member(fields: seq<Field>, key: string): (r: Option<Json>)
    ensures r.Some? <==> exists f :: f in fields && f.key == key
  {
    if fields == [] then None
    else if fields[0].key == key then Some(fields[0].value)
    else Member(fields[1..], key)
  }
}
