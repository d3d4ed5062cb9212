/** Decoded JSON values. Text is turned into values by a parser given as a parameter. */
module Json {

  datatype Json =
    | Null
    | Bool(b: bool)
    | Num(n: real)
    | Str(s: string)
    | Arr(items: seq<Json>)
    | Obj(fields: map<string, Json>)

  // A missing field reads as nil, like an explicit null.
  function Field(fields: map<string, Json>, key: string): Json {
    if key in fields then fields[key] else Null
  }

  // Field lookup through a type assertion to an object.
  function Get(j: Json, key: string): Json {
    if j.Obj? then Field(j.fields, key) else Null
  }

  // A string, or "" for anything else.
  function StrOf(j: Json): string {
    if j.Str? then j.s else ""
  }
}
