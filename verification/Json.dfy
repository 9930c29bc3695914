/** A JSON value as a request body or a backup carries it; a number too large to hold reads as infinite. */
module Json {
  import opened Wrappers

  datatype Value =
    | Null
    | Flag(on: bool)
    | Number(value: real)
    | Infinite
    | Text(text: string)
    | List(items: seq<Value>)
    | Object(fields: map<string, Value>)

  type Entry = map<string, Value>

  function At(entry: Entry, key: string): Option<Value> {
    if key in entry then Some(entry[key]) else None
  }

  predicate Truthy(v: Option<Value>) {
    match v
    case None => false
    case Some(Null) => false
    case Some(Flag(on)) => on
    case Some(Number(value)) => value != 0.0
    case Some(Text(text)) => text != ""
    case Some(_) => true
  }

  predicate IsInteger(v: Option<Value>) {
    v.Some? && v.value.Number? && v.value.value.Floor as real == v.value.value
  }
}
