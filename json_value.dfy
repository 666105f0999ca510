/** The JSON document tree the codec reads and writes. An object is a map from member name to
    value, since equality of JSON values does not depend on the order of an object's members. */
module Json {
  import opened Wrappers

  datatype Value =
    | Null
    | Bool(b: bool)
    | Number(n: real)
    | Str(s: string)
    | Array(items: seq<Value>)
    | Object(fields: map<string, Value>)

  /** `value.get(name).and_then(as_object)`: the members of the object stored under `name`. */
  function ObjectMember(value: Value, name: string): (r: Option<map<string, Value>>)
    ensures r.Some? <==> value.Object? && name in value.fields && value.fields[name].Object?
    ensures r.Some? ==> value.fields[name] == Object(r.value)
  {
    if value.Object? && name in value.fields && value.fields[name].Object?
    then Some(value.fields[name].fields)
    else None
  }

  /** `object.get(name).and_then(as_str)`: the string stored under `name`. */
  function StringMember(obj: map<string, Value>, name: string): (r: Option<string>)
    ensures r.Some? <==> name in obj && obj[name].Str?
    ensures r.Some? ==> obj[name] == Str(r.value)
  {
    if name in obj && obj[name].Str? then Some(obj[name].s) else None
  }
}
