/** JSON values as serde_json parses them. Object fields are kept in the order in which the map
    iterates them; a number carries its value. */
module Json {
  import opened Wrappers

  datatype Value =
    | Null
    | Bool(flag: bool)
    | Number(number: real)
    | String(text: string)
    | Array(items: seq<Value>)
    | Object(fields: seq<Field>)
  {
    /** Field lookup; every value that is not an object has no fields. */
    function Get(name: string): Option<Value> {
      if Object? then Lookup(fields, name) else None
    }

    /** The text of a string field. */
    function GetText(name: string): Option<string> {
      match Get(name)
      case Some(String(t)) => Some(t)
      case _ => None
    }
  }

  datatype Field = Field(name: string, value: Value)

  function Lookup(fields: seq<Field>, name: string): (r: Option<Value>)
    ensures r.Some? <==> exists i :: 0 <= i < |fields| && fields[i].name == name
    ensures r.Some? ==> exists i :: 0 <= i < |fields| && fields[i] == Field(name, r.value)
  {
    if fields == [] then None
    else if fields[0].name == name then Some(fields[0].value)
    else
      var r := Lookup(fields[1..], name);
      assert fields[1..] == [] || forall i :: 0 <= i < |fields[1..]| ==> fields[1..][i] == fields[i + 1];
      r
  }
}
