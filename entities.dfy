/** Definition entities (states and actions) and the JSON-like data they hold. */
module Entities {
  import opened Wrappers

  /** A dynamically typed data tree; data instructions may sit anywhere inside it. */
  datatype Value =
    | Null
    | Bool(b: bool)
    | Int(i: int)
    | Str(s: string)
    | List(items: seq<Value>)
    | Dict(entries: map<string, Value>)

  /** The public properties of an entity object, by name. */
  type Fields = map<string, Value>

  /** A State or Action entity. Definitions are shared templates owned by the scenario;
      the instantiator only ever changes clones of them. */
  class Entity {
    var fields: Fields

    /** `clone $definition`: a new object holding the same property values. */
    constructor Clone(source: Entity)
      ensures fields == source.fields
    {
      fields := source.fields;
    }
  }

  /** The state's title as `isset($definition->title)` and string interpolation see it:
      present exactly when the `title` property holds a string. */
  function Title(fields: Fields): (t: Option<string>)
    ensures t.Some? <==> "title" in fields && fields["title"].Str?
    ensures t.Some? ==> fields["title"] == Str(t.value)
  {
    if "title" in fields && fields["title"].Str? then Some(fields["title"].s) else None
  }
}
