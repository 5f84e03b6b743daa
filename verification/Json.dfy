/** JSON values; the fields of an object are listed in iteration order. */
module Json {
  import opened Options

  datatype Value =
    | Null
    | Bool(b: bool)
    | Num(text: string)
    | Str(s: string)
    | Arr(items: seq<Value>)
    | Obj(fields: seq<Field>)

  datatype Field = Field(key: string, value: Value)

  /** `map.get(key)` */
  function Lookup(fields: seq<Field>, key: string): Option<Value> {
    if fields == [] then None
    else if fields[0].key == key then Some(fields[0].value)
    else Lookup(fields[1..], key)
  }

  function Get(v: Value, key: string): Option<Value> {
    if v.Obj? then Lookup(v.fields, key) else None
  }

  lemma {:induction false} LookupIsField(fields: seq<Field>, key: string)
    ensures Lookup(fields, key).Some? ==> Field(key, Lookup(fields, key).value) in fields
  {
    if fields != [] && fields[0].key != key {
      LookupIsField(fields[1..], key);
    }
  }

  // ------------------------------------------------------------------ a measure for recursion

  function Size(v: Value): nat {
    match v
    case Obj(fields) => 1 + FieldsSize(fields)
    case Arr(items) => 1 + ItemsSize(items)
    case _ => 1
  }

  function FieldsSize(fields: seq<Field>): nat {
    if fields == [] then 0 else 1 + Size(fields[0].value) + FieldsSize(fields[1..])
  }

  function ItemsSize(items: seq<Value>): nat {
    if items == [] then 0 else 1 + Size(items[0]) + ItemsSize(items[1..])
  }
}
