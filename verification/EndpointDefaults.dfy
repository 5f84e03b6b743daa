/** The endpoint normaliser of the user interface, over JSON values. */
module EndpointDefaults {
  import opened Options
  import opened Text
  import opened Json
  import opened Records

  // ------------------------------------------------------------------ the parts of an endpoint

  const EMPTY_REF := Obj([Field("ref", Str(""))])
  const REF_DEFAULT := Obj([Field("ref", Str("")), Field("middlewares", Arr([]))])
  const HTTP_DEFAULT := Obj([Field("http", Obj([])), Field("middlewares", Arr([]))])

  predicate IsScalarType(kind: string) {
    kind == "static" || kind == "ref"
  }

  function DefaultEndpoint(kind: string): seq<Field> {
    if IsScalarType(kind) then [Field(kind, Str(""))]
    else if kind == "switch" then
      [Field("switch", Obj([Field("metadata_key", Str("type")), Field("cases", Obj([])), Field("default", EMPTY_REF)])),
       Field("middlewares", Arr([]))]
    else if kind == "fanout" then [Field("fanout", Arr([EMPTY_REF])), Field("middlewares", Arr([]))]
    else [Field(kind, Obj([])), Field("middlewares", Arr([]))]
  }

  /** The record that holds the endpoint: one `root` wrapper is taken off. Values that are no objects have none. */
  function Unwrap(v: Value): Option<seq<Field>> {
    if !v.Obj? then None
    else
      match Lookup(v.fields, "root")
      case Some(Obj(fields)) => Some(fields)
      case _ => Some(v.fields)
  }

  /** The first key other than `middlewares`, or the empty string. */
  function FirstKey(fields: seq<Field>): string {
    if fields == [] then ""
    else if fields[0].key != "middlewares" then fields[0].key
    else FirstKey(fields[1..])
  }

  function EndpointType(fields: seq<Field>): string {
    if HasKey(fields, "ref") then "ref"
    else if HasKey(fields, "static") then "static"
    else if FirstKey(fields) == "" then "http"
    else FirstKey(fields)
  }

  /** A number whose digits before the exponent are all zero. */
  predicate IsZero(text: string) {
    text == "" || text[0] == 'e' || text[0] == 'E' || (text[0] in {'0', '-', '.'} && IsZero(text[1..]))
  }

  predicate IsTruthy(v: Option<Value>) {
    match v
    case None => false
    case Some(Null) => false
    case Some(Bool(b)) => b
    case Some(Num(text)) => !IsZero(text)
    case Some(Str(s)) => s != ""
    case _ => true
  }

  /** A field that holds nothing the user chose. */
  predicate IsUnsetField(f: Field) {
    match f.value
    case Null => true
    case Str(s) => s == "" || (f.key == "cipher" && s == "xchacha20poly1305") || (f.key == "key_id" && s == "default")
    case Obj(fields) => fields == []
    case Arr(items) => items == []
    case _ => false
  }

  predicate IsUnsetEncryption(v: Value) {
    v.Obj? && forall i :: 0 <= i < |v.fields| ==> IsUnsetField(v.fields[i])
  }

  function DropUnset(fields: seq<Field>): seq<Field> {
    match Lookup(fields, "encryption")
    case Some(e) => if IsUnsetEncryption(e) then Remove(fields, "encryption") else fields
    case None => fields
  }

  function DropUnsetEncryption(v: Value): Value {
    if v.Obj? then Obj(DropUnset(v.fields)) else v
  }

  /** A static or ref endpoint is a string, perhaps wrapped in an object once. */
  function Scalar(kind: string, v: Value): Value {
    match v
    case Str(_) => v
    case Obj(fields) =>
      (match Lookup(fields, kind)
       case Some(Str(s)) => Str(s)
       case _ => Str(""))
    case _ => Str("")
  }

  /** `{ ...array }` */
  function Indexed(items: seq<Value>): seq<Field> {
    seq(|items|, i requires 0 <= i < |items| => Field(Decimal(i), items[i]))
  }

  // ------------------------------------------------------------------ smaller parts

  lemma {:induction false} LookupSize(fields: seq<Field>, key: string)
    ensures HasKey(fields, key) ==> Size(Lookup(fields, key).value) < FieldsSize(fields)
  {
    if fields != [] && fields[0].key != key {
      LookupSize(fields[1..], key);
    }
  }

  lemma UnwrapSize(v: Value)
    ensures Unwrap(v).Some? ==> FieldsSize(Unwrap(v).value) < Size(v)
  {
    if v.Obj? {
      LookupSize(v.fields, "root");
    }
  }

  // ------------------------------------------------------------------ the normal form

  function Normalize(v: Value): (r: Value)
    ensures r.Obj?
    decreases Size(v), 0
  {
    UnwrapSize(v);
    match Unwrap(v)
    case None => HTTP_DEFAULT
    case Some(data) => Obj(NormalRecord(data))
  }

  function NormalRecord(data: seq<Field>): seq<Field>
    decreases FieldsSize(data), 1
  {
    var kind := EndpointType(data);
    LookupSize(data, kind);
    LookupSize(data, "middlewares");
    var config := if HasKey(data, kind) then NormalConfig(kind, Lookup(data, kind).value) else Obj([]);
    var middlewares :=
      match Lookup(data, "middlewares")
      case Some(Arr(items)) => NormalMiddlewares(items)
      case _ => [];
    Put(Put(Spread(DefaultEndpoint(kind), data), kind, config), "middlewares", Arr(middlewares))
  }

  function NormalConfig(kind: string, config: Value): Value
    decreases Size(config), 0
  {
    if kind == "switch" && config.Obj? then Obj(DropUnset(NormalSwitch(config.fields)))
    else if kind == "fanout" then Arr(if config.Arr? then NormalItems(config.items) else [EMPTY_REF])
    else if IsScalarType(kind) then Scalar(kind, config)
    else DropUnsetEncryption(config)
  }

  /** Whether a switch has predicates instead of a value to look up. */
  predicate IsPredicateSwitch(fields: seq<Field>) {
    IsPredicateList(Lookup(fields, "when"))
  }

  predicate IsPredicateList(when: Option<Value>) {
    when.Some? && when.value.Arr? && when.value.items != []
  }

  function NormalSwitch(fields: seq<Field>): seq<Field>
    decreases FieldsSize(fields), 2
  {
    LookupSize(fields, "when");
    LookupSize(fields, "cases");
    LookupSize(fields, "default");
    var routed :=
      if IsPredicateSwitch(fields) then
        var when := Arr(NormalWhen(Lookup(fields, "when").value.items));
        Remove(Remove(Put(fields, "when", when), "metadata_key"), "cases")
      else
        var bare := Remove(fields, "when");
        var keyed := if IsTruthy(Lookup(bare, "metadata_key")) then bare else Put(bare, "metadata_key", Str("type"));
        var cases :=
          match Lookup(fields, "cases")
          case Some(Obj(cases)) => NormalCases(cases)
          case _ => [];
        Put(keyed, "cases", Obj(cases));
    Put(routed, "default", NormalOr(Lookup(fields, "default"), REF_DEFAULT))
  }

  /** `recurse(value ?? { ref: "" })`, the outcome for a missing value being `otherwise`. */
  function NormalOr(v: Option<Value>, otherwise: Value): Value
    decreases if v.Some? then Size(v.value) else 0, 1
  {
    if v.None? || v.value.Null? then otherwise else Normalize(v.value)
  }

  function NormalItems(items: seq<Value>): (r: seq<Value>)
    ensures |r| == |items|
    decreases ItemsSize(items), 1
  {
    if items == [] then [] else [Normalize(items[0])] + NormalItems(items[1..])
  }

  function NormalCases(cases: seq<Field>): (r: seq<Field>)
    ensures |r| == |cases|
    decreases FieldsSize(cases), 1
  {
    if cases == [] then []
    else [Field(cases[0].key, Normalize(cases[0].value))] + NormalCases(cases[1..])
  }

  function NormalWhen(entries: seq<Value>): (r: seq<Value>)
    ensures |r| == |entries|
    decreases ItemsSize(entries), 1
  {
    if entries == [] then [] else [NormalEntry(entries[0])] + NormalWhen(entries[1..])
  }

  function NormalEntry(entry: Value): Value
    decreases Size(entry), 1
  {
    match entry
    case Obj(fields) =>
      LookupSize(fields, "to");
      Obj(Put(fields, "to", if HasKey(fields, "to") then Normalize(Lookup(fields, "to").value) else HTTP_DEFAULT))
    case Arr(items) => Obj(Put(Indexed(items), "to", HTTP_DEFAULT))
    case _ => Obj([Field("to", HTTP_DEFAULT)])
  }

  function NormalMiddlewares(items: seq<Value>): seq<Value>
    decreases ItemsSize(items), 1
  {
    if items == [] then []
    else if items[0].Obj? then
      assert Size(items[0]) == 1 + FieldsSize(items[0].fields);
      [Obj(NormalMiddleware(items[0].fields))] + NormalMiddlewares(items[1..])
    else NormalMiddlewares(items[1..])
  }

  function NormalMiddleware(fields: seq<Field>): seq<Field>
    decreases FieldsSize(fields), 2
  {
    LookupSize(fields, "dlq");
    match Lookup(fields, "dlq")
    case Some(Obj(dlq)) =>
      LookupSize(dlq, "endpoint");
      Put(fields, "dlq", Obj(Put(dlq, "endpoint", NormalOr(Lookup(dlq, "endpoint"), REF_DEFAULT))))
    case _ => fields
  }
}
