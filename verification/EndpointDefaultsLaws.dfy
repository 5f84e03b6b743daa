/** Normalising keeps the endpoint type, and normalising twice is normalising once exactly on the endpoints described here. */
module EndpointDefaultsLaws {
  import opened Options
  import opened Text
  import opened Json
  import opened Records
  import opened EndpointDefaults

  // ------------------------------------------------------------------ values as they come from JSON

  /** No object has a key twice. */
  predicate IsJson(v: Value)
    decreases v
  {
    match v
    case Obj(fields) => HasDistinctKeys(fields) && forall i :: 0 <= i < |fields| ==> IsJson(fields[i].value)
    case Arr(items) => forall i :: 0 <= i < |items| ==> IsJson(items[i])
    case _ => true
  }

  predicate AreJson(fields: seq<Field>) {
    HasDistinctKeys(fields) && forall i :: 0 <= i < |fields| ==> IsJson(fields[i].value)
  }

  lemma JsonParts(fields: seq<Field>, key: string)
    requires AreJson(fields)
    ensures HasKey(fields, key) ==> IsJson(Lookup(fields, key).value)
  {
    LookupLaw(fields, key);
    if HasKey(fields, key) {
      LookupIsField(fields, key);
      var i :| 0 <= i < |fields| && fields[i] == Field(key, Lookup(fields, key).value);
    }
  }

  lemma UnwrapIsJson(v: Value)
    requires IsJson(v)
    ensures Unwrap(v).Some? ==> AreJson(Unwrap(v).value)
  {
    if v.Obj? {
      JsonParts(v.fields, "root");
    }
  }

  // ------------------------------------------------------------------ the record of an endpoint

  lemma {:induction false} FirstKeyLaw(fields: seq<Field>)
    ensures FirstKey(fields) != "" ==> HasKey(fields, FirstKey(fields))
    ensures FirstKey(fields) != "middlewares"
    ensures fields != [] && fields[0].key != "middlewares" ==> FirstKey(fields) == fields[0].key
  {
    if fields != [] && fields[0].key == "middlewares" {
      FirstKeyLaw(fields[1..]);
    }
  }

  lemma TypeLaw(data: seq<Field>)
    ensures var kind := EndpointType(data);
            && kind != "" && kind != "middlewares"
            && (kind != "http" ==> HasKey(data, kind))
            && (!IsScalarType(kind) ==> !HasKey(data, "ref") && !HasKey(data, "static"))
            && (kind == "static" ==> !HasKey(data, "ref"))
  {
    FirstKeyLaw(data);
  }

  lemma DefaultLaw(kind: string)
    requires kind != "middlewares"
    ensures var d := DefaultEndpoint(kind);
            && HasDistinctKeys(d) && d[0].key == kind && HasKey(d, kind)
            && (forall key :: key != kind && key != "middlewares" ==> Lookup(d, key) == None)
  {
    var d := DefaultEndpoint(kind);
    assert |d| == if IsScalarType(kind) then 1 else 2;
    forall key | key != kind && key != "middlewares" ensures Lookup(d, key) == None {
      assert |d| == 2 ==> Lookup(d[1..], key) == None by { assert |d| == 2 ==> d[1..][1..] == []; }
      assert |d| == 1 ==> d[1..] == [];
    }
    assert |d| == 2 ==> d[1..][0] == d[1];
  }

  function ConfigOf(data: seq<Field>): Value {
    var kind := EndpointType(data);
    if HasKey(data, kind) then NormalConfig(kind, Lookup(data, kind).value) else Obj([])
  }

  function MiddlewaresOf(data: seq<Field>): seq<Value> {
    match Lookup(data, "middlewares")
    case Some(Arr(items)) => NormalMiddlewares(items)
    case _ => []
  }

  lemma NormalRecordParts(data: seq<Field>)
    ensures NormalRecord(data) ==
            Put(Put(Spread(DefaultEndpoint(EndpointType(data)), data), EndpointType(data), ConfigOf(data)),
                "middlewares", Arr(MiddlewaresOf(data)))
  {
  }

  /** What is in a normal record, and in which order its keys begin. */
  lemma NormalRecordLaw(data: seq<Field>)
    requires HasDistinctKeys(data)
    ensures var kind, r := EndpointType(data), NormalRecord(data);
            && HasDistinctKeys(r) && Keys(DefaultEndpoint(kind)) <= Keys(r)
            && Lookup(r, kind) == Some(ConfigOf(data)) && Lookup(r, "middlewares") == Some(Arr(MiddlewaresOf(data)))
            && forall key :: key != kind && key != "middlewares" ==> Lookup(r, key) == Lookup(data, key)
  {
    hide ConfigOf, MiddlewaresOf, DefaultEndpoint, EndpointType, Put, Spread, NormalRecord, Lookup, HasDistinctKeys;
    NormalRecordParts(data);
    var kind, r := EndpointType(data), NormalRecord(data);
    TypeLaw(data);
    DefaultLaw(kind);
    var d := DefaultEndpoint(kind);
    var base := Spread(d, data);
    SpreadKeys(d, data);
    PutKeys(base, kind, ConfigOf(data));
    var placed := Put(base, kind, ConfigOf(data));
    PutKeys(placed, "middlewares", Arr(MiddlewaresOf(data)));
    forall key ensures Lookup(r, key) == if key == "middlewares" then Some(Arr(MiddlewaresOf(data)))
                                         else if key == kind then Some(ConfigOf(data))
                                         else if HasKey(data, key) then Lookup(data, key) else Lookup(d, key)
    {
      SpreadLookup(d, data, key);
      PutLookup(base, kind, ConfigOf(data), key);
      PutLookup(placed, "middlewares", Arr(MiddlewaresOf(data)), key);
    }
  }

  /** A normal record has the type of the record it comes from. */
  lemma TypeIsKept(data: seq<Field>)
    requires HasDistinctKeys(data)
    ensures EndpointType(NormalRecord(data)) == EndpointType(data)
  {
    hide NormalRecord, ConfigOf, MiddlewaresOf;
    var kind, r := EndpointType(data), NormalRecord(data);
    NormalRecordLaw(data);
    TypeLaw(data);
    DefaultLaw(kind);
    if !IsScalarType(kind) {
      assert Lookup(r, "ref") == None && Lookup(r, "static") == None;
      assert Keys(r)[0] == Keys(DefaultEndpoint(kind))[0] == kind;
      FirstKeyLaw(r);
    } else if kind == "static" {
      assert Lookup(r, "ref") == None;
    }
  }

  /** Normalising a normal record again: only its settings and its middlewares can still change. */
  lemma NormalRecordAgain(data: seq<Field>)
    requires HasDistinctKeys(data)
    ensures var kind, r := EndpointType(data), NormalRecord(data);
            NormalRecord(r) == r <==> NormalConfig(kind, ConfigOf(data)) == ConfigOf(data)
                                      && NormalMiddlewares(MiddlewaresOf(data)) == MiddlewaresOf(data)
  {
    hide DefaultEndpoint, EndpointType, Put, Spread, NormalRecord, NormalConfig;
    var kind, r := EndpointType(data), NormalRecord(data);
    NormalRecordLaw(data);
    TypeIsKept(data);
    TypeLaw(data);
    NormalRecordParts(r);
    SpreadOverPrefix(DefaultEndpoint(kind), r);
    var config, middlewares := NormalConfig(kind, ConfigOf(data)), NormalMiddlewares(MiddlewaresOf(data));
    assert ConfigOf(r) == config && MiddlewaresOf(r) == middlewares;
    PutTwice(r, kind, config, "middlewares", Arr(middlewares));
  }

  lemma PutTwice(fields: seq<Field>, key: string, value: Value, other: string, second: Value)
    requires key != other && HasKey(fields, key) && HasKey(fields, other)
    ensures Put(Put(fields, key, value), other, second) == fields <==>
            Lookup(fields, key) == Some(value) && Lookup(fields, other) == Some(second)
  {
    var put := Put(fields, key, value);
    PutLookup(fields, key, value, other);
    PutSame(fields, key, value);
    PutSame(put, other, second);
    PutLookup(fields, key, value, key);
    PutLookup(put, other, second, key);
    PutLookup(put, other, second, other);
  }

  // ------------------------------------------------------------------ endpoints that settle at once

  /** The endpoint's record has a `root` object itself. */
  predicate HasRootObject(fields: seq<Field>) {
    match Lookup(fields, "root")
    case Some(Obj(_)) => true
    case _ => false
  }

  /**
   Wherever the normaliser goes, there is no `root` wrapper inside a `root` wrapper, and a fan-out is a
   list.
   */
  predicate Settles(v: Value)
    decreases Size(v), 0
  {
    UnwrapSize(v);
    match Unwrap(v)
    case None => true
    case Some(data) =>
      var kind := EndpointType(data);
      LookupSize(data, kind);
      LookupSize(data, "middlewares");
      && !HasRootObject(data)
      && (HasKey(data, kind) ==> ConfigSettles(kind, Lookup(data, kind).value))
      && match Lookup(data, "middlewares")
         case Some(Arr(items)) => MiddlewaresSettle(items)
         case _ => true
  }

  predicate ConfigSettles(kind: string, config: Value)
    decreases Size(config), 0
  {
    if kind == "fanout" then config.Arr? && ItemsSettle(config.items)
    else if kind == "switch" && config.Obj? then SwitchSettles(config.fields)
    else true
  }

  predicate SwitchSettles(fields: seq<Field>)
    decreases FieldsSize(fields), 2
  {
    LookupSize(fields, "when");
    LookupSize(fields, "cases");
    LookupSize(fields, "default");
    && FieldSettles(fields, "default")
    && if IsPredicateSwitch(fields) then WhenSettles(Lookup(fields, "when").value.items)
       else
         match Lookup(fields, "cases")
         case Some(Obj(cases)) => CasesSettle(cases)
         case _ => true
  }

  predicate FieldSettles(fields: seq<Field>, key: string)
    decreases FieldsSize(fields), 1
  {
    LookupSize(fields, key);
    HasKey(fields, key) ==> Settles(Lookup(fields, key).value)
  }

  predicate ItemsSettle(items: seq<Value>)
    decreases ItemsSize(items), 1
  {
    items == [] || (Settles(items[0]) && ItemsSettle(items[1..]))
  }

  predicate CasesSettle(cases: seq<Field>)
    decreases FieldsSize(cases), 1
  {
    cases == [] || (Settles(cases[0].value) && CasesSettle(cases[1..]))
  }

  predicate WhenSettles(entries: seq<Value>)
    decreases ItemsSize(entries), 1
  {
    entries == [] ||
    (assert entries[0].Obj? ==> Size(entries[0]) == 1 + FieldsSize(entries[0].fields);
     (entries[0].Obj? ==> FieldSettles(entries[0].fields, "to")) && WhenSettles(entries[1..]))
  }

  predicate MiddlewaresSettle(items: seq<Value>)
    decreases ItemsSize(items), 1
  {
    items == [] ||
    (assert items[0].Obj? ==> Size(items[0]) == 1 + FieldsSize(items[0].fields);
     (items[0].Obj? ==> MiddlewareSettles(items[0].fields)) && MiddlewaresSettle(items[1..]))
  }

  predicate MiddlewareSettles(fields: seq<Field>)
    decreases FieldsSize(fields), 2
  {
    LookupSize(fields, "dlq");
    match Lookup(fields, "dlq")
    case Some(Obj(dlq)) => FieldSettles(dlq, "endpoint")
    case _ => true
  }

  // ------------------------------------------------------------------ a doubly wrapped root never settles

  lemma {:induction false} RemoveSize(fields: seq<Field>, key: string)
    ensures FieldsSize(Remove(fields, key)) <= FieldsSize(fields)
  {
    if fields != [] && fields[0].key != key {
      RemoveSize(fields[1..], key);
      assert Remove(fields, key)[1..] == Remove(fields[1..], key);
    }
  }

  lemma DropSize(v: Value)
    ensures Size(DropUnsetEncryption(v)) <= Size(v)
  {
    if v.Obj? {
      RemoveSize(v.fields, "encryption");
    }
  }

  /** What a normal record has under `root` is no larger than what the record had there. */
  lemma RootOfNormal(data: seq<Field>)
    requires HasDistinctKeys(data)
    ensures var r := NormalRecord(data);
            && (HasKey(r, "root") <==> HasKey(data, "root"))
            && (HasKey(data, "root") ==> Size(Lookup(r, "root").value) <= Size(Lookup(data, "root").value))
            && (HasRootObject(data) ==> HasRootObject(r)) && (HasRootObject(r) ==> HasRootObject(data))
  {
    hide NormalRecord, DefaultEndpoint;
    NormalRecordLaw(data);
    TypeLaw(data);
    if EndpointType(data) == "root" {
      DropSize(Lookup(data, "root").value);
    }
  }

  lemma RootIsJson(data: seq<Field>)
    requires AreJson(data) && HasRootObject(data)
    ensures var r := NormalRecord(data); HasRootObject(r) && HasDistinctKeys(Lookup(r, "root").value.fields)
  {
    hide NormalRecord, DefaultEndpoint;
    NormalRecordLaw(data);
    RootOfNormal(data);
    JsonParts(data, "root");
    if EndpointType(data) == "root" {
      RemoveDistinct(Lookup(data, "root").value.fields, "encryption");
    }
  }

  lemma DoubleRootDoesNotSettle(data: seq<Field>)
    requires AreJson(data) && HasRootObject(data)
    ensures Normalize(Obj(NormalRecord(data))) != Obj(NormalRecord(data))
  {
    hide NormalRecord;
    var r := NormalRecord(data);
    RootIsJson(data);
    var inner := Lookup(r, "root").value.fields;
    RootOfNormal(inner);
    assert Normalize(Obj(r)) == Obj(NormalRecord(inner));
    LookupSize(inner, "root");
    assert Size(Obj(inner)) == 1 + FieldsSize(inner);
    assert NormalRecord(inner) == r ==> Lookup(NormalRecord(inner), "root") == Some(Obj(inner));
  }

  // ------------------------------------------------------------------ the settings

  lemma DropLaw(fields: seq<Field>)
    requires HasDistinctKeys(fields)
    ensures var d := DropUnset(fields);
            && HasDistinctKeys(d) && DropUnset(d) == d
            && (forall key :: key != "encryption" ==> Lookup(d, key) == Lookup(fields, key))
            && (DropUnset(fields) == fields <==>
                !(HasKey(fields, "encryption") && IsUnsetEncryption(Lookup(fields, "encryption").value)))
  {
    hide IsUnsetEncryption, Lookup, Remove, HasDistinctKeys;
    RemoveDistinct(fields, "encryption");
    RemoveAbsent(fields, "encryption");
    forall key ensures Lookup(Remove(fields, "encryption"), key) == if key == "encryption" then None else Lookup(fields, key) {
      RemoveLookup(fields, "encryption", key);
    }
  }

  function CasesOf(fields: seq<Field>): seq<Field> {
    match Lookup(fields, "cases")
    case Some(Obj(cases)) => NormalCases(cases)
    case _ => []
  }

  function DefaultOf(fields: seq<Field>): Value {
    NormalOr(Lookup(fields, "default"), REF_DEFAULT)
  }

  /** The record before its default is filled in, for either kind of switch. */
  function Routed(fields: seq<Field>): seq<Field> {
    if IsPredicateSwitch(fields) then
      Remove(Remove(Put(fields, "when", Arr(NormalWhen(Lookup(fields, "when").value.items))), "metadata_key"), "cases")
    else
      Put(Keyed(fields), "cases", Obj(CasesOf(fields)))
  }

  function Keyed(fields: seq<Field>): seq<Field> {
    var bare := Remove(fields, "when");
    if IsTruthy(Lookup(bare, "metadata_key")) then bare else Put(bare, "metadata_key", Str("type"))
  }

  lemma NormalSwitchParts(fields: seq<Field>)
    ensures NormalSwitch(fields) == Put(Routed(fields), "default", DefaultOf(fields))
  {
    hide Put, Remove, NormalOr, NormalWhen, NormalCases, IsTruthy;
  }

  lemma KeyedLaw(fields: seq<Field>)
    requires HasDistinctKeys(fields)
    ensures var r := Keyed(fields);
            && HasDistinctKeys(r) && Lookup(r, "when") == None && IsTruthy(Lookup(r, "metadata_key"))
            && (forall key :: key != "when" && key != "metadata_key" ==> Lookup(r, key) == Lookup(fields, key))
  {
    hide Lookup, Put, Remove, HasDistinctKeys, IsTruthy;
    var bare := Remove(fields, "when");
    RemoveDistinct(fields, "when");
    PutKeys(bare, "metadata_key", Str("type"));
    forall key ensures Lookup(bare, key) == if key == "when" then None else Lookup(fields, key) {
      RemoveLookup(fields, "when", key);
    }
    forall key ensures Lookup(Put(bare, "metadata_key", Str("type")), key) ==
                       if key == "metadata_key" then Some(Str("type")) else Lookup(bare, key) {
      PutLookup(bare, "metadata_key", Str("type"), key);
    }
    assert IsTruthy(Some(Str("type"))) by { TypeIsTruthy(); }
  }

  lemma TypeIsTruthy()
    ensures IsTruthy(Some(Str("type")))
  {
  }

  lemma PredicateRouted(fields: seq<Field>)
    requires HasDistinctKeys(fields) && IsPredicateSwitch(fields)
    ensures var r := Routed(fields);
            && HasDistinctKeys(r) && Lookup(r, "metadata_key") == None && Lookup(r, "cases") == None
            && Lookup(r, "when") == Some(Arr(NormalWhen(Lookup(fields, "when").value.items)))
            && (forall key :: key != "when" && key != "metadata_key" && key != "cases" ==> Lookup(r, key) == Lookup(fields, key))
  {
    hide NormalWhen, Lookup, Put, Remove, HasDistinctKeys;
    assert HasKey(fields, "when") && Lookup(fields, "when").value.Arr?;
    var when := Arr(NormalWhen(Lookup(fields, "when").value.items));
    var put := Put(fields, "when", when);
    PutKeys(fields, "when", when);
    var one := Remove(put, "metadata_key");
    RemoveDistinct(put, "metadata_key");
    RemoveDistinct(one, "cases");
    forall key ensures Lookup(Remove(one, "cases"), key) ==
                       if key == "cases" || key == "metadata_key" then None
                       else if key == "when" then Some(when) else Lookup(fields, key) {
      PutLookup(fields, "when", when, key);
      RemoveLookup(put, "metadata_key", key);
      RemoveLookup(one, "cases", key);
    }
  }

  /** A switch in normal form, but for the endpoints in it. */
  predicate HasSwitchForm(fields: seq<Field>) {
    && HasDistinctKeys(fields) && HasKey(fields, "default")
    && if IsPredicateSwitch(fields) then !HasKey(fields, "metadata_key") && !HasKey(fields, "cases")
       else
         && !HasKey(fields, "when") && IsTruthy(Lookup(fields, "metadata_key"))
         && HasKey(fields, "cases") && Lookup(fields, "cases").value.Obj?
  }

  lemma PredicateLists(entries: seq<Value>)
    ensures IsPredicateList(Some(Arr(NormalWhen(entries)))) <==> entries != []
  {
  }

  lemma ValueRouted(fields: seq<Field>)
    requires HasDistinctKeys(fields) && !IsPredicateSwitch(fields)
    ensures var r := Routed(fields);
            && HasDistinctKeys(r) && Lookup(r, "when") == None && IsTruthy(Lookup(r, "metadata_key"))
            && Lookup(r, "cases") == Some(Obj(CasesOf(fields)))
            && (forall key :: key != "when" && key != "metadata_key" && key != "cases" ==> Lookup(r, key) == Lookup(fields, key))
  {
    hide Keyed, CasesOf, IsTruthy, IsPredicateList, Lookup, HasDistinctKeys, Put;
    KeyedLaw(fields);
    PutKeys(Keyed(fields), "cases", Obj(CasesOf(fields)));
    forall key
      ensures Lookup(Routed(fields), key) == if key == "cases" then Some(Obj(CasesOf(fields))) else Lookup(Keyed(fields), key)
    {
      PutLookup(Keyed(fields), "cases", Obj(CasesOf(fields)), key);
    }
  }

  lemma NormalSwitchLaw(fields: seq<Field>)
    requires HasDistinctKeys(fields)
    ensures var s := NormalSwitch(fields);
            && HasSwitchForm(s) && (IsPredicateSwitch(s) <==> IsPredicateSwitch(fields))
            && Lookup(s, "default") == Some(DefaultOf(fields))
            && (IsPredicateSwitch(fields) ==> Lookup(s, "when") == Some(Arr(NormalWhen(Lookup(fields, "when").value.items))))
            && (!IsPredicateSwitch(fields) ==> Lookup(s, "cases") == Some(Obj(CasesOf(fields))))
            && Lookup(s, "encryption") == Lookup(fields, "encryption")
  {
    hide NormalWhen, DefaultOf, CasesOf, NormalSwitch, IsTruthy, Routed, Lookup, Put, HasDistinctKeys;
    NormalSwitchParts(fields);
    var routed, s := Routed(fields), NormalSwitch(fields);
    if IsPredicateSwitch(fields) {
      PredicateRouted(fields);
      PredicateLists(Lookup(fields, "when").value.items);
    } else {
      ValueRouted(fields);
    }
    PutKeys(routed, "default", DefaultOf(fields));
    forall key ensures Lookup(s, key) == if key == "default" then Some(DefaultOf(fields)) else Lookup(routed, key) {
      PutLookup(routed, "default", DefaultOf(fields), key);
    }
  }

  /** Normalising a switch in normal form: only the endpoints in it can change. */
  lemma SwitchAgain(d: seq<Field>)
    requires HasSwitchForm(d)
    ensures NormalSwitch(d) == d <==>
            && DefaultOf(d) == Lookup(d, "default").value
            && if IsPredicateSwitch(d) then NormalWhen(Lookup(d, "when").value.items) == Lookup(d, "when").value.items
               else CasesOf(d) == Lookup(d, "cases").value.fields
  {
    hide NormalOr, NormalWhen, NormalCases, DefaultOf, CasesOf, NormalSwitch, IsTruthy;
    NormalSwitchParts(d);
    if IsPredicateSwitch(d) {
      var when := Arr(NormalWhen(Lookup(d, "when").value.items));
      var put := Put(d, "when", when);
      PutLookup(d, "when", when, "metadata_key");
      PutLookup(d, "when", when, "cases");
      RemoveAbsent(put, "metadata_key");
      RemoveAbsent(put, "cases");
      PutTwice(d, "when", when, "default", DefaultOf(d));
    } else {
      RemoveAbsent(d, "when");
      PutTwice(d, "cases", Obj(CasesOf(d)), "default", DefaultOf(d));
    }
  }

  /** A normal switch without its unset encryption is still in normal form, with the same endpoints. */
  lemma DroppedSwitch(fields: seq<Field>)
    requires HasDistinctKeys(fields)
    ensures var s := NormalSwitch(fields); var d := DropUnset(s);
            && HasSwitchForm(d) && (IsPredicateSwitch(d) <==> IsPredicateSwitch(fields)) && DropUnset(d) == d
            && (forall key :: key != "encryption" ==> Lookup(d, key) == Lookup(s, key))
            && (DropUnset(NormalSwitch(d)) == d <==> NormalSwitch(d) == d)
  {
    hide NormalSwitch, DropUnset, IsTruthy, IsUnsetEncryption, Lookup, IsPredicateList, HasDistinctKeys;
    hide CasesOf, DefaultOf, NormalWhen;
    NormalSwitchLaw(fields);
    var s := NormalSwitch(fields);
    DropLaw(s);
    var d := DropUnset(s);
    FormIgnoresEncryption(s, d);
    NormalSwitchLaw(d);
    DropLaw(d);
    DropLaw(NormalSwitch(d));
  }

  lemma FormIgnoresEncryption(s: seq<Field>, d: seq<Field>)
    requires HasSwitchForm(s) && HasDistinctKeys(d) && forall key :: key != "encryption" ==> Lookup(d, key) == Lookup(s, key)
    ensures HasSwitchForm(d) && (IsPredicateSwitch(d) <==> IsPredicateSwitch(s))
  {
    hide IsTruthy, Lookup, IsPredicateList, HasDistinctKeys;
    assert Lookup(d, "when") == Lookup(s, "when") && Lookup(d, "cases") == Lookup(s, "cases");
    assert Lookup(d, "metadata_key") == Lookup(s, "metadata_key") && Lookup(d, "default") == Lookup(s, "default");
  }

  // ------------------------------------------------------------------ normalising twice

  lemma NullRefIsNormal()
    ensures Normalize(EMPTY_REF) == REF_DEFAULT && Normalize(REF_DEFAULT) == REF_DEFAULT
  {
    var data := REF_DEFAULT.fields;
    assert data[1..][0] == Field("middlewares", Arr([])) && data[1..][1..] == [];
    assert HasDistinctKeys(data) && EndpointType(data) == "ref";
    assert Spread(DefaultEndpoint("ref"), data) == data by {
      assert Keys(DefaultEndpoint("ref")) == ["ref"] && Keys(data) == ["ref", "middlewares"];
      SpreadOverPrefix(DefaultEndpoint("ref"), data);
    }
    PutTwice(data, "ref", Str(""), "middlewares", Arr([]));
    var one := EMPTY_REF.fields;
    assert one[1..] == [] && Keys(one) == ["ref"] && EndpointType(one) == "ref";
    SpreadOverPrefix(DefaultEndpoint("ref"), one);
    assert Put(one, "ref", Str("")) == one;
    assert Put(one, "middlewares", Arr([])) == data;
  }

  lemma HttpDefaultIsNormal()
    ensures Normalize(HTTP_DEFAULT) == HTTP_DEFAULT
  {
    var data := HTTP_DEFAULT.fields;
    assert data == DefaultEndpoint("http");
    DefaultLaw("http");
    FirstKeyLaw(data);
    LookupLaw(data, "http");
    LookupLaw(data, "middlewares");
    assert data[0] == Field("http", Obj([])) && data[1] == Field("middlewares", Arr([]));
    hide Lookup, Put, Spread, DefaultEndpoint, FirstKey;
    NormalRecordParts(data);
    EmptySettingsAreNormal();
    NoMiddlewaresAreNormal();
    SpreadOverPrefix(data, data);
    PutTwice(data, "http", Obj([]), "middlewares", Arr([]));
  }

  lemma {:induction false} Twice(v: Value)
    requires IsJson(v)
    ensures Normalize(Normalize(v)) == Normalize(v) <==> Settles(v)
    decreases Size(v), 0
  {
    UnwrapSize(v);
    UnwrapIsJson(v);
    match Unwrap(v)
    case None => HttpDefaultIsNormal();
    case Some(data) =>
      hide NormalRecord, NormalConfig, NormalMiddlewares, ConfigSettles, MiddlewaresSettle, EndpointType;
      assert Normalize(v) == Obj(NormalRecord(data));
      if HasRootObject(data) {
        DoubleRootDoesNotSettle(data);
      } else {
        RootOfNormal(data);
        assert Normalize(Normalize(v)) == Obj(NormalRecord(NormalRecord(data)));
        NormalRecordAgain(data);
        var kind := EndpointType(data);
        LookupSize(data, kind);
        LookupSize(data, "middlewares");
        JsonParts(data, kind);
        JsonParts(data, "middlewares");
        if HasKey(data, kind) {
          ConfigTwice(kind, Lookup(data, kind).value);
        } else {
          TypeLaw(data);
          EmptySettingsAreNormal();
        }
        match Lookup(data, "middlewares")
        case Some(Arr(items)) => MiddlewaresTwice(items);
        case _ => NoMiddlewaresAreNormal();
      }
  }

  lemma EmptySettingsAreNormal()
    ensures NormalConfig("http", Obj([])) == Obj([])
  {
  }

  lemma NoMiddlewaresAreNormal()
    ensures NormalMiddlewares([]) == []
  {
  }

  lemma {:induction false} ConfigTwice(kind: string, config: Value)
    requires IsJson(config)
    ensures NormalConfig(kind, NormalConfig(kind, config)) == NormalConfig(kind, config) <==> ConfigSettles(kind, config)
    decreases Size(config), 0
  {
    hide NormalSwitch, SwitchSettles;
    if kind == "fanout" {
      if config.Arr? {
        ItemsTwice(config.items);
      } else {
        NullRefIsNormal();
        assert NormalItems([EMPTY_REF]) == [REF_DEFAULT] by { assert [EMPTY_REF][1..] == []; }
      }
    } else if kind == "switch" && config.Obj? {
      SwitchTwice(config.fields);
      DroppedSwitch(config.fields);
    } else if config.Obj? {
      DropLaw(config.fields);
    }
  }

  lemma {:induction false} SwitchTwice(fields: seq<Field>)
    requires AreJson(fields)
    ensures var d := DropUnset(NormalSwitch(fields)); NormalSwitch(d) == d <==> SwitchSettles(fields)
    decreases FieldsSize(fields), 2
  {
    hide NormalSwitch, DropUnset, NormalWhen, NormalCases, HasDistinctKeys, IsTruthy, Lookup, NormalOr;
    hide FieldSettles, WhenSettles, CasesSettle;
    LookupSize(fields, "when");
    LookupSize(fields, "cases");
    LookupSize(fields, "default");
    JsonParts(fields, "when");
    JsonParts(fields, "cases");
    var d := DropUnset(NormalSwitch(fields));
    NormalSwitchLaw(fields);
    DroppedSwitch(fields);
    SwitchAgain(d);
    FieldTwice(fields, "default");
    assert Lookup(d, "default") == Some(DefaultOf(fields));
    if IsPredicateSwitch(fields) {
      assert Lookup(d, "when") == Some(Arr(NormalWhen(Lookup(fields, "when").value.items)));
      WhenTwice(Lookup(fields, "when").value.items);
    } else {
      assert Lookup(d, "cases") == Some(Obj(CasesOf(fields)));
      match Lookup(fields, "cases")
      case Some(Obj(cases)) => CasesTwice(cases);
      case _ => NoCasesAreNormal();
    }
  }

  lemma NoCasesAreNormal()
    ensures NormalCases([]) == []
  {
  }

  lemma {:induction false} FieldTwice(fields: seq<Field>, key: string)
    requires AreJson(fields)
    ensures var once := NormalOr(Lookup(fields, key), REF_DEFAULT);
            NormalOr(Some(once), REF_DEFAULT) == once <==> FieldSettles(fields, key)
    decreases FieldsSize(fields), 1
  {
    LookupSize(fields, key);
    JsonParts(fields, key);
    NullRefIsNormal();
    if HasKey(fields, key) && !Lookup(fields, key).value.Null? {
      Twice(Lookup(fields, key).value);
    }
  }

  lemma {:induction false} ItemsTwice(items: seq<Value>)
    requires forall i :: 0 <= i < |items| ==> IsJson(items[i])
    ensures NormalItems(NormalItems(items)) == NormalItems(items) <==> ItemsSettle(items)
    decreases ItemsSize(items), 1
  {
    if items != [] {
      hide Normalize, Settles;
      Twice(items[0]);
      ItemsTwice(items[1..]);
      var once := NormalItems(items);
      assert once[0] == Normalize(items[0]) && once[1..] == NormalItems(items[1..]);
      SameList(NormalItems(once), once);
      assert NormalItems(once)[1..] == NormalItems(once[1..]);
    }
  }

  lemma SameList<T>(a: seq<T>, b: seq<T>)
    requires |a| > 0 && |b| > 0
    ensures a == b <==> a[0] == b[0] && a[1..] == b[1..]
  {
    assert a == [a[0]] + a[1..] && b == [b[0]] + b[1..];
  }

  lemma {:induction false} CasesTwice(cases: seq<Field>)
    requires AreJson(cases)
    ensures NormalCases(NormalCases(cases)) == NormalCases(cases) <==> CasesSettle(cases)
    decreases FieldsSize(cases), 1
  {
    if cases != [] {
      hide Normalize, Settles;
      Twice(cases[0].value);
      assert AreJson(cases[1..]);
      CasesTwice(cases[1..]);
      var once := NormalCases(cases);
      assert once[0] == Field(cases[0].key, Normalize(cases[0].value)) && once[1..] == NormalCases(cases[1..]);
      SameList(NormalCases(once), once);
      assert NormalCases(once)[1..] == NormalCases(once[1..]);
    }
  }

  lemma {:induction false} EntryTwice(entry: Value)
    requires IsJson(entry)
    ensures NormalEntry(NormalEntry(entry)) == NormalEntry(entry) <==> (entry.Obj? ==> FieldSettles(entry.fields, "to"))
    decreases Size(entry), 1
  {
    HttpDefaultIsNormal();
    match entry
    case Obj(fields) =>
      hide Normalize, Settles;
      LookupSize(fields, "to");
      JsonParts(fields, "to");
      var to := if HasKey(fields, "to") then Normalize(Lookup(fields, "to").value) else HTTP_DEFAULT;
      if HasKey(fields, "to") {
        Twice(Lookup(fields, "to").value);
      }
      EntryAgain(fields, to);
    case Arr(items) => EntryAgain(Indexed(items), HTTP_DEFAULT);
    case _ =>
      assert Put([], "to", HTTP_DEFAULT) == [Field("to", HTTP_DEFAULT)];
      EntryAgain([], HTTP_DEFAULT);
  }

  lemma EntryAgain(fields: seq<Field>, to: Value)
    ensures var once := Put(fields, "to", to); NormalEntry(Obj(once)) == Obj(once) <==> Normalize(to) == to
  {
    hide Normalize;
    var once := Put(fields, "to", to);
    PutLookup(fields, "to", to, "to");
    PutSame(once, "to", Normalize(to));
  }

  lemma {:induction false} WhenTwice(entries: seq<Value>)
    requires forall i :: 0 <= i < |entries| ==> IsJson(entries[i])
    ensures NormalWhen(NormalWhen(entries)) == NormalWhen(entries) <==> WhenSettles(entries)
    decreases ItemsSize(entries), 1
  {
    if entries != [] {
      hide NormalEntry, FieldSettles;
      assert entries[0].Obj? ==> Size(entries[0]) == 1 + FieldsSize(entries[0].fields);
      EntryTwice(entries[0]);
      WhenTwice(entries[1..]);
      var once := NormalWhen(entries);
      assert once[0] == NormalEntry(entries[0]) && once[1..] == NormalWhen(entries[1..]);
      SameList(NormalWhen(once), once);
      assert NormalWhen(once)[1..] == NormalWhen(once[1..]);
    }
  }

  lemma {:induction false} MiddlewaresTwice(items: seq<Value>)
    requires forall i :: 0 <= i < |items| ==> IsJson(items[i])
    ensures NormalMiddlewares(NormalMiddlewares(items)) == NormalMiddlewares(items) <==> MiddlewaresSettle(items)
    decreases ItemsSize(items), 1
  {
    if items != [] {
      hide NormalMiddleware, MiddlewareSettles;
      MiddlewaresTwice(items[1..]);
      if items[0].Obj? {
        assert Size(items[0]) == 1 + FieldsSize(items[0].fields);
        MiddlewareTwice(items[0].fields);
        var once := NormalMiddlewares(items);
        assert once[0] == Obj(NormalMiddleware(items[0].fields)) && once[1..] == NormalMiddlewares(items[1..]);
        SameList(NormalMiddlewares(once), once);
        assert NormalMiddlewares(once)[1..] == NormalMiddlewares(once[1..]);
      }
    }
  }

  lemma {:induction false} MiddlewareTwice(fields: seq<Field>)
    requires AreJson(fields)
    ensures NormalMiddleware(NormalMiddleware(fields)) == NormalMiddleware(fields) <==> MiddlewareSettles(fields)
    decreases FieldsSize(fields), 2
  {
    hide NormalOr, FieldSettles;
    LookupSize(fields, "dlq");
    JsonParts(fields, "dlq");
    match Lookup(fields, "dlq")
    case Some(Obj(dlq)) =>
      FieldTwice(dlq, "endpoint");
      var endpoint := NormalOr(Lookup(dlq, "endpoint"), REF_DEFAULT);
      var once := Put(dlq, "endpoint", endpoint);
      PutLookup(fields, "dlq", Obj(once), "dlq");
      PutLookup(dlq, "endpoint", endpoint, "endpoint");
      PutSame(once, "endpoint", NormalOr(Some(endpoint), REF_DEFAULT));
      PutSame(Put(fields, "dlq", Obj(once)), "dlq", Obj(Put(once, "endpoint", NormalOr(Some(endpoint), REF_DEFAULT))));
    case _ =>
  }

  /** Normalising is idempotent exactly on the endpoints that settle. */
  lemma IdempotentExactly(v: Value)
    requires IsJson(v)
    ensures Normalize(Normalize(v)) == Normalize(v) <==> Settles(v)
  {
    Twice(v);
  }

  /** The type of an endpoint is that of its normal form. */
  lemma NormalFormKeepsType(v: Value)
    requires IsJson(v) && Unwrap(v).Some?
    ensures Normalize(v).Obj? && EndpointType(Normalize(v).fields) == EndpointType(Unwrap(v).value)
  {
    hide NormalRecord, EndpointType;
    UnwrapIsJson(v);
    TypeIsKept(Unwrap(v).value);
  }
}
