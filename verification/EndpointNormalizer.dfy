/** The normaliser as it runs: it edits a copy of the endpoint's record, and loops over the endpoints inside. */
module EndpointNormalizer {
  import opened Options
  import opened Json
  import opened Records
  import opened EndpointDefaults
  import opened EndpointDefaultsLaws

  lemma {:induction false} ItemSize(items: seq<Value>, i: nat)
    requires i < |items|
    ensures Size(items[i]) < ItemsSize(items)
  {
    if i > 0 {
      ItemSize(items[1..], i - 1);
    }
  }

  lemma {:induction false} FieldSize(fields: seq<Field>, i: nat)
    requires i < |fields|
    ensures Size(fields[i].value) < FieldsSize(fields)
  {
    if i > 0 {
      FieldSize(fields[1..], i - 1);
    }
  }

  predicate AreJsonItems(items: seq<Value>) {
    forall i :: 0 <= i < |items| ==> IsJson(items[i])
  }

  /** What the copy of an endpoint's record holds before anything is edited. */
  lemma CopyLaw(data: seq<Field>)
    requires HasDistinctKeys(data)
    ensures var kind := EndpointType(data); var copy := Spread(DefaultEndpoint(kind), data);
            && HasKey(copy, kind)
            && Lookup(copy, kind) == (if HasKey(data, kind) then Lookup(data, kind) else Some(Obj([])))
            && (!HasKey(data, kind) ==> kind == "http")
            && (HasKey(data, "middlewares") ==> Lookup(copy, "middlewares") == Lookup(data, "middlewares"))
            && (!HasKey(data, "middlewares") ==> Lookup(copy, "middlewares") in {None, Some(Arr([]))})
  {
    var kind := EndpointType(data);
    TypeLaw(data);
    DefaultLaw(kind);
    var d := DefaultEndpoint(kind);
    SpreadLookup(d, data, kind);
    SpreadLookup(d, data, "middlewares");
    LookupLaw(d, kind);
    LookupLaw(d, "middlewares");
    assert |d| == 2 ==> d[1] == Field("middlewares", Arr([]));
    assert kind == "http" ==> d[0] == Field("http", Obj([]));
    assert |d| == 1 ==> Lookup(d, "middlewares") == None by { assert |d| == 1 ==> d[1..] == []; }
  }

  method EnsureEndpointDefaults(endpoint: Value) returns (r: Value)
    requires IsJson(endpoint)
    ensures r == Normalize(endpoint)
    decreases Size(endpoint), 0
  {
    hide NormalRecord, DefaultEndpoint, EndpointType, Lookup, Put, Spread, HasDistinctKeys;
    UnwrapSize(endpoint);
    UnwrapIsJson(endpoint);
    var unwrapped := Unwrap(endpoint);
    if unwrapped.None? {
      return HTTP_DEFAULT;
    }
    var data := unwrapped.value;
    var kind := EndpointType(data);
    CopyLaw(data);
    TypeLaw(data);
    LookupSize(data, kind);
    JsonParts(data, kind);
    LookupSize(data, "middlewares");
    JsonParts(data, "middlewares");
    var normalized := Spread(DefaultEndpoint(kind), data);
    PutLookup(normalized, kind, ConfigOf(data), "middlewares");
    if HasKey(data, kind) {
      var config := EnsureConfigDefaults(kind, Lookup(normalized, kind).value);
      normalized := Put(normalized, kind, config);
    } else {
      assert Put(normalized, kind, Obj([])) == normalized by { PutSame(normalized, kind, Obj([])); }
    }
    assert normalized == Put(Spread(DefaultEndpoint(kind), data), kind, ConfigOf(data));
    var middlewares := [];
    var listed := Lookup(normalized, "middlewares");
    if listed.Some? && listed.value.Arr? {
      if HasKey(data, "middlewares") {
        middlewares := NormalizeMiddlewares(listed.value.items);
      }
    }
    assert middlewares == MiddlewaresOf(data);
    normalized := Put(normalized, "middlewares", Arr(middlewares));
    NormalRecordParts(data);
    r := Obj(normalized);
  }

  method EnsureConfigDefaults(kind: string, config: Value) returns (r: Value)
    requires IsJson(config)
    ensures r == NormalConfig(kind, config)
    decreases Size(config), 0
  {
    if kind == "switch" && config.Obj? {
      var fields := EnsureSwitchDefaults(config.fields);
      r := Obj(DropUnset(fields));
    } else if kind == "fanout" {
      if config.Arr? {
        var items := NormalizeItems(config.items);
        r := Arr(items);
      } else {
        r := Arr([EMPTY_REF]);
      }
    } else if IsScalarType(kind) {
      r := Scalar(kind, config);
    } else {
      r := DropUnsetEncryption(config);
    }
  }

  method EnsureSwitchDefaults(fields: seq<Field>) returns (record: seq<Field>)
    requires AreJson(fields)
    ensures record == NormalSwitch(fields)
    decreases FieldsSize(fields), 2
  {
    hide Lookup, Put, Remove, HasDistinctKeys, IsTruthy, NormalWhen, NormalCases, NormalOr, NormalSwitch;
    LookupSize(fields, "when");
    LookupSize(fields, "cases");
    LookupSize(fields, "default");
    JsonParts(fields, "when");
    JsonParts(fields, "cases");
    JsonParts(fields, "default");
    NormalSwitchParts(fields);
    record := fields;
    var when := Lookup(record, "when");
    if when.Some? && when.value.Arr? && when.value.items != [] {
      PredicateRouted(fields);
      var entries := NormalizeWhen(when.value.items);
      record := Put(record, "when", Arr(entries));
      record := Remove(record, "metadata_key");
      record := Remove(record, "cases");
    } else {
      KeyedLaw(fields);
      ValueRouted(fields);
      record := Remove(record, "when");
      if !IsTruthy(Lookup(record, "metadata_key")) {
        record := Put(record, "metadata_key", Str("type"));
      }
      var raw := Lookup(record, "cases");
      var cases := [];
      if raw.Some? && raw.value.Obj? {
        cases := NormalizeCases(raw.value.fields);
      }
      assert cases == CasesOf(fields);
      record := Put(record, "cases", Obj(cases));
    }
    assert record == Routed(fields);
    var endpoint := REF_DEFAULT;
    var last := Lookup(record, "default");
    if last.Some? && !last.value.Null? {
      endpoint := EnsureEndpointDefaults(last.value);
    }
    assert endpoint == DefaultOf(fields) by { MissingIsOtherwise(last, REF_DEFAULT); }
    record := Put(record, "default", endpoint);
  }

  lemma MissingIsOtherwise(v: Option<Value>, otherwise: Value)
    ensures NormalOr(v, otherwise) == if v.None? || v.value.Null? then otherwise else Normalize(v.value)
  {
  }

  lemma {:induction false} NormalItemsAt(items: seq<Value>, i: nat)
    requires i < |items|
    ensures NormalItems(items)[i] == Normalize(items[i])
  {
    if i > 0 {
      NormalItemsAt(items[1..], i - 1);
    }
  }

  lemma {:induction false} NormalCasesAt(cases: seq<Field>, i: nat)
    requires i < |cases|
    ensures NormalCases(cases)[i] == Field(cases[i].key, Normalize(cases[i].value))
  {
    if i > 0 {
      NormalCasesAt(cases[1..], i - 1);
    }
  }

  lemma {:induction false} NormalWhenAt(entries: seq<Value>, i: nat)
    requires i < |entries|
    ensures NormalWhen(entries)[i] == NormalEntry(entries[i])
  {
    if i > 0 {
      NormalWhenAt(entries[1..], i - 1);
    }
  }

  method NormalizeItems(items: seq<Value>) returns (r: seq<Value>)
    requires AreJsonItems(items)
    ensures r == NormalItems(items)
    decreases ItemsSize(items), 1
  {
    hide NormalItems;
    r := [];
    for i := 0 to |items|
      invariant |r| == i && forall j :: 0 <= j < i ==> r[j] == NormalItems(items)[j]
    {
      ItemSize(items, i);
      NormalItemsAt(items, i);
      var item := EnsureEndpointDefaults(items[i]);
      r := r + [item];
    }
  }

  method NormalizeCases(cases: seq<Field>) returns (r: seq<Field>)
    requires AreJson(cases)
    ensures r == NormalCases(cases)
    decreases FieldsSize(cases), 1
  {
    hide NormalCases;
    r := [];
    for i := 0 to |cases|
      invariant |r| == i && forall j :: 0 <= j < i ==> r[j] == NormalCases(cases)[j]
    {
      FieldSize(cases, i);
      NormalCasesAt(cases, i);
      var endpoint := EnsureEndpointDefaults(cases[i].value);
      r := r + [Field(cases[i].key, endpoint)];
    }
  }

  method NormalizeWhen(entries: seq<Value>) returns (r: seq<Value>)
    requires AreJsonItems(entries)
    ensures r == NormalWhen(entries)
    decreases ItemsSize(entries), 1
  {
    hide NormalWhen;
    r := [];
    for i := 0 to |entries|
      invariant |r| == i && forall j :: 0 <= j < i ==> r[j] == NormalWhen(entries)[j]
    {
      ItemSize(entries, i);
      NormalWhenAt(entries, i);
      var entry := NormalizeEntry(entries[i]);
      r := r + [entry];
    }
  }

  method NormalizeEntry(entry: Value) returns (r: Value)
    requires IsJson(entry)
    ensures r == NormalEntry(entry)
    decreases Size(entry), 1
  {
    match entry
    case Obj(fields) =>
      LookupSize(fields, "to");
      JsonParts(fields, "to");
      var to := HTTP_DEFAULT;
      if HasKey(fields, "to") {
        to := EnsureEndpointDefaults(Lookup(fields, "to").value);
      }
      r := Obj(Put(fields, "to", to));
    case Arr(items) => r := Obj(Put(Indexed(items), "to", HTTP_DEFAULT));
    case _ => r := Obj([Field("to", HTTP_DEFAULT)]);
  }

  method NormalizeMiddlewares(items: seq<Value>) returns (r: seq<Value>)
    requires AreJsonItems(items)
    ensures r == NormalMiddlewares(items)
    decreases ItemsSize(items), 1
  {
    r := [];
    for i := 0 to |items|
      invariant r + NormalMiddlewares(items[i..]) == NormalMiddlewares(items)
    {
      ItemSize(items, i);
      var rest := NormalMiddlewares(items[i + 1..]);
      assert items[i..][0] == items[i] && items[i..][1..] == items[i + 1..];
      if items[i].Obj? {
        assert Size(items[i]) == 1 + FieldsSize(items[i].fields);
        var fields := NormalizeMiddleware(items[i].fields);
        assert r + ([Obj(fields)] + rest) == (r + [Obj(fields)]) + rest;
        r := r + [Obj(fields)];
      }
    }
    assert items[|items|..] == [];
  }

  method NormalizeMiddleware(fields: seq<Field>) returns (r: seq<Field>)
    requires AreJson(fields)
    ensures r == NormalMiddleware(fields)
    decreases FieldsSize(fields), 2
  {
    LookupSize(fields, "dlq");
    JsonParts(fields, "dlq");
    r := fields;
    var dlq := Lookup(r, "dlq");
    if dlq.Some? && dlq.value.Obj? {
      var record := dlq.value.fields;
      LookupSize(record, "endpoint");
      JsonParts(record, "endpoint");
      var endpoint := REF_DEFAULT;
      var inner := Lookup(record, "endpoint");
      if inner.Some? && !inner.value.Null? {
        endpoint := EnsureEndpointDefaults(inner.value);
      }
      r := Put(r, "dlq", Obj(Put(record, "endpoint", endpoint)));
    }
  }
}
