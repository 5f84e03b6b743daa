/** What the normal form of an endpoint holds, part by part, told from the fields of the endpoint alone. */
module EndpointMeaning {
  import opened Options
  import opened Text
  import opened Json
  import opened Records
  import opened EndpointDefaults
  import opened EndpointDefaultsLaws
  import opened EndpointNormalizer

  // ------------------------------------------------------------------ the record and its type

  /** The record of an endpoint: what its `root` field holds if that is an object, and the endpoint itself otherwise. */
  ghost predicate IsRecordOf(data: seq<Field>, v: Value) {
    && v.Obj?
    && match Lookup(v.fields, "root")
       case Some(Obj(inner)) => data == inner
       case _ => data == v.fields
  }

  lemma NoObjectIsHttp(v: Value)
    requires !v.Obj?
    ensures Normalize(v) == Obj([Field("http", Obj([])), Field("middlewares", Arr([]))])
  {
  }

  lemma NormalizeRecord(v: Value, data: seq<Field>)
    requires IsRecordOf(data, v)
    ensures Normalize(v) == Obj(NormalRecord(data))
  {
    hide NormalRecord;
  }

  predicate AreAllMiddlewares(keys: seq<string>) {
    forall i :: 0 <= i < |keys| ==> keys[i] == "middlewares"
  }

  /** `ref` or `static` wherever it stands, else the first key that is not `middlewares`, else `http`. */
  ghost predicate IsTypeOf(kind: string, data: seq<Field>) {
    var keys := Keys(data);
    if "ref" in keys then kind == "ref"
    else if "static" in keys then kind == "static"
    else if AreAllMiddlewares(keys) then kind == "http"
    else exists i :: IsFirstOther(keys, i) && kind == if keys[i] == "" then "http" else keys[i]
  }

  ghost predicate IsFirstOther(keys: seq<string>, i: int) {
    0 <= i < |keys| && keys[i] != "middlewares" && forall j :: 0 <= j < i ==> keys[j] == "middlewares"
  }

  lemma AllFurtherOn(rest: seq<string>)
    ensures AreAllMiddlewares(["middlewares"] + rest) <==> AreAllMiddlewares(rest)
  {
    var keys := ["middlewares"] + rest;
    assert forall i :: 0 <= i < |rest| ==> keys[i + 1] == rest[i];
    if AreAllMiddlewares(keys) {
      forall i | 0 <= i < |rest| ensures rest[i] == "middlewares" {
        assert keys[i + 1] == "middlewares";
      }
    }
  }

  lemma OtherFurtherOn(rest: seq<string>, i: int)
    requires IsFirstOther(rest, i)
    ensures IsFirstOther(["middlewares"] + rest, i + 1) && (["middlewares"] + rest)[i + 1] == rest[i]
  {
    var keys := ["middlewares"] + rest;
    forall j | 0 <= j < i + 1 ensures keys[j] == "middlewares" {
      if j > 0 {
        assert keys[j] == rest[j - 1];
      }
    }
  }

  lemma {:induction false} FirstKeyIsOther(data: seq<Field>)
    ensures var keys := Keys(data);
            if AreAllMiddlewares(keys) then FirstKey(data) == ""
            else exists i :: IsFirstOther(keys, i) && FirstKey(data) == keys[i]
  {
    var keys := Keys(data);
    if data != [] {
      if data[0].key != "middlewares" {
        assert IsFirstOther(keys, 0) && keys[0] == data[0].key;
      } else {
        var rest := Keys(data[1..]);
        FirstKeyIsOther(data[1..]);
        KeysOfFirst(data[0], data[1..]);
        assert data == [data[0]] + data[1..];
        AllFurtherOn(rest);
        hide Keys, AreAllMiddlewares, IsFirstOther;
        if !AreAllMiddlewares(rest) {
          var i :| IsFirstOther(rest, i) && FirstKey(data[1..]) == rest[i];
          OtherFurtherOn(rest, i);
        }
      }
    }
  }

  lemma TypeMeaning(data: seq<Field>, kind: string)
    ensures EndpointType(data) == kind <==> IsTypeOf(kind, data)
  {
    hide FirstKey, Keys, Lookup;
    LookupLaw(data, "ref");
    LookupLaw(data, "static");
    FirstKeyIsOther(data);
    var keys := Keys(data);
    if !AreAllMiddlewares(keys) {
      var i :| IsFirstOther(keys, i) && FirstKey(data) == keys[i];
      forall j | IsFirstOther(keys, j) ensures j == i {
      }
    }
  }

  // ------------------------------------------------------------------ the keys of the normal record

  /** The keys that are not `known`, in their order. */
  function Beyond(keys: seq<string>, known: seq<string>): seq<string> {
    if keys == [] then []
    else
      var n := |keys| - 1;
      Beyond(keys[..n], known) + if keys[n] in known then [] else [keys[n]]
  }

  lemma {:induction false} SpreadOrder(a: seq<Field>, b: seq<Field>)
    requires HasDistinctKeys(b)
    ensures Keys(Spread(a, b)) == Keys(a) + Beyond(Keys(b), Keys(a))
  {
    if b != [] {
      var n := |b| - 1;
      var front, key := b[..n], b[n].key;
      SpreadOrder(a, front);
      assert Keys(b)[..n] == Keys(front) && Keys(b)[n] == key;
      hide Keys, Put, HasDistinctKeys, Spread;
      SpreadOneField(a, b);
      PutKeysOnly(Spread(a, front), key, b[n].value);
      SpreadKnows(a, b);
      assert (Keys(a) + Beyond(Keys(front), Keys(a))) + [key] == Keys(a) + (Beyond(Keys(front), Keys(a)) + [key]);
    }
  }

  lemma SpreadOneField(a: seq<Field>, b: seq<Field>)
    requires b != []
    ensures var n := |b| - 1; Spread(a, b) == Put(Spread(a, b[..n]), b[n].key, b[n].value)
  {
  }

  lemma SpreadKnows(a: seq<Field>, b: seq<Field>)
    requires HasDistinctKeys(b) && b != []
    ensures var n := |b| - 1; HasKey(Spread(a, b[..n]), b[n].key) <==> b[n].key in Keys(a)
  {
    var n := |b| - 1;
    var front, key := b[..n], b[n].key;
    SpreadLookup(a, front, key);
    LookupLaw(front, key);
    LookupLaw(a, key);
    assert key !in Keys(front) by {
      forall i | 0 <= i < n ensures Keys(front)[i] != key {
        assert front[i] == b[i];
      }
    }
  }

  /** The keys that come first, whatever their place in the endpoint. */
  function Leading(kind: string): seq<string> {
    if kind == "ref" || kind == "static" then [kind] else [kind, "middlewares"]
  }

  /** The type leads, and fields other than the settings and the middlewares are as they were, in their order. */
  lemma RecordMeaning(v: Value, data: seq<Field>, kind: string)
    requires IsRecordOf(data, v) && IsTypeOf(kind, data) && HasDistinctKeys(data)
    ensures var r := Normalize(v).fields;
            && HasDistinctKeys(r)
            && Keys(r) == Leading(kind) + Beyond(Keys(data), Leading(kind)) +
                          (if |Leading(kind)| == 1 && "middlewares" !in Keys(data) then ["middlewares"] else [])
            && (forall key :: key != kind && key != "middlewares" ==> Lookup(r, key) == Lookup(data, key))
  {
    hide NormalRecord, DefaultEndpoint, EndpointType, ConfigOf, MiddlewaresOf, Spread, Put, Keys, Lookup,
         HasDistinctKeys, Beyond;
    TypeMeaning(data, kind);
    NormalizeRecord(v, data);
    NormalRecordParts(data);
    NormalRecordLaw(data);
    TypeLaw(data);
    var d := DefaultEndpoint(kind);
    DefaultKeys(kind);
    SpreadOrder(d, data);
    var base := Spread(d, data);
    var placed := Put(base, kind, ConfigOf(data));
    PutKeysOnly(base, kind, ConfigOf(data));
    PutKeysOnly(placed, "middlewares", Arr(MiddlewaresOf(data)));
    SpreadLookup(d, data, kind);
    LookupLaw(d, kind);
    assert HasKey(base, kind);
    SpreadLookup(d, data, "middlewares");
    PutLookup(base, kind, ConfigOf(data), "middlewares");
    LookupLaw(d, "middlewares");
    LookupLaw(data, "middlewares");
  }

  lemma DefaultKeys(kind: string)
    ensures Keys(DefaultEndpoint(kind)) == Leading(kind)
  {
  }

  // ------------------------------------------------------------------ the settings

  /** Nothing that the user chose: each field empty, or one of the two defaults that a form fills in. */
  ghost predicate HoldsNothing(e: Value) {
    && e.Obj?
    && forall i :: 0 <= i < |e.fields| ==>
         var f := e.fields[i];
         || f.value == Null || f.value == Str("") || f.value == Obj([]) || f.value == Arr([])
         || f == Field("cipher", Str("xchacha20poly1305")) || f == Field("key_id", Str("default"))
  }

  /** `now` is `was` without an encryption that holds nothing. */
  ghost predicate IsWithoutUnset(was: seq<Field>, now: seq<Field>) {
    if Lookup(was, "encryption").Some? && HoldsNothing(Lookup(was, "encryption").value) then
      exists front, e, back :: was == front + [Field("encryption", e)] + back && now == front + back
    else now == was
  }

  lemma {:induction false} RemoveMeaning(fields: seq<Field>, key: string)
    requires HasKey(fields, key)
    ensures exists front, e, back :: fields == front + [Field(key, e)] + back && Remove(fields, key) == front + back
  {
    var first, rest := fields[0], fields[1..];
    assert fields == [first] + rest;
    if first.key == key {
      assert fields == [] + [Field(key, first.value)] + rest && Remove(fields, key) == [] + rest;
    } else {
      RemoveMeaning(rest, key);
      var front, e, back :| rest == front + [Field(key, e)] + back && Remove(rest, key) == front + back;
      assert fields == ([first] + front) + [Field(key, e)] + back;
      assert Remove(fields, key) == ([first] + front) + back;
    }
  }

  lemma DropMeaning(fields: seq<Field>)
    ensures IsWithoutUnset(fields, DropUnset(fields))
  {
    hide Remove;
    var e := Lookup(fields, "encryption");
    if e.Some? {
      assert IsUnsetEncryption(e.value) <==> HoldsNothing(e.value);
      if HoldsNothing(e.value) {
        RemoveMeaning(fields, "encryption");
      }
    }
  }

  /** The endpoint of a field, a reference to nothing if there is none. */
  ghost predicate IsFilled(was: Option<Value>, now: Option<Value>) {
    now == Some(if was.None? || was.value == Null then Obj([Field("ref", Str("")), Field("middlewares", Arr([]))])
                else Normalize(was.value))
  }

  lemma FilledMeaning(v: Option<Value>)
    ensures IsFilled(v, Some(NormalOr(v, REF_DEFAULT)))
  {
    hide Normalize;
    MissingIsOtherwise(v, REF_DEFAULT);
  }

  /** What counts as no value at all for a `metadata_key`. */
  ghost predicate IsFalsy(v: Option<Value>) {
    v.None? || v.value == Null || v.value == Bool(false) || v.value == Str("") || (v.value.Num? && IsZero(v.value.text))
  }

  /** A numeral is zero if all that stands before its exponent is a sign, a point or the digit 0. */
  lemma {:induction false} ZeroMeaning(mantissa: string, exponent: string)
    requires 'e' !in mantissa && 'E' !in mantissa
    requires exponent == "" || exponent[0] == 'e' || exponent[0] == 'E'
    ensures IsZero(mantissa + exponent) <==>
            forall i :: 0 <= i < |mantissa| ==> mantissa[i] == '0' || mantissa[i] == '-' || mantissa[i] == '.'
  {
    if mantissa == "" {
      assert mantissa + exponent == exponent;
    } else {
      assert (mantissa + exponent)[0] == mantissa[0] && (mantissa + exponent)[1..] == mantissa[1..] + exponent;
      ZeroMeaning(mantissa[1..], exponent);
      assert forall i :: 1 <= i < |mantissa| ==> mantissa[i] == mantissa[1..][i - 1];
    }
  }

  /** One predicate of a switch: its fields, with the endpoint it leads to in normal form. */
  ghost predicate IsNormalEntry(was: Value, now: Value) {
    && now.Obj?
    && (var to := if was.Obj? then Lookup(was.fields, "to") else None;
        Lookup(now.fields, "to") == Some(Normalize(if to.Some? then to.value else Null)))
    && match was
       case Obj(fields) =>
         && (forall key :: key != "to" ==> Lookup(now.fields, key) == Lookup(fields, key))
         && Keys(now.fields) == if "to" in Keys(fields) then Keys(fields) else Keys(fields) + ["to"]
       case Arr(items) =>
         && |now.fields| == |items| + 1
         && forall i :: 0 <= i < |items| ==> now.fields[i] == Field(Decimal(i), items[i])
       case _ => |now.fields| == 1
  }

  lemma EntryMeaning(entry: Value)
    ensures IsNormalEntry(entry, NormalEntry(entry))
  {
    hide Normalize, Put, Keys;
    assert Normalize(Null) == HTTP_DEFAULT by { NoObjectIsHttp(Null); }
    match entry
    case Obj(fields) =>
      var to := if HasKey(fields, "to") then Normalize(Lookup(fields, "to").value) else HTTP_DEFAULT;
      forall key ensures Lookup(Put(fields, "to", to), key) == if key == "to" then Some(to) else Lookup(fields, key) {
        PutLookup(fields, "to", to, key);
      }
      PutKeysOnly(fields, "to", to);
      LookupLaw(fields, "to");
    case Arr(items) =>
      var fields := Indexed(items);
      PutLookup(fields, "to", HTTP_DEFAULT, "to");
      forall i | 0 <= i < |fields| ensures fields[i].key != "to" {
        DecimalHasNoLeadingZero(i);
      }
      PutAfter(fields, [], "to", HTTP_DEFAULT);
      assert fields + [] == fields;
    case _ =>
  }

  /** The fields of a switch in normal form, before an encryption that holds nothing is dropped. */
  ghost predicate IsNormalSwitch(was: seq<Field>, now: seq<Field>) {
    && HasDistinctKeys(now) && IsFilled(Lookup(was, "default"), Lookup(now, "default"))
    && (forall key :: key !in ["when", "metadata_key", "cases", "default"] ==> Lookup(now, key) == Lookup(was, key))
    && match Lookup(was, "when")
       case Some(Arr(entries)) =>
         if entries == [] then IsValueSwitch(was, now) else
           && Lookup(now, "metadata_key") == None && Lookup(now, "cases") == None
           && Lookup(now, "when").Some?
           && ArePairwise(entries, Lookup(now, "when").value, (a, b) => IsNormalEntry(a, b))
       case _ => IsValueSwitch(was, now)
  }

  ghost predicate ArePairwise(was: seq<Value>, now: Value, related: (Value, Value) -> bool) {
    now.Arr? && |now.items| == |was| && forall i :: 0 <= i < |was| ==> related(was[i], now.items[i])
  }

  ghost predicate IsValueSwitch(was: seq<Field>, now: seq<Field>) {
    && Lookup(now, "when") == None
    && Lookup(now, "metadata_key") ==
       (if IsFalsy(Lookup(was, "metadata_key")) then Some(Str("type")) else Lookup(was, "metadata_key"))
    && match (Lookup(was, "cases"), Lookup(now, "cases"))
       case (Some(Obj(cases)), Some(Obj(normal))) =>
         && |normal| == |cases|
         && forall i :: 0 <= i < |cases| ==> normal[i] == Field(cases[i].key, Normalize(cases[i].value))
       case (Some(Obj(_)), _) => false
       case (_, given) => given == Some(Obj([]))
  }

  lemma WhenMeaning(entries: seq<Value>)
    ensures ArePairwise(entries, Arr(NormalWhen(entries)), (a, b) => IsNormalEntry(a, b))
  {
    hide IsNormalEntry, NormalEntry, NormalWhen;
    forall i | 0 <= i < |entries| ensures IsNormalEntry(entries[i], NormalWhen(entries)[i]) {
      NormalWhenAt(entries, i);
      EntryMeaning(entries[i]);
    }
  }

  lemma KeyedMeaning(fields: seq<Field>)
    requires HasDistinctKeys(fields)
    ensures Lookup(Keyed(fields), "metadata_key") ==
            if IsFalsy(Lookup(fields, "metadata_key")) then Some(Str("type")) else Lookup(fields, "metadata_key")
  {
    hide Remove, Put, Lookup, HasDistinctKeys, IsZero;
    RemoveLookup(fields, "when", "metadata_key");
    PutLookup(Remove(fields, "when"), "metadata_key", Str("type"), "metadata_key");
  }

  lemma ValueMeaning(fields: seq<Field>)
    requires HasDistinctKeys(fields) && !IsPredicateSwitch(fields)
    ensures IsValueSwitch(fields, Routed(fields))
  {
    hide Keyed, Lookup, HasDistinctKeys, IsFalsy, Put, NormalCases, Normalize, IsTruthy, Routed, IsPredicateList;
    ValueRouted(fields);
    RoutedKey(fields);
    KeyedMeaning(fields);
    match Lookup(fields, "cases")
    case Some(Obj(cases)) =>
      forall i | 0 <= i < |cases| ensures NormalCases(cases)[i] == Field(cases[i].key, Normalize(cases[i].value)) {
        NormalCasesAt(cases, i);
      }
    case _ =>
  }

  lemma RoutedKey(fields: seq<Field>)
    requires !IsPredicateSwitch(fields)
    ensures Lookup(Routed(fields), "metadata_key") == Lookup(Keyed(fields), "metadata_key")
  {
    hide Keyed, Lookup, Put, CasesOf, IsPredicateList;
    PutLookup(Keyed(fields), "cases", Obj(CasesOf(fields)), "metadata_key");
  }

  /** The fields of a switch before its default is filled in. */
  ghost predicate IsRouted(was: seq<Field>, now: seq<Field>) {
    && (forall key :: key !in ["when", "metadata_key", "cases"] ==> Lookup(now, key) == Lookup(was, key))
    && if IsPredicateSwitch(was) then
         && Lookup(now, "metadata_key") == None && Lookup(now, "cases") == None && Lookup(now, "when").Some?
         && ArePairwise(Lookup(was, "when").value.items, Lookup(now, "when").value, (a, b) => IsNormalEntry(a, b))
       else IsValueSwitch(was, now)
  }

  lemma RoutedMeaning(fields: seq<Field>)
    requires HasDistinctKeys(fields)
    ensures HasDistinctKeys(Routed(fields)) && IsRouted(fields, Routed(fields))
  {
    hide Lookup, HasDistinctKeys, Routed, NormalWhen, IsValueSwitch, ArePairwise, IsTruthy;
    if IsPredicateSwitch(fields) {
      PredicateRouted(fields);
      WhenMeaning(Lookup(fields, "when").value.items);
    } else {
      ValueRouted(fields);
      ValueMeaning(fields);
    }
  }

  lemma WithDefault(was: seq<Field>, routed: seq<Field>, now: seq<Field>)
    requires IsRouted(was, routed) && HasDistinctKeys(now) && IsFilled(Lookup(was, "default"), Lookup(now, "default"))
    requires forall key :: key != "default" ==> Lookup(routed, key) == Lookup(now, key)
    ensures IsNormalSwitch(was, now)
  {
    hide Lookup, HasDistinctKeys, IsValueSwitch, ArePairwise, IsFilled;
    SameValueSwitch(was, routed, now);
    assert Lookup(routed, "when") == Lookup(now, "when") && Lookup(routed, "cases") == Lookup(now, "cases");
    assert Lookup(routed, "metadata_key") == Lookup(now, "metadata_key");
  }

  lemma SwitchMeaning(fields: seq<Field>)
    requires HasDistinctKeys(fields)
    ensures IsNormalSwitch(fields, NormalSwitch(fields))
  {
    hide Lookup, HasDistinctKeys, Put, NormalSwitch, Routed, NormalOr, IsRouted, IsNormalSwitch, IsFilled;
    NormalSwitchParts(fields);
    RoutedMeaning(fields);
    FilledMeaning(Lookup(fields, "default"));
    var routed, last := Routed(fields), DefaultOf(fields);
    PutKeys(routed, "default", last);
    forall key ensures Lookup(Put(routed, "default", last), key) == if key == "default" then Some(last) else Lookup(routed, key) {
      PutLookup(routed, "default", last, key);
    }
    WithDefault(fields, routed, NormalSwitch(fields));
  }

  lemma SameValueSwitch(was: seq<Field>, a: seq<Field>, b: seq<Field>)
    requires forall key :: key != "default" ==> Lookup(a, key) == Lookup(b, key)
    ensures IsValueSwitch(was, a) ==> IsValueSwitch(was, b)
  {
    hide Lookup, Normalize, IsFalsy;
    assert Lookup(a, "when") == Lookup(b, "when") && Lookup(a, "cases") == Lookup(b, "cases");
    assert Lookup(a, "metadata_key") == Lookup(b, "metadata_key");
  }

  /** The settings `now` that the settings `was` of an endpoint of this kind come to. */
  ghost predicate IsNormalConfig(kind: string, was: Value, now: Value) {
    if kind == "ref" || kind == "static" then
      now == match was
             case Str(_) => was
             case Obj(fields) => (match Lookup(fields, kind) case Some(Str(s)) => Str(s) case _ => Str(""))
             case _ => Str("")
    else if kind == "fanout" then
      if was.Arr? then ArePairwise(was.items, now, (a, b) => b == Normalize(a))
      else now == Arr([Obj([Field("ref", Str(""))])])
    else if !was.Obj? then now == was
    else
      && now.Obj?
      && if kind == "switch" then exists s :: IsNormalSwitch(was.fields, s) && IsWithoutUnset(s, now.fields)
         else IsWithoutUnset(was.fields, now.fields)
  }

  /** What becomes of the settings under the type of an endpoint; an endpoint without any gets empty ones. */
  lemma SettingsMeaning(v: Value, data: seq<Field>, kind: string)
    requires IsRecordOf(data, v) && IsTypeOf(kind, data) && IsJson(v)
    ensures var now := Lookup(Normalize(v).fields, kind);
            && now.Some?
            && match Lookup(data, kind)
               case Some(was) => IsNormalConfig(kind, was, now.value)
               case None => now.value == Obj([])
  {
    hide NormalRecord, Lookup, IsNormalConfig, NormalConfig, EndpointType, MiddlewaresOf;
    TypeMeaning(data, kind);
    NormalizeRecord(v, data);
    UnwrapIsJson(v);
    NormalRecordLaw(data);
    if HasKey(data, kind) {
      JsonParts(data, kind);
      ConfigMeaning(kind, Lookup(data, kind).value);
    }
  }

  lemma ConfigMeaning(kind: string, config: Value)
    requires IsJson(config)
    ensures IsNormalConfig(kind, config, NormalConfig(kind, config))
  {
    hide NormalSwitch, DropUnset, IsNormalSwitch, IsWithoutUnset, Normalize, NormalItems, Lookup;
    if kind == "switch" && config.Obj? {
      SwitchMeaning(config.fields);
      DropMeaning(NormalSwitch(config.fields));
    } else if kind == "fanout" && config.Arr? {
      forall i | 0 <= i < |config.items| ensures NormalItems(config.items)[i] == Normalize(config.items[i]) {
        NormalItemsAt(config.items, i);
      }
    } else if config.Obj? {
      DropMeaning(config.fields);
    }
  }

  /** The settings a new endpoint begins with are those that normalising would fill in, down to the target of a switch. */
  lemma NewSettingsAreNormal(kind: string)
    ensures var config := DefaultEndpoint(kind)[0].value;
            if kind == "switch" then
              && config.Obj? && |config.fields| == 3 && IsValueSwitch(config.fields, config.fields)
              && Lookup(config.fields, "cases") == Some(Obj([]))
              && Lookup(config.fields, "metadata_key") == Some(Str("type"))
              && Lookup(config.fields, "default") == Some(Obj([Field("ref", Str(""))]))
            else if kind == "fanout" then IsNormalConfig(kind, Null, config)
            else IsNormalConfig(kind, config, config) && config in {Str(""), Obj([])}
  {
    var config := DefaultEndpoint(kind)[0].value;
    if kind == "switch" {
      var fields := config.fields;
      assert Keys(fields) == ["metadata_key", "cases", "default"];
      LookupLaw(fields, "when");
      LookupLaw(fields, "metadata_key");
      LookupLaw(fields, "cases");
      LookupLaw(fields, "default");
      assert fields[0].key == "metadata_key" && fields[1].key == "cases" && fields[2].key == "default";
      hide Lookup, Keys;
    }
  }

  // ------------------------------------------------------------------ the middlewares

  /** A middleware is as it was, but for the endpoint that takes dead letters. */
  ghost predicate IsNormalMiddleware(was: seq<Field>, now: seq<Field>) {
    match Lookup(was, "dlq")
    case Some(Obj(dlq)) =>
      && Keys(now) == Keys(was) && (forall key :: key != "dlq" ==> Lookup(now, key) == Lookup(was, key))
      && Lookup(now, "dlq").Some? && Lookup(now, "dlq").value.Obj?
      && var inner := Lookup(now, "dlq").value.fields;
         && IsFilled(Lookup(dlq, "endpoint"), Lookup(inner, "endpoint"))
         && (forall key :: key != "endpoint" ==> Lookup(inner, key) == Lookup(dlq, key))
         && Keys(inner) == if "endpoint" in Keys(dlq) then Keys(dlq) else Keys(dlq) + ["endpoint"]
    case _ => now == was
  }

  lemma MiddlewareMeaning(fields: seq<Field>)
    ensures IsNormalMiddleware(fields, NormalMiddleware(fields))
  {
    hide Keys, NormalOr, IsFilled, Put, Lookup;
    match Lookup(fields, "dlq")
    case Some(Obj(dlq)) =>
      var endpoint := NormalOr(Lookup(dlq, "endpoint"), REF_DEFAULT);
      var inner := Put(dlq, "endpoint", endpoint);
      FilledMeaning(Lookup(dlq, "endpoint"));
      LookupLaw(dlq, "endpoint");
      PutKeysOnly(dlq, "endpoint", endpoint);
      PutKeysOnly(fields, "dlq", Obj(inner));
      forall key ensures Lookup(inner, key) == if key == "endpoint" then Some(endpoint) else Lookup(dlq, key) {
        PutLookup(dlq, "endpoint", endpoint, key);
      }
      forall key
        ensures Lookup(Put(fields, "dlq", Obj(inner)), key) == if key == "dlq" then Some(Obj(inner)) else Lookup(fields, key)
      {
        PutLookup(fields, "dlq", Obj(inner), key);
      }
    case _ =>
  }

  /** The middlewares that are objects, in their order, each in normal form. */
  ghost predicate AreNormalMiddlewares(was: seq<Value>, now: seq<Value>) {
    if was == [] then now == []
    else if !was[0].Obj? then AreNormalMiddlewares(was[1..], now)
    else
      && now != [] && now[0].Obj? && IsNormalMiddleware(was[0].fields, now[0].fields)
      && AreNormalMiddlewares(was[1..], now[1..])
  }

  lemma {:induction false} MiddlewareListMeaning(items: seq<Value>)
    ensures AreNormalMiddlewares(items, NormalMiddlewares(items))
  {
    hide NormalMiddleware, IsNormalMiddleware;
    if items != [] {
      MiddlewareListMeaning(items[1..]);
      if items[0].Obj? {
        MiddlewareMeaning(items[0].fields);
        assert NormalMiddlewares(items)[1..] == NormalMiddlewares(items[1..]);
      }
    }
  }

  lemma MiddlewaresMeaning(v: Value, data: seq<Field>)
    requires IsRecordOf(data, v) && HasDistinctKeys(data)
    ensures var now := Lookup(Normalize(v).fields, "middlewares");
            && now.Some? && now.value.Arr?
            && match Lookup(data, "middlewares")
               case Some(Arr(items)) => AreNormalMiddlewares(items, now.value.items)
               case _ => now.value.items == []
  {
    hide NormalRecord, Lookup, AreNormalMiddlewares, NormalMiddlewares, EndpointType, ConfigOf;
    NormalizeRecord(v, data);
    NormalRecordLaw(data);
    match Lookup(data, "middlewares")
    case Some(Arr(items)) => MiddlewareListMeaning(items);
    case _ =>
  }
}
