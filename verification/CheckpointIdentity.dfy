/** The canonical form of a copy's definition, from which its checkpoint identity is hashed. */
module CheckpointIdentity {
  import opened Options
  import opened Json

  // ------------------------------------------------------------------ which strings are credentials

  function Lower(s: string): (r: string)
    ensures |r| == |s|
  {
    seq(|s|, i requires 0 <= i < |s| => if 'A' <= s[i] <= 'Z' then (s[i] as int + 32) as char else s[i])
  }

  predicate Contains(s: string, part: string) {
    exists i :: 0 <= i <= |s| && part <= s[i..]
  }

  const NEEDLES := ["password", "passphrase", "secret", "token", "credential"]

  /** Whether the field `key`, in the field `parent`, holds a credential. */
  predicate IsCredential(key: Option<string>, parent: Option<string>) {
    key.Some? &&
      var name := Lower(key.value);
      || (exists n :: 0 <= n < |NEEDLES| && Contains(name, NEEDLES[n]))
      || name in {"authorization", "cookie", "access_key"}
      || (name == "key" && parent == Some("encryption"))
      || parent == Some("decrypt_keys")
  }

  // ------------------------------------------------------------------ the two passes

  /** Takes the password out of a URL, and leaves any other string alone. */
  type DropPassword = string -> string

  ghost predicate IsDropPassword(drop: DropPassword) {
    forall s :: drop(drop(s)) == drop(s)
  }

  function RedactText(text: string, key: Option<string>, parent: Option<string>, drop: DropPassword): string {
    if IsCredential(key, parent) then "[redacted]" else drop(text)
  }

  function Redact(v: Value, key: Option<string>, parent: Option<string>, drop: DropPassword): Value
    decreases v
  {
    match v
    case Obj(fields) =>
      Obj(seq(|fields|, i requires 0 <= i < |fields| =>
        Field(fields[i].key, Redact(fields[i].value, Some(fields[i].key), key, drop))))
    case Arr(items) => Arr(seq(|items|, i requires 0 <= i < |items| => Redact(items[i], key, parent, drop)))
    case Str(s) => Str(RedactText(s, key, parent, drop))
    case _ => v
  }

  predicate AllNull(fields: seq<Field>) {
    forall i :: 0 <= i < |fields| ==> fields[i].value.Null?
  }

  function NonNull(fields: seq<Field>): (r: seq<Field>)
    ensures forall f :: f in r <==> f in fields && !f.value.Null?
    ensures |r| <= |fields|
  {
    if fields == [] then []
    else if fields[0].value.Null? then NonNull(fields[1..])
    else [fields[0]] + NonNull(fields[1..])
  }

  /** The fields kept at a depth: below the endpoints, null ones go unless all are null. */
  function Kept(fields: seq<Field>, depth: nat): (r: seq<Field>)
    ensures forall f :: f in r ==> f in fields
  {
    if depth >= 2 && !AllNull(fields) then NonNull(fields) else fields
  }

  function Strip(v: Value, depth: nat): Value
    decreases v
  {
    match v
    case Obj(fields) =>
      var kept := Kept(fields, depth);
      Obj(seq(|kept|, i requires 0 <= i < |kept| =>
        assert kept[i] in fields; Field(kept[i].key, Strip(kept[i].value, depth + 1))))
    case Arr(items) => Arr(seq(|items|, i requires 0 <= i < |items| => Strip(items[i], depth)))
    case _ => v
  }

  /** The canonical form of a part of a definition, found at this depth under this key and parent. */
  function CanonicalAt(v: Value, depth: nat, key: Option<string>, parent: Option<string>, drop: DropPassword): Value {
    Strip(Redact(v, key, parent, drop), depth)
  }

  function Definition(source: Value, destination: Value, filter: Option<string>): Value {
    Obj([Field("source", source), Field("destination", destination),
         Field("filter", if filter.Some? then Str(filter.value) else Null)])
  }

  function Canonical(v: Value, drop: DropPassword): Value {
    CanonicalAt(v, 0, None, None, drop)
  }

  function RedactFields(fields: seq<Field>, key: Option<string>, drop: DropPassword): (r: seq<Field>)
    ensures |r| == |fields|
  {
    seq(|fields|, i requires 0 <= i < |fields| =>
      Field(fields[i].key, Redact(fields[i].value, Some(fields[i].key), key, drop)))
  }

  function StripFields(fields: seq<Field>, depth: nat): (r: seq<Field>)
    ensures |r| == |fields|
  {
    seq(|fields|, i requires 0 <= i < |fields| => Field(fields[i].key, Strip(fields[i].value, depth)))
  }

  lemma RedactObj(fields: seq<Field>, key: Option<string>, parent: Option<string>, drop: DropPassword)
    ensures Redact(Obj(fields), key, parent, drop) == Obj(RedactFields(fields, key, drop))
  {
  }

  lemma StripObj(fields: seq<Field>, depth: nat)
    ensures Strip(Obj(fields), depth) == Obj(StripFields(Kept(fields, depth), depth + 1))
  {
  }

  // ------------------------------------------------------------------ the passes as they run

  method RedactCredentials(v: Value, key: Option<string>, parent: Option<string>, drop: DropPassword) returns (r: Value)
    ensures r == Redact(v, key, parent, drop)
    decreases v
  {
    match v
    case Obj(fields) =>
      var done := [];
      for i := 0 to |fields|
        invariant |done| == i
        invariant forall j :: 0 <= j < i ==>
                    done[j] == Field(fields[j].key, Redact(fields[j].value, Some(fields[j].key), key, drop))
      {
        var child := RedactCredentials(fields[i].value, Some(fields[i].key), key, drop);
        done := done + [Field(fields[i].key, child)];
      }
      assert Redact(v, key, parent, drop).fields == done;
      r := Obj(done);
    case Arr(items) =>
      var done := [];
      for i := 0 to |items|
        invariant |done| == i
        invariant forall j :: 0 <= j < i ==> done[j] == Redact(items[j], key, parent, drop)
      {
        var item := RedactCredentials(items[i], key, parent, drop);
        done := done + [item];
      }
      assert Redact(v, key, parent, drop).items == done;
      r := Arr(done);
    case Str(s) =>
      if IsCredential(key, parent) {
        r := Str("[redacted]");
      } else {
        r := Str(drop(s));
      }
    case _ =>
      r := v;
  }

  method StripAbsentFields(v: Value, depth: nat) returns (r: Value)
    ensures r == Strip(v, depth)
    decreases v, 1
  {
    hide StripFields;
    match v
    case Obj(fields) =>
      var kept := fields;
      if depth >= 2 && exists i :: 0 <= i < |fields| && !fields[i].value.Null? {
        kept := NonNull(fields);
      }
      StripObj(fields, depth);
      var done := StripEach(v, kept, depth + 1);
      r := Obj(done);
    case Arr(items) =>
      var done := [];
      for i := 0 to |items|
        invariant |done| == i
        invariant forall j :: 0 <= j < i ==> done[j] == Strip(items[j], depth)
      {
        var item := StripAbsentFields(items[i], depth);
        done := done + [item];
      }
      assert Strip(v, depth).items == done;
      r := Arr(done);
    case _ =>
      r := v;
  }

  /** The loop over the fields that `of` keeps. */
  method StripEach(of: Value, kept: seq<Field>, depth: nat) returns (done: seq<Field>)
    requires of.Obj? && forall f :: f in kept ==> f in of.fields
    ensures done == StripFields(kept, depth)
    decreases of, 0
  {
    done := [];
    for i := 0 to |kept|
      invariant |done| == i && done == StripFields(kept, depth)[..i]
    {
      assert kept[i] in of.fields;
      var child := StripAbsentFields(kept[i].value, depth);
      done := done + [Field(kept[i].key, child)];
    }
  }

  // ------------------------------------------------------------------ idempotence

  lemma {:induction false} NonNullIsIdempotent(fields: seq<Field>)
    requires forall i :: 0 <= i < |fields| ==> !fields[i].value.Null?
    ensures NonNull(fields) == fields
  {
    if fields != [] {
      NonNullIsIdempotent(fields[1..]);
    }
  }

  lemma RedactFirst(f: Field, rest: seq<Field>, key: Option<string>, drop: DropPassword)
    ensures var first := Field(f.key, Redact(f.value, Some(f.key), key, drop));
            && RedactFields([f] + rest, key, drop) == [first] + RedactFields(rest, key, drop)
            && (first.value.Null? <==> f.value.Null?)
  {
  }

  lemma NonNullFirst(f: Field, rest: seq<Field>)
    ensures NonNull([f] + rest) == if f.value.Null? then NonNull(rest) else [f] + NonNull(rest)
  {
    assert ([f] + rest)[1..] == rest;
  }

  lemma {:induction false} NonNullOfRedacted(fields: seq<Field>, key: Option<string>, drop: DropPassword)
    ensures NonNull(RedactFields(fields, key, drop)) == RedactFields(NonNull(fields), key, drop)
  {
    if fields != [] {
      hide Redact, RedactFields, NonNull;
      var f, rest := fields[0], fields[1..];
      assert fields == [f] + rest;
      NonNullOfRedacted(rest, key, drop);
      RedactFirst(f, rest, key, drop);
      RedactFirst(f, NonNull(rest), key, drop);
      NonNullFirst(f, rest);
      NonNullFirst(Field(f.key, Redact(f.value, Some(f.key), key, drop)), RedactFields(rest, key, drop));
    }
  }

  lemma RedactKeepsNull(fields: seq<Field>, key: Option<string>, drop: DropPassword)
    ensures AllNull(RedactFields(fields, key, drop)) <==> AllNull(fields)
  {
    var redacted := RedactFields(fields, key, drop);
    forall i | 0 <= i < |fields| ensures redacted[i].value.Null? <==> fields[i].value.Null? {
    }
  }

  lemma KeptOfRedacted(fields: seq<Field>, depth: nat, key: Option<string>, drop: DropPassword)
    ensures Kept(RedactFields(fields, key, drop), depth) == RedactFields(Kept(fields, depth), key, drop)
  {
    hide RedactFields, AllNull, NonNull;
    NonNullOfRedacted(fields, key, drop);
    RedactKeepsNull(fields, key, drop);
  }

  /** The two passes do not interfere. */
  lemma {:induction false} PassesCommute(v: Value, depth: nat, key: Option<string>, parent: Option<string>, drop: DropPassword)
    ensures Strip(Redact(v, key, parent, drop), depth) == Redact(Strip(v, depth), key, parent, drop)
    decreases v, 1
  {
    match v
    case Obj(fields) =>
      hide Strip, Redact, StripFields, RedactFields, Kept;
      var kept := Kept(fields, depth);
      RedactObj(fields, key, parent, drop);
      StripObj(RedactFields(fields, key, drop), depth);
      KeptOfRedacted(fields, depth, key, drop);
      StripObj(fields, depth);
      RedactObj(StripFields(kept, depth + 1), key, parent, drop);
      FieldsCommute(v, kept, depth + 1, key, drop);
    case Arr(items) =>
      forall i | 0 <= i < |items|
        ensures Strip(Redact(items[i], key, parent, drop), depth) == Redact(Strip(items[i], depth), key, parent, drop)
      {
        PassesCommute(items[i], depth, key, parent, drop);
      }
    case _ =>
  }

  lemma {:induction false} FieldsCommute(of: Value, kept: seq<Field>, depth: nat, key: Option<string>, drop: DropPassword)
    requires of.Obj? && forall f :: f in kept ==> f in of.fields
    ensures StripFields(RedactFields(kept, key, drop), depth) == RedactFields(StripFields(kept, depth), key, drop)
    decreases of, 0
  {
    var left, right := StripFields(RedactFields(kept, key, drop), depth), RedactFields(StripFields(kept, depth), key, drop);
    forall i | 0 <= i < |kept| ensures left[i] == right[i] {
      assert kept[i] in of.fields;
      PassesCommute(kept[i].value, depth, Some(kept[i].key), key, drop);
    }
    hide Strip, Redact;
    assert left == right;
  }

  lemma {:induction false} RedactIsIdempotent(v: Value, key: Option<string>, parent: Option<string>, drop: DropPassword)
    requires IsDropPassword(drop)
    ensures Redact(Redact(v, key, parent, drop), key, parent, drop) == Redact(v, key, parent, drop)
    decreases v
  {
    match v
    case Obj(fields) =>
      var once := RedactFields(fields, key, drop);
      RedactObj(fields, key, parent, drop);
      RedactObj(once, key, parent, drop);
      forall i | 0 <= i < |fields| ensures RedactFields(once, key, drop)[i] == once[i] {
        RedactIsIdempotent(fields[i].value, Some(fields[i].key), key, drop);
      }
      assert RedactFields(once, key, drop) == once;
    case Arr(items) =>
      forall i | 0 <= i < |items|
        ensures Redact(Redact(items[i], key, parent, drop), key, parent, drop) == Redact(items[i], key, parent, drop)
      {
        RedactIsIdempotent(items[i], key, parent, drop);
      }
    case _ =>
  }

  lemma KeptIsStripped(fields: seq<Field>, depth: nat)
    ensures Kept(StripFields(Kept(fields, depth), depth + 1), depth) == StripFields(Kept(fields, depth), depth + 1)
  {
    var kept := Kept(fields, depth);
    var once := StripFields(kept, depth + 1);
    assert forall i :: 0 <= i < |kept| ==> (once[i].value.Null? <==> kept[i].value.Null?);
    if depth >= 2 && !AllNull(fields) {
      forall i | 0 <= i < |once| ensures !once[i].value.Null? {
        assert kept[i] in kept;
      }
      NonNullIsIdempotent(once);
    }
  }

  lemma {:induction false} StripIsIdempotent(v: Value, depth: nat)
    ensures Strip(Strip(v, depth), depth) == Strip(v, depth)
    decreases v
  {
    match v
    case Obj(fields) =>
      var kept := Kept(fields, depth);
      var once := StripFields(kept, depth + 1);
      StripObj(fields, depth);
      StripObj(once, depth);
      KeptIsStripped(fields, depth);
      forall i | 0 <= i < |kept| ensures StripFields(once, depth + 1)[i] == once[i] {
        assert kept[i] in fields;
        StripIsIdempotent(kept[i].value, depth + 1);
      }
      assert StripFields(once, depth + 1) == once;
    case Arr(items) =>
      forall i | 0 <= i < |items| ensures Strip(Strip(items[i], depth), depth) == Strip(items[i], depth) {
        StripIsIdempotent(items[i], depth);
      }
    case _ =>
  }

  lemma CanonicalIsIdempotent(v: Value, depth: nat, key: Option<string>, parent: Option<string>, drop: DropPassword)
    requires IsDropPassword(drop)
    ensures CanonicalAt(CanonicalAt(v, depth, key, parent, drop), depth, key, parent, drop) ==
            CanonicalAt(v, depth, key, parent, drop)
  {
    var redacted := Redact(v, key, parent, drop);
    PassesCommute(redacted, depth, key, parent, drop);
    RedactIsIdempotent(v, key, parent, drop);
    StripIsIdempotent(redacted, depth);
  }

  // ------------------------------------------------------------------ one place in a definition

  /** A definition with one place left open, the outermost step first. */
  datatype Context =
    | Hole
    | InField(before: seq<Field>, key: string, inner: Context, after: seq<Field>)
    | InArray(items: seq<Value>, inner: Context, others: seq<Value>)

  function Plug(c: Context, v: Value): Value {
    match c
    case Hole => v
    case InField(before, key, inner, after) => Obj(before + [Field(key, Plug(inner, v))] + after)
    case InArray(items, inner, others) => Arr(items + [Plug(inner, v)] + others)
  }

  /** How many objects are around the place; arrays do not count. */
  function DepthAt(c: Context, depth: nat): nat {
    match c
    case Hole => depth
    case InField(_, _, inner, _) => DepthAt(inner, depth + 1)
    case InArray(_, inner, _) => DepthAt(inner, depth)
  }

  function KeyAt(c: Context, key: Option<string>): Option<string> {
    match c
    case Hole => key
    case InField(_, own, inner, _) => KeyAt(inner, Some(own))
    case InArray(_, inner, _) => KeyAt(inner, key)
  }

  function ParentAt(c: Context, key: Option<string>, parent: Option<string>): Option<string> {
    match c
    case Hole => parent
    case InField(_, own, inner, _) => ParentAt(inner, Some(own), key)
    case InArray(_, inner, _) => ParentAt(inner, key, parent)
  }

  lemma {:induction false} NonNullOfConcat(a: seq<Field>, c: seq<Field>)
    ensures NonNull(a + c) == NonNull(a) + NonNull(c)
  {
    if a == [] {
      assert a + c == c;
    } else {
      assert (a + c)[0] == a[0] && (a + c)[1..] == a[1..] + c;
      NonNullOfConcat(a[1..], c);
      if !a[0].value.Null? {
        assert [a[0]] + (NonNull(a[1..]) + NonNull(c)) == ([a[0]] + NonNull(a[1..])) + NonNull(c);
      }
    }
  }

  lemma KeptAround(before: seq<Field>, f: Field, after: seq<Field>, depth: nat)
    requires !f.value.Null?
    ensures var left, right := if depth >= 2 then NonNull(before) else before, if depth >= 2 then NonNull(after) else after;
            Kept(before + [f] + after, depth) == left + [f] + right
  {
    var all := before + [f] + after;
    assert all[|before|] == f;
    NonNullOfConcat(before + [f], after);
    NonNullOfConcat(before, [f]);
    assert [f][1..] == [] && NonNull([f]) == [f];
  }

  lemma CanonicalOfFields(a: seq<Field>, f: Field, c: seq<Field>, key: Option<string>, drop: DropPassword, depth: nat)
    ensures StripFields(RedactFields(a + [f] + c, key, drop), depth) ==
            StripFields(RedactFields(a, key, drop), depth) +
            [Field(f.key, Strip(Redact(f.value, Some(f.key), key, drop), depth))] +
            StripFields(RedactFields(c, key, drop), depth)
  {
    hide Strip, Redact;
    assert (a + [f] + c)[|a|] == f;
  }

  lemma CanonicalObj(fields: seq<Field>, depth: nat, key: Option<string>, parent: Option<string>, drop: DropPassword)
    ensures CanonicalAt(Obj(fields), depth, key, parent, drop) ==
            Obj(StripFields(RedactFields(Kept(fields, depth), key, drop), depth + 1))
  {
    hide Strip, Redact, Kept;
    RedactObj(fields, key, parent, drop);
    StripObj(RedactFields(fields, key, drop), depth);
    KeptOfRedacted(fields, depth, key, drop);
  }

  /** One field of an object matters to the canonical form through its own canonical form alone. */
  lemma FieldInContext(before: seq<Field>, name: string, v: Value, w: Value, after: seq<Field>,
                       depth: nat, key: Option<string>, parent: Option<string>, drop: DropPassword)
    requires !v.Null? && !w.Null?
    ensures CanonicalAt(Obj(before + [Field(name, v)] + after), depth, key, parent, drop) ==
            CanonicalAt(Obj(before + [Field(name, w)] + after), depth, key, parent, drop) <==>
            CanonicalAt(v, depth + 1, Some(name), key, drop) == CanonicalAt(w, depth + 1, Some(name), key, drop)
  {
    hide Kept, StripFields, RedactFields, Strip, Redact;
    var f, g := Field(name, v), Field(name, w);
    var left, right := if depth >= 2 then NonNull(before) else before, if depth >= 2 then NonNull(after) else after;
    CanonicalObj(before + [f] + after, depth, key, parent, drop);
    CanonicalObj(before + [g] + after, depth, key, parent, drop);
    KeptAround(before, f, after, depth);
    KeptAround(before, g, after, depth);
    CanonicalOfFields(left, f, right, key, drop, depth + 1);
    CanonicalOfFields(left, g, right, key, drop, depth + 1);
    var l, r := StripFields(RedactFields(left, key, drop), depth + 1), StripFields(RedactFields(right, key, drop), depth + 1);
    Between(l, Field(name, CanonicalAt(v, depth + 1, Some(name), key, drop)),
            Field(name, CanonicalAt(w, depth + 1, Some(name), key, drop)), r);
  }

  lemma Between<T>(a: seq<T>, x: T, y: T, c: seq<T>)
    ensures a + [x] + c == a + [y] + c <==> x == y
  {
    assert (a + [x] + c)[|a|] == x && (a + [y] + c)[|a|] == y;
  }

  function CanonicalItems(items: seq<Value>, depth: nat, key: Option<string>, parent: Option<string>,
                          drop: DropPassword): (r: seq<Value>)
    ensures |r| == |items|
  {
    seq(|items|, i requires 0 <= i < |items| => CanonicalAt(items[i], depth, key, parent, drop))
  }

  lemma CanonicalArr(items: seq<Value>, depth: nat, key: Option<string>, parent: Option<string>, drop: DropPassword)
    ensures CanonicalAt(Arr(items), depth, key, parent, drop) == Arr(CanonicalItems(items, depth, key, parent, drop))
  {
  }

  lemma ItemInContext(items: seq<Value>, v: Value, w: Value, others: seq<Value>,
                      depth: nat, key: Option<string>, parent: Option<string>, drop: DropPassword)
    ensures CanonicalAt(Arr(items + [v] + others), depth, key, parent, drop) ==
            CanonicalAt(Arr(items + [w] + others), depth, key, parent, drop) <==>
            CanonicalAt(v, depth, key, parent, drop) == CanonicalAt(w, depth, key, parent, drop)
  {
    hide CanonicalAt;
    CanonicalArr(items + [v] + others, depth, key, parent, drop);
    CanonicalArr(items + [w] + others, depth, key, parent, drop);
    ItemsAround(items, v, others, depth, key, parent, drop);
    ItemsAround(items, w, others, depth, key, parent, drop);
    Between(CanonicalItems(items, depth, key, parent, drop), CanonicalAt(v, depth, key, parent, drop),
            CanonicalAt(w, depth, key, parent, drop), CanonicalItems(others, depth, key, parent, drop));
  }

  lemma ItemsAround(items: seq<Value>, v: Value, others: seq<Value>,
                    depth: nat, key: Option<string>, parent: Option<string>, drop: DropPassword)
    ensures CanonicalItems(items + [v] + others, depth, key, parent, drop) ==
            CanonicalItems(items, depth, key, parent, drop) + [CanonicalAt(v, depth, key, parent, drop)] +
            CanonicalItems(others, depth, key, parent, drop)
  {
    hide CanonicalAt;
    assert (items + [v] + others)[|items|] == v;
  }

  /**
   Two parts in the same place give the same canonical definition exactly when they have the same
   canonical form at that depth, under that key and parent.
   */
  lemma {:induction false} CanonicalInContext(c: Context, v: Value, w: Value, depth: nat, key: Option<string>,
                                              parent: Option<string>, drop: DropPassword)
    requires !v.Null? && !w.Null?
    ensures CanonicalAt(Plug(c, v), depth, key, parent, drop) == CanonicalAt(Plug(c, w), depth, key, parent, drop) <==>
            CanonicalAt(v, DepthAt(c, depth), KeyAt(c, key), ParentAt(c, key, parent), drop) ==
            CanonicalAt(w, DepthAt(c, depth), KeyAt(c, key), ParentAt(c, key, parent), drop)
    decreases c
  {
    hide CanonicalAt;
    match c
    case Hole =>
    case InField(before, name, inner, after) =>
      FieldInContext(before, name, Plug(inner, v), Plug(inner, w), after, depth, key, parent, drop);
      CanonicalInContext(inner, v, w, depth + 1, Some(name), key, drop);
    case InArray(items, inner, others) =>
      ItemInContext(items, Plug(inner, v), Plug(inner, w), others, depth, key, parent, drop);
      CanonicalInContext(inner, v, w, depth, key, parent, drop);
  }

  // ------------------------------------------------------------------ what moves the identity

  lemma KeptWithNull(before: seq<Field>, name: string, after: seq<Field>, depth: nat)
    ensures var with, without := Kept(before + [Field(name, Null)] + after, depth), Kept(before + after, depth);
            if depth >= 2 && !AllNull(before + after) then with == without else |with| == |without| + 1
  {
    var with, without := before + [Field(name, Null)] + after, before + after;
    assert AllNull(with) <==> AllNull(without) by {
      assert forall i :: 0 <= i < |before| ==> with[i] == without[i];
      assert forall i :: |before| <= i < |without| ==> with[i + 1] == without[i];
      assert forall i :: |before| < i < |with| ==> with[i] == without[i - 1];
    }
    hide AllNull;
    NonNullOfConcat(before + [Field(name, Null)], after);
    NonNullOfConcat(before, [Field(name, Null)]);
    NonNullOfConcat(before, after);
    assert [Field(name, Null)][1..] == [];
    assert NonNull(before) + [] == NonNull(before);
  }

  lemma NullFieldAt(before: seq<Field>, name: string, after: seq<Field>, depth: nat, key: Option<string>,
                    parent: Option<string>, drop: DropPassword)
    ensures CanonicalAt(Obj(before + [Field(name, Null)] + after), depth, key, parent, drop) ==
            CanonicalAt(Obj(before + after), depth, key, parent, drop) <==>
            depth >= 2 && !AllNull(before + after)
  {
    hide StripFields, RedactFields, Kept, AllNull, CanonicalAt;
    KeptWithNull(before, name, after, depth);
    CanonicalObj(before + [Field(name, Null)] + after, depth, key, parent, drop);
    CanonicalObj(before + after, depth, key, parent, drop);
  }

  /**
   A field that a new release adds with the value null changes nothing exactly when its object is at
   depth two or more and has a value that is not null.
   */
  lemma NullFieldIsAbsent(c: Context, before: seq<Field>, name: string, after: seq<Field>, drop: DropPassword)
    ensures Canonical(Plug(c, Obj(before + [Field(name, Null)] + after)), drop) ==
            Canonical(Plug(c, Obj(before + after)), drop) <==>
            DepthAt(c, 0) >= 2 && !AllNull(before + after)
  {
    hide CanonicalAt;
    CanonicalInContext(c, Obj(before + [Field(name, Null)] + after), Obj(before + after), 0, None, None, drop);
    NullFieldAt(before, name, after, DepthAt(c, 0), KeyAt(c, None), ParentAt(c, None, None), drop);
  }

  /** Two texts in one place are told apart unless it holds a credential or they differ in a URL password. */
  lemma TextChangesIdentity(c: Context, s: string, t: string, drop: DropPassword)
    ensures Canonical(Plug(c, Str(s)), drop) == Canonical(Plug(c, Str(t)), drop) <==>
            IsCredential(KeyAt(c, None), ParentAt(c, None, None)) || drop(s) == drop(t)
  {
    CanonicalInContext(c, Str(s), Str(t), 0, None, None, drop);
  }

  /** The filter of a copy is part of its identity. */
  lemma FilterChangesIdentity(source: Value, destination: Value, f: Option<string>, g: Option<string>, drop: DropPassword)
    ensures Canonical(Definition(source, destination, f), drop) == Canonical(Definition(source, destination, g), drop) <==>
            (f.Some? <==> g.Some?) && (f.Some? ==> drop(f.value) == drop(g.value))
  {
    hide IsCredential;
    var ends := [Field("source", source), Field("destination", destination)];
    var c := InField(ends, "filter", Hole, []);
    FilterIsNoCredential();
    if f.Some? && g.Some? {
      assert Plug(c, Str(f.value)) == Definition(source, destination, f);
      assert Plug(c, Str(g.value)) == Definition(source, destination, g);
      TextChangesIdentity(c, f.value, g.value, drop);
    } else if f != g {
      AbsentFilter(source, destination, f, drop);
      AbsentFilter(source, destination, g, drop);
    }
  }

  /** A name holds a needle only if two neighbouring letters of the needle are neighbours in the name. */
  lemma ContainsNeighbours(name: string, part: string, k: nat) returns (i: nat)
    requires Contains(name, part) && k + 1 < |part|
    ensures i + 1 < |name| && AreAt(name, i, part[k], part[k + 1])
  {
    var start :| 0 <= start <= |name| && part <= name[start..];
    var tail := name[start..];
    assert part[k] == tail[k] && part[k + 1] == tail[k + 1];
    i := start + k;
    assert tail[k] == name[i] && tail[k + 1] == name[i + 1];
  }

  predicate AreAt(name: string, i: nat, a: char, b: char)
    requires i + 1 < |name|
  {
    name[i] == a && name[i + 1] == b
  }

  /** Nowhere in the name does `s` come before a letter, `t` before `o` or `c` before `r`, as in every needle. */
  predicate HasNoNeedle(name: string) {
    forall i :: 0 <= i && i + 1 < |name| ==>
      && name[i] != 's'
      && !AreAt(name, i, 't', 'o') && !AreAt(name, i, 'c', 'r')
  }

  lemma NoNeedleIsContained(name: string)
    requires HasNoNeedle(name)
    ensures forall n :: 0 <= n < |NEEDLES| ==> !Contains(name, NEEDLES[n])
  {
    forall n | 0 <= n < |NEEDLES| ensures !Contains(name, NEEDLES[n]) {
      if Contains(name, NEEDLES[n]) {
        var _ := ContainsNeighbours(name, NEEDLES[n], if n < 2 then 2 else 0);
      }
    }
  }

  lemma FilterIsNoCredential()
    ensures !IsCredential(Some("filter"), None)
  {
    assert Lower("filter") == "filter";
    NoNeedleIsContained("filter");
  }

  /** A bare `key` is key material only inside the fields that hold key material. */
  lemma KeyDependsOnParent(parent: Option<string>)
    ensures IsCredential(Some("key"), parent) <==> parent == Some("encryption") || parent == Some("decrypt_keys")
  {
    assert Lower("key") == "key";
    NoNeedleIsContained("key");
  }

  /** A string in a field `key`, wherever it stands, is part of the identity exactly outside the fields for key material. */
  lemma KeyChangesIdentity(c: Context, s: string, t: string, drop: DropPassword)
    requires KeyAt(c, None) == Some("key")
    ensures Canonical(Plug(c, Str(s)), drop) == Canonical(Plug(c, Str(t)), drop) <==>
            ParentAt(c, None, None) in {Some("encryption"), Some("decrypt_keys")} || drop(s) == drop(t)
  {
    hide IsCredential, Canonical;
    TextChangesIdentity(c, s, t, drop);
    KeyDependsOnParent(ParentAt(c, None, None));
  }

  /** A partition key names a field to read: it stays part of the identity. */
  lemma PartitionKeyIsNoCredential(parent: Option<string>)
    requires parent != Some("decrypt_keys")
    ensures !IsCredential(Some("partition_key"), parent)
  {
    var name := "partition_key";
    assert Lower(name) == name;
    hide Lower, Contains;
    assert HasNoNeedle(name);
    NoNeedleIsContained(name);
  }

  /** The case of a name does not matter, that of its parent does. */
  lemma CaseDoesNotMatter(key: string, parent: Option<string>)
    ensures IsCredential(Some(Lower(key)), parent) <==> IsCredential(Some(key), parent)
  {
    assert Lower(Lower(key)) == Lower(key);
  }

  /** A name with a needle in it is that of a credential, whatever is around it. */
  lemma NeedleMakesCredential(before: string, n: nat, after: string, parent: Option<string>)
    requires n < |NEEDLES|
    ensures IsCredential(Some(before + NEEDLES[n] + after), parent)
  {
    var name := before + NEEDLES[n] + after;
    var lower := Lower(name);
    forall i | 0 <= i < |NEEDLES[n]| ensures lower[|before|..][i] == NEEDLES[n][i] {
      assert name[|before| + i] == NEEDLES[n][i];
      assert 'a' <= NEEDLES[n][i] <= 'z' by { NeedlesAreLower(n, i); }
    }
    assert NEEDLES[n] <= lower[|before|..];
    assert Contains(lower, NEEDLES[n]);
  }

  /** `text` is `word` in letters of either case. */
  ghost predicate IsSpelled(text: string, word: string) {
    |text| == |word| &&
    forall i :: 0 <= i < |word| ==> text[i] == word[i] || ('a' <= word[i] <= 'z' && text[i] as int + 32 == word[i] as int)
  }

  /** `word` stands somewhere in `text`, in letters of either case. */
  ghost predicate IsWithin(word: string, text: string) {
    exists i, j :: 0 <= i <= j <= |text| && IsSpelled(text[i..j], word)
  }

  predicate IsLower(word: string) {
    forall i :: 0 <= i < |word| ==> 'a' <= word[i] <= 'z' || word[i] == '_'
  }

  lemma LowerIsSpelled(text: string, word: string)
    requires IsLower(word)
    ensures Lower(text) == word <==> IsSpelled(text, word)
  {
    if Lower(text) == word {
      forall i | 0 <= i < |word|
        ensures text[i] == word[i] || ('a' <= word[i] <= 'z' && text[i] as int + 32 == word[i] as int)
      {
        assert Lower(text)[i] == word[i];
      }
    }
    if IsSpelled(text, word) {
      forall i | 0 <= i < |word| ensures Lower(text)[i] == word[i] {
        assert IsLower(word);
      }
    }
  }

  lemma LowerOfPart(text: string, i: nat, j: nat)
    requires i <= j <= |text|
    ensures Lower(text[i..j]) == Lower(text)[i..j]
  {
  }

  lemma ContainedIsWithin(text: string, word: string)
    requires IsLower(word)
    ensures Contains(Lower(text), word) <==> IsWithin(word, text)
  {
    var lower := Lower(text);
    hide Lower, IsSpelled;
    if Contains(lower, word) {
      var i :| 0 <= i <= |lower| && word <= lower[i..];
      var j := i + |word|;
      assert lower[i..j] == word;
      LowerOfPart(text, i, j);
      LowerIsSpelled(text[i..j], word);
    }
    if IsWithin(word, text) {
      var i, j :| 0 <= i <= j <= |text| && IsSpelled(text[i..j], word);
      LowerIsSpelled(text[i..j], word);
      LowerOfPart(text, i, j);
      assert lower[i..][..j - i] == word;
    }
  }

  /** Which names are those of credentials: with one of five words in them, three whole names, and two places for keys. */
  lemma CredentialNames(name: string, parent: Option<string>)
    ensures !IsCredential(None, parent)
    ensures IsCredential(Some(name), parent) <==>
            || IsWithin("password", name) || IsWithin("passphrase", name) || IsWithin("secret", name)
            || IsWithin("token", name) || IsWithin("credential", name)
            || IsSpelled(name, "authorization") || IsSpelled(name, "cookie") || IsSpelled(name, "access_key")
            || (parent == Some("encryption") && IsSpelled(name, "key"))
            || parent == Some("decrypt_keys")
  {
    hide Lower, Contains, IsWithin, IsSpelled;
    FixedNamesAreLower();
    forall n | 0 <= n < |NEEDLES| ensures Contains(Lower(name), NEEDLES[n]) <==> IsWithin(NEEDLES[n], name) {
      ContainedIsWithin(name, NEEDLES[n]);
    }
    LowerIsSpelled(name, "authorization");
    LowerIsSpelled(name, "cookie");
    LowerIsSpelled(name, "access_key");
    LowerIsSpelled(name, "key");
    assert NEEDLES[0] == "password" && NEEDLES[1] == "passphrase" && NEEDLES[2] == "secret";
    assert NEEDLES[3] == "token" && NEEDLES[4] == "credential" && |NEEDLES| == 5;
  }

  lemma FixedNamesAreLower()
    ensures forall n :: 0 <= n < |NEEDLES| ==> IsLower(NEEDLES[n])
    ensures IsLower("authorization") && IsLower("cookie") && IsLower("access_key") && IsLower("key")
  {
  }

  lemma NeedlesAreLower(n: nat, i: nat)
    requires n < |NEEDLES| && i < |NEEDLES[n]|
    ensures 'a' <= NEEDLES[n][i] <= 'z'
  {
  }

  lemma AbsentFilter(source: Value, destination: Value, f: Option<string>, drop: DropPassword)
    ensures var v := Canonical(Definition(source, destination, f), drop);
            v.Obj? && |v.fields| == 3 && (v.fields[2].value.Null? <==> f.None?)
  {
    hide IsCredential;
    CanonicalObj(Definition(source, destination, f).fields, 0, None, None, drop);
  }

  // ------------------------------------------------------------------ definitions that are canonical already

  /** Nothing to redact or drop at this very place. */
  predicate IsCleanAt(v: Value, depth: nat, key: Option<string>, parent: Option<string>, drop: DropPassword) {
    match v
    case Str(s) => s == if IsCredential(key, parent) then "[redacted]" else drop(s)
    case Obj(fields) =>
      depth < 2 || AllNull(fields) || forall i :: 0 <= i < |fields| ==> !fields[i].value.Null?
    case _ => true
  }

  ghost predicate IsCleanThroughout(v: Value, depth: nat, key: Option<string>, parent: Option<string>, drop: DropPassword) {
    forall c, part :: Plug(c, part) == v ==>
      IsCleanAt(part, DepthAt(c, depth), KeyAt(c, key), ParentAt(c, key, parent), drop)
  }

  lemma KeptIsAll(fields: seq<Field>, depth: nat)
    ensures Kept(fields, depth) == fields <==>
            depth < 2 || AllNull(fields) || forall i :: 0 <= i < |fields| ==> !fields[i].value.Null?
  {
    if forall i :: 0 <= i < |fields| ==> !fields[i].value.Null? {
      NonNullIsIdempotent(fields);
    } else {
      var i :| 0 <= i < |fields| && fields[i].value.Null?;
      assert fields[i] !in NonNull(fields);
    }
  }

  lemma CanonicalObject(fields: seq<Field>, depth: nat, key: Option<string>, parent: Option<string>, drop: DropPassword)
    ensures CanonicalAt(Obj(fields), depth, key, parent, drop) == Obj(fields) <==>
            && Kept(fields, depth) == fields
            && forall i :: 0 <= i < |fields| ==>
                 CanonicalAt(fields[i].value, depth + 1, Some(fields[i].key), key, drop) == fields[i].value
  {
    hide Strip, Redact;
    CanonicalObj(fields, depth, key, parent, drop);
    var kept := Kept(fields, depth);
    var r := StripFields(RedactFields(kept, key, drop), depth + 1);
    assert forall i :: 0 <= i < |kept| ==>
        r[i] == Field(kept[i].key, CanonicalAt(kept[i].value, depth + 1, Some(kept[i].key), key, drop));
    if CanonicalAt(Obj(fields), depth, key, parent, drop) == Obj(fields) {
      assert |kept| == |fields|;
      KeptOfFullLength(fields, depth);
    }
  }

  lemma {:induction false} NonNullOfFullLength(fields: seq<Field>)
    requires |NonNull(fields)| == |fields|
    ensures NonNull(fields) == fields
  {
    if fields != [] {
      NonNullOfFullLength(fields[1..]);
    }
  }

  lemma KeptOfFullLength(fields: seq<Field>, depth: nat)
    requires |Kept(fields, depth)| == |fields|
    ensures Kept(fields, depth) == fields
  {
    if depth >= 2 && !AllNull(fields) {
      NonNullOfFullLength(fields);
    }
  }

  lemma {:induction false} PartsOfCanonical(c: Context, part: Value, depth: nat, key: Option<string>, parent: Option<string>,
                                            drop: DropPassword)
    requires CanonicalAt(Plug(c, part), depth, key, parent, drop) == Plug(c, part)
    ensures CanonicalAt(part, DepthAt(c, depth), KeyAt(c, key), ParentAt(c, key, parent), drop) == part
    decreases c
  {
    hide CanonicalAt;
    match c
    case Hole =>
    case InField(before, name, inner, after) =>
      var fields := before + [Field(name, Plug(inner, part))] + after;
      CanonicalObject(fields, depth, key, parent, drop);
      assert fields[|before|] == Field(name, Plug(inner, part));
      PartsOfCanonical(inner, part, depth + 1, Some(name), key, drop);
    case InArray(items, inner, others) =>
      var all := items + [Plug(inner, part)] + others;
      CanonicalArr(all, depth, key, parent, drop);
      assert all[|items|] == Plug(inner, part);
      assert CanonicalItems(all, depth, key, parent, drop)[|items|] == all[|items|];
      PartsOfCanonical(inner, part, depth, key, parent, drop);
  }

  lemma CleanField(v: Value, i: nat, depth: nat, key: Option<string>, parent: Option<string>, drop: DropPassword)
    requires v.Obj? && i < |v.fields| && IsCleanThroughout(v, depth, key, parent, drop)
    ensures IsCleanThroughout(v.fields[i].value, depth + 1, Some(v.fields[i].key), key, drop)
  {
    hide IsCleanAt;
    var f := v.fields[i];
    forall c, part | Plug(c, part) == f.value
      ensures IsCleanAt(part, DepthAt(c, depth + 1), KeyAt(c, Some(f.key)), ParentAt(c, Some(f.key), key), drop)
    {
      var outer := InField(v.fields[..i], f.key, c, v.fields[i + 1..]);
      assert Plug(outer, part) == v by {
        assert v.fields == v.fields[..i] + [f] + v.fields[i + 1..];
      }
    }
  }

  lemma CleanItem(v: Value, i: nat, depth: nat, key: Option<string>, parent: Option<string>, drop: DropPassword)
    requires v.Arr? && i < |v.items| && IsCleanThroughout(v, depth, key, parent, drop)
    ensures IsCleanThroughout(v.items[i], depth, key, parent, drop)
  {
    hide IsCleanAt;
    forall c, part | Plug(c, part) == v.items[i]
      ensures IsCleanAt(part, DepthAt(c, depth), KeyAt(c, key), ParentAt(c, key, parent), drop)
    {
      var outer := InArray(v.items[..i], c, v.items[i + 1..]);
      assert Plug(outer, part) == v by {
        assert v.items == v.items[..i] + [v.items[i]] + v.items[i + 1..];
      }
    }
  }

  lemma {:induction false} CleanIsCanonical(v: Value, depth: nat, key: Option<string>, parent: Option<string>, drop: DropPassword)
    requires IsCleanThroughout(v, depth, key, parent, drop)
    ensures CanonicalAt(v, depth, key, parent, drop) == v
    decreases v
  {
    assert Plug(Hole, v) == v && IsCleanAt(v, depth, key, parent, drop);
    match v
    case Obj(fields) =>
      hide IsCleanThroughout, CanonicalAt;
      forall i | 0 <= i < |fields|
        ensures CanonicalAt(fields[i].value, depth + 1, Some(fields[i].key), key, drop) == fields[i].value
      {
        CleanField(v, i, depth, key, parent, drop);
        CleanIsCanonical(fields[i].value, depth + 1, Some(fields[i].key), key, drop);
      }
      KeptIsAll(fields, depth);
      CanonicalObject(fields, depth, key, parent, drop);
    case Arr(items) =>
      hide IsCleanThroughout, CanonicalAt;
      forall i | 0 <= i < |items| ensures CanonicalAt(items[i], depth, key, parent, drop) == items[i] {
        CleanItem(v, i, depth, key, parent, drop);
        CleanIsCanonical(items[i], depth, key, parent, drop);
      }
      CanonicalArr(items, depth, key, parent, drop);
    case _ =>
  }

  /**
   The canonical form leaves a definition alone exactly when no place in it holds a credential, a URL
   password or, deep enough and beside another value, a null.
   */
  lemma CanonicalExactlyWhenClean(v: Value, drop: DropPassword)
    ensures Canonical(v, drop) == v <==> IsCleanThroughout(v, 0, None, None, drop)
  {
    if IsCleanThroughout(v, 0, None, None, drop) {
      CleanIsCanonical(v, 0, None, None, drop);
    }
    if Canonical(v, drop) == v {
      forall c, part | Plug(c, part) == v
        ensures IsCleanAt(part, DepthAt(c, 0), KeyAt(c, None), ParentAt(c, None, None), drop)
      {
        PartsOfCanonical(c, part, 0, None, None, drop);
        CanonicalIsCleanAt(part, DepthAt(c, 0), KeyAt(c, None), ParentAt(c, None, None), drop);
      }
    }
  }

  lemma CanonicalIsCleanAt(v: Value, depth: nat, key: Option<string>, parent: Option<string>, drop: DropPassword)
    requires CanonicalAt(v, depth, key, parent, drop) == v
    ensures IsCleanAt(v, depth, key, parent, drop)
  {
    if v.Obj? {
      CanonicalObject(v.fields, depth, key, parent, drop);
      KeptIsAll(v.fields, depth);
    }
  }

  /**
   An endpoint inside another endpoint's settings is no exception: a null endpoint there loses the
   null-valued field that names its type as soon as it has another value.
   */
  lemma NestedNullEndpointLosesItsTag(outer: Context, settings: Field, drop: DropPassword)
    requires DepthAt(outer, 0) >= 2 && !settings.value.Null?
    ensures Canonical(Plug(outer, Obj([Field("null", Null), settings])), drop) ==
            Canonical(Plug(outer, Obj([settings])), drop)
  {
    hide Canonical;
    var none: seq<Field> := [];
    assert none + [Field("null", Null)] + [settings] == [Field("null", Null), settings];
    assert none + [settings] == [settings] && !AllNull([settings]) by {
      assert [settings][0] == settings;
    }
    NullFieldIsAbsent(outer, none, "null", [settings], drop);
  }
}
