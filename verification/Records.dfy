/** JavaScript records as lists of fields in enumeration order: setting, deleting and spreading. */
module Records {
  import opened Options
  import opened Json

  function Keys(fields: seq<Field>): (r: seq<string>)
    ensures |r| == |fields|
    ensures forall i :: 0 <= i < |fields| ==> r[i] == fields[i].key
  {
    seq(|fields|, i requires 0 <= i < |fields| => fields[i].key)
  }

  predicate HasKey(fields: seq<Field>, key: string) {
    Lookup(fields, key).Some?
  }

  predicate HasDistinctKeys(fields: seq<Field>) {
    forall i, j :: 0 <= i < j < |fields| ==> fields[i].key != fields[j].key
  }

  /** `record[key] = value`: in place if the key is there, at the end otherwise. */
  function Put(fields: seq<Field>, key: string, value: Value): seq<Field> {
    if fields == [] then [Field(key, value)]
    else if fields[0].key == key then [Field(key, value)] + fields[1..]
    else [fields[0]] + Put(fields[1..], key, value)
  }

  /** `delete record[key]` */
  function Remove(fields: seq<Field>, key: string): seq<Field> {
    if fields == [] then []
    else if fields[0].key == key then fields[1..]
    else [fields[0]] + Remove(fields[1..], key)
  }

  /** `{ ...a, ...b }` */
  function Spread(a: seq<Field>, b: seq<Field>): seq<Field> {
    if b == [] then a else Put(Spread(a, b[..|b| - 1]), b[|b| - 1].key, b[|b| - 1].value)
  }

  // ------------------------------------------------------------------ keys and lookups

  lemma {:induction false} LookupLaw(fields: seq<Field>, key: string)
    ensures HasKey(fields, key) <==> key in Keys(fields)
    ensures forall i :: 0 <= i < |fields| && HasDistinctKeys(fields) && fields[i].key == key ==>
              Lookup(fields, key) == Some(fields[i].value)
  {
    if fields != [] {
      LookupLaw(fields[1..], key);
      assert Keys(fields) == [fields[0].key] + Keys(fields[1..]);
      if HasDistinctKeys(fields) {
        forall i | 0 <= i < |fields| && fields[i].key == key ensures Lookup(fields, key) == Some(fields[i].value) {
          if i > 0 {
            assert fields[1..][i - 1] == fields[i];
          }
        }
      }
    }
  }

  lemma {:induction false} PutLookup(fields: seq<Field>, key: string, value: Value, other: string)
    ensures Lookup(Put(fields, key, value), other) == if other == key then Some(value) else Lookup(fields, other)
  {
    if fields != [] && fields[0].key != key {
      PutLookup(fields[1..], key, value, other);
    }
  }

  lemma KeysOfFirst(f: Field, rest: seq<Field>)
    ensures Keys([f] + rest) == [f.key] + Keys(rest)
  {
  }

  lemma {:induction false} PutKeysOnly(fields: seq<Field>, key: string, value: Value)
    ensures Keys(Put(fields, key, value)) == if HasKey(fields, key) then Keys(fields) else Keys(fields) + [key]
  {
    if fields != [] {
      var first, rest := fields[0], fields[1..];
      assert fields == [first] + rest;
      hide Keys;
      KeysOfFirst(first, rest);
      if first.key == key {
        KeysOfFirst(Field(key, value), rest);
      } else {
        PutKeysOnly(rest, key, value);
        KeysOfFirst(first, Put(rest, key, value));
        assert [first.key] + (Keys(rest) + [key]) == ([first.key] + Keys(rest)) + [key];
      }
    }
  }

  lemma DistinctByKeys(a: seq<Field>, b: seq<Field>, key: string)
    requires HasDistinctKeys(a)
    requires Keys(b) == Keys(a) || (key !in Keys(a) && Keys(b) == Keys(a) + [key])
    ensures HasDistinctKeys(b)
  {
    forall i, j | 0 <= i < j < |b| ensures b[i].key != b[j].key {
      assert Keys(b)[i] == b[i].key && Keys(b)[j] == b[j].key;
      assert j < |a| ==> Keys(a)[i] == a[i].key && Keys(a)[j] == a[j].key;
    }
  }

  lemma PutKeys(fields: seq<Field>, key: string, value: Value)
    ensures Keys(Put(fields, key, value)) == if HasKey(fields, key) then Keys(fields) else Keys(fields) + [key]
    ensures HasDistinctKeys(fields) ==> HasDistinctKeys(Put(fields, key, value))
  {
    hide Keys, HasDistinctKeys, Put, Lookup;
    PutKeysOnly(fields, key, value);
    LookupLaw(fields, key);
    if HasDistinctKeys(fields) {
      DistinctByKeys(fields, Put(fields, key, value), key);
    }
  }

  lemma {:induction false} PutSame(fields: seq<Field>, key: string, value: Value)
    requires HasKey(fields, key)
    ensures Put(fields, key, value) == fields <==> Lookup(fields, key) == Some(value)
  {
    if fields[0].key == key {
      assert fields == [fields[0]] + fields[1..];
      assert Put(fields, key, value)[0] == Field(key, value);
    } else {
      PutSame(fields[1..], key, value);
      assert Put(fields, key, value)[1..] == Put(fields[1..], key, value);
      assert fields == [fields[0]] + fields[1..];
    }
  }

  lemma {:induction false} RemoveLookup(fields: seq<Field>, key: string, other: string)
    ensures HasDistinctKeys(fields) ==> Lookup(Remove(fields, key), other) == if other == key then None else Lookup(fields, other)
  {
    if fields != [] {
      LookupLaw(fields[1..], key);
      if HasDistinctKeys(fields) {
        if fields[0].key == key {
          assert key !in Keys(fields[1..]) by {
            forall j | 0 <= j < |fields| - 1 ensures fields[1..][j].key != key {
              assert fields[1..][j] == fields[j + 1];
            }
          }
        } else {
          RemoveLookup(fields[1..], key, other);
        }
      }
    }
  }

  lemma {:induction false} RemoveDistinct(fields: seq<Field>, key: string)
    requires HasDistinctKeys(fields)
    ensures HasDistinctKeys(Remove(fields, key))
    ensures forall f :: f in Remove(fields, key) ==> f in fields
  {
    if fields != [] && fields[0].key != key {
      var rest := fields[1..];
      RemoveDistinct(rest, key);
      var r := Remove(rest, key);
      forall j | 0 <= j < |r| ensures r[j].key != fields[0].key {
        assert r[j] in rest;
        var n :| 0 <= n < |rest| && rest[n] == r[j];
        assert rest[n] == fields[n + 1];
      }
    }
  }

  lemma {:induction false} RemoveAbsent(fields: seq<Field>, key: string)
    ensures Remove(fields, key) == fields <==> !HasKey(fields, key)
  {
    if fields != [] {
      if fields[0].key == key {
        assert |Remove(fields, key)| < |fields|;
      } else {
        RemoveAbsent(fields[1..], key);
        assert Remove(fields, key)[1..] == Remove(fields[1..], key);
        assert fields == [fields[0]] + fields[1..];
      }
    }
  }

  lemma {:induction false} SpreadLookup(a: seq<Field>, b: seq<Field>, key: string)
    requires HasDistinctKeys(b)
    ensures Lookup(Spread(a, b), key) == if HasKey(b, key) then Lookup(b, key) else Lookup(a, key)
  {
    if b != [] {
      var n := |b| - 1;
      var front := b[..n];
      SpreadLookup(a, front, key);
      PutLookup(Spread(a, front), b[n].key, b[n].value, key);
      LookupOfLast(front, b[n], key);
      assert b == front + [b[n]];
    }
  }

  lemma LookupOfLast(front: seq<Field>, last: Field, key: string)
    requires HasDistinctKeys(front + [last])
    ensures Lookup(front + [last], key) == if key == last.key then Some(last.value) else Lookup(front, key)
  {
    PutAtEnd(front, last);
    PutLookup(front, last.key, last.value, key);
  }

  lemma PutAtEnd(front: seq<Field>, last: Field)
    requires HasDistinctKeys(front + [last])
    ensures Put(front, last.key, last.value) == front + [last]
  {
    var all := front + [last];
    forall i | 0 <= i < |front| ensures front[i].key != last.key {
      assert all[i] == front[i] && all[|front|] == last;
    }
    PutAfter(front, [], last.key, last.value);
    assert front + [] == front;
  }

  lemma {:induction false} SpreadKeys(a: seq<Field>, b: seq<Field>)
    requires HasDistinctKeys(a)
    ensures HasDistinctKeys(Spread(a, b)) && Keys(a) <= Keys(Spread(a, b))
  {
    if b != [] {
      var n := |b| - 1;
      SpreadKeys(a, b[..n]);
      PutKeys(Spread(a, b[..n]), b[n].key, b[n].value);
    }
  }

  /** Spreading a record over defaults whose keys it starts with changes nothing. */
  lemma SpreadOverPrefix(a: seq<Field>, b: seq<Field>)
    requires HasDistinctKeys(b) && Keys(a) <= Keys(b)
    ensures Spread(a, b) == b
  {
    forall n | |a| <= n <= |b| ensures Spread(a, b[..n]) == b[..n] {
      SpreadPrefixUpTo(a, b, n);
    }
    assert b[..|b|] == b;
  }

  lemma {:induction false} SpreadPrefixUpTo(a: seq<Field>, b: seq<Field>, n: nat)
    requires HasDistinctKeys(b) && Keys(a) <= Keys(b) && n <= |b|
    ensures Spread(a, b[..n]) == if n <= |a| then b[..n] + a[n..] else b[..n]
  {
    hide Spread, Put;
    if n == 0 {
      SpreadNothing(a, b[..0]);
      assert b[..0] + a[0..] == a;
    } else {
      SpreadPrefixUpTo(a, b, n - 1);
      var front, f := b[..n - 1], b[n - 1];
      assert b[..n] == front + [f];
      SpreadOneMore(a, front, f);
      if n <= |a| { SameKeyAt(a, b, n); }
      SpreadStep(a, front, f, n);
    }
  }

  lemma SameKeyAt(a: seq<Field>, b: seq<Field>, n: nat)
    requires Keys(a) <= Keys(b) && 0 < n <= |a| && n <= |b|
    ensures a[n - 1].key == b[n - 1].key
  {
    assert Keys(a)[n - 1] == Keys(b)[n - 1];
  }

  lemma SpreadNothing(a: seq<Field>, none: seq<Field>)
    requires none == []
    ensures Spread(a, none) == a
  {
  }

  lemma SpreadOneMore(a: seq<Field>, front: seq<Field>, f: Field)
    ensures Spread(a, front + [f]) == Put(Spread(a, front), f.key, f.value)
  {
    assert (front + [f])[..|front|] == front;
  }

  lemma SpreadStep(a: seq<Field>, front: seq<Field>, f: Field, n: nat)
    requires n == |front| + 1 && forall i :: 0 <= i < |front| ==> front[i].key != f.key
    requires n <= |a| ==> a[n - 1].key == f.key
    ensures Put(if n - 1 <= |a| then front + a[n - 1..] else front, f.key, f.value) ==
            if n <= |a| then front + [f] + a[n..] else front + [f]
  {
    hide Put;
    if n <= |a| {
      PutAfter(front, a[n - 1..], f.key, f.value);
      assert a[n - 1..][1..] == a[n..];
    } else {
      PutAfter(front, [], f.key, f.value);
      assert front + [] == front && front + [f] + [] == front + [f];
      assert n - 1 == |a| ==> a[n - 1..] == [];
    }
  }

  lemma {:induction false} PutAfter(front: seq<Field>, back: seq<Field>, key: string, value: Value)
    requires forall i :: 0 <= i < |front| ==> front[i].key != key
    requires back == [] || back[0].key == key
    ensures Put(front + back, key, value) == front + [Field(key, value)] + (if back == [] then [] else back[1..])
  {
    if front == [] {
      assert front + back == back;
    } else {
      var all, rest := front + back, front[1..] + back;
      assert all[0] == front[0] && all[1..] == rest;
      PutAfter(front[1..], back, key, value);
      assert Put(all, key, value) == [front[0]] + Put(rest, key, value);
      hide Put;
      assert front == [front[0]] + front[1..];
    }
  }
}
