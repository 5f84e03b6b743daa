/**
 The field types of a JSON schema: a depth-first walk over `$ref`, `allOf`, `anyOf` and `oneOf`
 that may meet cyclic references.
 */
module SchemaFields {
  import opened Options
  import opened Json

  // ---------------------------------------------------------------------------
  // Reading a schema node.

  function RefOf(node: Value): Option<string> {
    match Get(node, "$ref")
    case Some(Str(s)) => Some(s)
    case _ => None
  }

  function Members(node: Value, key: string): seq<Value> {
    match Get(node, key)
    case Some(Arr(items)) => items
    case _ => []
  }

  /** The subschemas of the three combinators, in the order they are visited. */
  function Parts(node: Value): seq<Value> {
    Members(node, "allOf") + Members(node, "anyOf") + Members(node, "oneOf")
  }

  function Properties(node: Value): seq<Field> {
    match Get(node, "properties")
    case Some(Obj(fields)) => fields
    case _ => []
  }

  function AfterLastSlash(s: string): string {
    if s == "" || s[|s| - 1] == '/' then "" else AfterLastSlash(s[..|s| - 1]) + [s[|s| - 1]]
  }

  function DefIn(root: Value, defs: string, name: string): Option<Value> {
    match Get(root, defs)
    case Some(d) => Get(d, name)
    case None => None
  }

  /** `#/$defs/Name` or `#/definitions/Name`, found by the last part of the reference. */
  function ResolveRef(root: Value, reference: string): Option<Value> {
    var name := AfterLastSlash(reference);
    match DefIn(root, "$defs", name)
    case Some(v) => Some(v)
    case None => DefIn(root, "definitions", name)
  }

  // ---------------------------------------------------------------------------
  // Termination: the references not yet visited, then the size of the node.

  /** Every reference string anywhere in a value. */
  ghost function AllRefs(v: Value): set<string>
    decreases v, 0
  {
    match v
    case Arr(items) => RefsOfAll(items)
    case Obj(fields) => (if RefOf(v).Some? then {RefOf(v).value} else {}) + RefsOfFields(fields)
    case _ => {}
  }

  ghost function RefsOfAll(vs: seq<Value>): set<string>
    decreases vs, 1
  {
    if vs == [] then {} else AllRefs(vs[0]) + RefsOfAll(vs[1..])
  }

  ghost function RefsOfFields(fs: seq<Field>): set<string>
    decreases fs, 1
  {
    if fs == [] then {} else AllRefs(fs[0].value) + RefsOfFields(fs[1..])
  }

  lemma {:induction false} LookupIsPart(fields: seq<Field>, key: string)
    ensures Lookup(fields, key).Some? ==>
              AllRefs(Lookup(fields, key).value) <= RefsOfFields(fields)
    ensures Lookup(fields, key).Some? ==> Size(Lookup(fields, key).value) <= FieldsSize(fields)
  {
    if fields != [] && fields[0].key != key { LookupIsPart(fields[1..], key); }
  }

  lemma GetIsPart(v: Value, key: string)
    ensures Get(v, key).Some? ==> AllRefs(Get(v, key).value) <= AllRefs(v) && Size(Get(v, key).value) < Size(v)
  {
    if v.Obj? { LookupIsPart(v.fields, key); }
  }

  lemma {:induction false} ThreeFields(fields: seq<Field>, a: string, b: string, c: string)
    requires a != b && b != c && a != c
    ensures SizeAt(fields, a) + SizeAt(fields, b) + SizeAt(fields, c) <= FieldsSize(fields)
  {
    if fields != [] { ThreeFields(fields[1..], a, b, c); }
  }

  ghost function SizeAt(fields: seq<Field>, key: string): nat {
    match Lookup(fields, key) case Some(v) => Size(v) case None => 0
  }

  lemma {:induction false} SizeOfConcat(a: seq<Value>, b: seq<Value>)
    ensures ItemsSize(a + b) == ItemsSize(a) + ItemsSize(b)
    ensures RefsOfAll(a + b) == RefsOfAll(a) + RefsOfAll(b)
  {
    if a == [] {
      assert a + b == b;
    } else {
      assert (a + b)[1..] == a[1..] + b;
      SizeOfConcat(a[1..], b);
    }
  }

  lemma PartsAreSmaller(node: Value)
    requires node.Obj?
    ensures ItemsSize(Parts(node)) < Size(node)
    ensures RefsOfAll(Parts(node)) <= AllRefs(node)
  {
    var a, b, c := Members(node, "allOf"), Members(node, "anyOf"), Members(node, "oneOf");
    SizeOfConcat(a, b);
    SizeOfConcat(a + b, c);
    GetIsPart(node, "allOf");
    GetIsPart(node, "anyOf");
    GetIsPart(node, "oneOf");
    ThreeFields(node.fields, "allOf", "anyOf", "oneOf");
  }

  lemma TargetIsPart(root: Value, reference: string)
    ensures ResolveRef(root, reference).Some? ==> AllRefs(ResolveRef(root, reference).value) <= AllRefs(root)
  {
    GetIsPart(root, "$defs");
    GetIsPart(root, "definitions");
    var name := AfterLastSlash(reference);
    if Get(root, "$defs").Some? { GetIsPart(Get(root, "$defs").value, name); }
    if Get(root, "definitions").Some? { GetIsPart(Get(root, "definitions").value, name); }
  }

  lemma Visiting(root: Value, visited: set<string>, reference: string)
    requires reference in AllRefs(root) && reference !in visited
    ensures |AllRefs(root) - (visited + {reference})| < |AllRefs(root) - visited|
  {
    assert AllRefs(root) - visited == (AllRefs(root) - (visited + {reference})) + {reference};
  }

  lemma VisitedGrows(root: Value, a: set<string>, b: set<string>)
    requires a <= b
    ensures |AllRefs(root) - b| <= |AllRefs(root) - a|
  {
    assert AllRefs(root) - a == (AllRefs(root) - b) + ((AllRefs(root) - a) * b);
  }

  // ---------------------------------------------------------------------------
  // The walk as a function: the properties met, in order, and the references visited.

  function Walk(root: Value, node: Value, visited: set<string>): (r: (seq<Field>, set<string>))
    requires AllRefs(node) <= AllRefs(root)
    ensures visited <= r.1
    decreases |AllRefs(root) - visited|, Size(node), 0
  {
    if !node.Obj? then ([], visited)
    else if RefOf(node).Some? then
      var reference := RefOf(node).value;
      if reference in visited then ([], visited)
      else
        Visiting(root, visited, reference);
        TargetIsPart(root, reference);
        match ResolveRef(root, reference)
        case None => ([], visited + {reference})
        case Some(target) => Walk(root, target, visited + {reference})
    else
      PartsAreSmaller(node);
      var below := WalkAll(root, Parts(node), visited);
      (Properties(node) + below.0, below.1)
  }

  function WalkAll(root: Value, nodes: seq<Value>, visited: set<string>): (r: (seq<Field>, set<string>))
    requires RefsOfAll(nodes) <= AllRefs(root)
    ensures visited <= r.1
    decreases |AllRefs(root) - visited|, ItemsSize(nodes), 1
  {
    if nodes == [] then ([], visited)
    else
      var first := Walk(root, nodes[0], visited);
      VisitedGrows(root, visited, first.1);
      var rest := WalkAll(root, nodes[1..], first.1);
      (first.0 + rest.0, rest.1)
  }

  /** `out.entry(name).or_insert_with(..)` for each field in turn: the first type of a name stays. */
  function AddFields<T>(out: map<string, T>, fields: seq<Field>, fieldType: Value -> T): map<string, T>
    decreases |fields|
  {
    if fields == [] then out
    else
      var f := fields[0];
      AddFields(if f.key in out then out else out[f.key := fieldType(f.value)], fields[1..], fieldType)
  }

  lemma AddNoFields<T>(out: map<string, T>, fieldType: Value -> T)
    ensures AddFields(out, [], fieldType) == out
  {
  }

  lemma {:induction false} AddFieldsConcat<T>(out: map<string, T>, a: seq<Field>, b: seq<Field>, fieldType: Value -> T)
    ensures AddFields(out, a + b, fieldType) == AddFields(AddFields(out, a, fieldType), b, fieldType)
    decreases |a|
  {
    if a == [] {
      assert a + b == b;
    } else {
      assert (a + b)[1..] == a[1..] + b;
      var f := a[0];
      AddFieldsConcat(if f.key in out then out else out[f.key := fieldType(f.value)], a[1..], b, fieldType);
    }
  }

  // ---------------------------------------------------------------------------
  // The walk as it runs: one table and one set, filled in place.

  lemma RefIsListed(node: Value)
    requires RefOf(node).Some?
    ensures RefOf(node).value in AllRefs(node)
  {
  }

  class PropCollector<T> {
    const fieldType: Value -> T
    var out: map<string, T>
    var visited: set<string>

    constructor (fieldType: Value -> T)
      ensures this.fieldType == fieldType && out == map[] && visited == {}
    {
      this.fieldType := fieldType;
      out, visited := map[], {};
    }

    method AddProperties(props: seq<Field>)
      modifies this`out
      ensures out == AddFields(old(out), props, fieldType)
    {
      for i := 0 to |props|
        invariant AddFields(out, props[i..], fieldType) == AddFields(old(out), props, fieldType)
      {
        assert props[i..][1..] == props[i + 1..];
        if props[i].key !in out {
          out := out[props[i].key := fieldType(props[i].value)];
        }
      }
    }

    method CollectProps(root: Value, node: Value)
      requires AllRefs(node) <= AllRefs(root)
      modifies this
      ensures visited == Walk(root, node, old(visited)).1
      ensures out == AddFields(old(out), Walk(root, node, old(visited)).0, fieldType)
      decreases |AllRefs(root) - visited|, Size(node), 0
    {
      hide ResolveRef, AllRefs, Properties, Parts, WalkAll, Size, AddFields;
      AddNoFields(out, fieldType);
      if !node.Obj? {
        return;
      }
      var reference := RefOf(node);
      if reference.Some? {
        if reference.value !in visited {
          RefIsListed(node);
          Visiting(root, visited, reference.value);
          TargetIsPart(root, reference.value);
          visited := visited + {reference.value};
          var target := ResolveRef(root, reference.value);
          if target.Some? {
            CollectProps(root, target.value);
          }
        }
        return;
      }
      AddProperties(Properties(node));
      PartsAreSmaller(node);
      CollectAll(root, Parts(node));
      AddFieldsConcat(old(out), Properties(node), WalkAll(root, Parts(node), old(visited)).0, fieldType);
    }

    method CollectAll(root: Value, nodes: seq<Value>)
      requires RefsOfAll(nodes) <= AllRefs(root)
      modifies this
      ensures visited == WalkAll(root, nodes, old(visited)).1
      ensures out == AddFields(old(out), WalkAll(root, nodes, old(visited)).0, fieldType)
      decreases |AllRefs(root) - visited|, ItemsSize(nodes), 1
    {
      hide Walk, AllRefs;
      if nodes != [] {
        CollectProps(root, nodes[0]);
        VisitedGrows(root, old(visited), visited);
        ghost var first := Walk(root, nodes[0], old(visited));
        CollectAll(root, nodes[1..]);
        AddFieldsConcat(old(out), first.0, WalkAll(root, nodes[1..], first.1).0, fieldType);
      }
    }
  }

  method FieldsOfSchema<T>(root: Value, fieldType: Value -> T) returns (out: map<string, T>)
    ensures out == AddFields(map[], Walk(root, root, {}).0, fieldType)
  {
    var collector := new PropCollector<T>(fieldType);
    collector.CollectProps(root, root);
    out := collector.out;
  }

  // ---------------------------------------------------------------------------
  // What a schema node says.

  /** The object `v` has the value `w` under `key`. */
  ghost predicate Has(v: Value, key: string, w: Value) {
    v.Obj? && Lookup(v.fields, key) == Some(w)
  }

  /** A reference is a string under `$ref`. */
  lemma RefLaw(node: Value, reference: string)
    ensures RefOf(node) == Some(reference) <==> Has(node, "$ref", Str(reference))
    ensures RefOf(node) == None <==> forall s :: !Has(node, "$ref", Str(s))
  {
  }

  /** The list under `key`, or none if there is no list. */
  ghost predicate Lists(node: Value, key: string, items: seq<Value>) {
    Has(node, key, Arr(items)) || (items == [] && forall others :: !Has(node, key, Arr(others)))
  }

  lemma MembersLaw(node: Value, key: string, items: seq<Value>)
    requires Lists(node, key, items)
    ensures Members(node, key) == items
  {
    var found := Get(node, key);
    if found.Some? && found.value.Arr? {
      assert Has(node, key, Arr(found.value.items));
    }
  }

  /** The subschemas are those of `allOf`, then of `anyOf`, then of `oneOf`. */
  lemma PartsLaw(node: Value, all: seq<Value>, some: seq<Value>, one: seq<Value>)
    requires Lists(node, "allOf", all) && Lists(node, "anyOf", some) && Lists(node, "oneOf", one)
    ensures Parts(node) == all + some + one
  {
    MembersLaw(node, "allOf", all);
    MembersLaw(node, "anyOf", some);
    MembersLaw(node, "oneOf", one);
  }

  /** The properties are the fields of the object under `properties`. */
  lemma PropertiesLaw(node: Value, fields: seq<Field>)
    requires Has(node, "properties", Obj(fields)) || (fields == [] && forall others :: !Has(node, "properties", Obj(others)))
    ensures Properties(node) == fields
  {
    var found := Get(node, "properties");
    if found.Some? && found.value.Obj? {
      assert Has(node, "properties", Obj(found.value.fields));
    }
  }

  lemma LastIsKept(front: string, c: char)
    ensures AfterLastSlash(front + [c]) == if c == '/' then "" else AfterLastSlash(front) + [c]
  {
    var s := front + [c];
    assert s[|s| - 1] == c && s[..|s| - 1] == front;
  }

  lemma {:induction false} AfterNoSlash(name: string)
    requires '/' !in name
    ensures AfterLastSlash(name) == name
  {
    if name != "" {
      var n := |name| - 1;
      AfterNoSlash(name[..n]);
    }
  }

  lemma {:induction false} NameAfterSlash(prefix: string, name: string)
    requires '/' !in name
    ensures AfterLastSlash(prefix + "/" + name) == name
  {
    hide AfterLastSlash;
    if name == "" {
      LastIsKept(prefix, '/');
      assert prefix + "/" + name == prefix + ['/'];
    } else {
      var n := |name| - 1;
      NameAfterSlash(prefix, name[..n]);
      LastIsKept(prefix + "/" + name[..n], name[n]);
      assert name == name[..n] + [name[n]];
      assert prefix + "/" + name == prefix + "/" + name[..n] + [name[n]];
    }
  }

  /** The definition `name` under `defs`, if there is one. */
  ghost predicate IsDefined(root: Value, defs: string, name: string, v: Value) {
    exists fields :: Has(root, defs, Obj(fields)) && Lookup(fields, name) == Some(v)
  }

  /**
   A reference means the definition named after its last slash: that under `$defs`, or else that under
   `definitions`, or else nothing.
   */
  lemma ReferenceLaw(root: Value, prefix: string, name: string, v: Value)
    requires '/' !in name
    ensures var reference := prefix + "/" + name;
            && (IsDefined(root, "$defs", name, v) ==> ResolveRef(root, reference) == Some(v))
            && ((forall w :: !IsDefined(root, "$defs", name, w)) && IsDefined(root, "definitions", name, v) ==>
                  ResolveRef(root, reference) == Some(v))
            && ((forall w :: !IsDefined(root, "$defs", name, w) && !IsDefined(root, "definitions", name, w)) ==>
                  ResolveRef(root, reference) == None)
            && ResolveRef(root, name) == ResolveRef(root, reference)
  {
    NameAfterSlash(prefix, name);
    AfterNoSlash(name);
    hide AfterLastSlash;
    DefLaw(root, "$defs", name);
    DefLaw(root, "definitions", name);
  }

  lemma DefLaw(root: Value, defs: string, name: string)
    ensures forall v :: DefIn(root, defs, name) == Some(v) <==> IsDefined(root, defs, name, v)
  {
    var found := Get(root, defs);
    if found.Some? && found.value.Obj? {
      assert Has(root, defs, Obj(found.value.fields));
    }
    forall v | IsDefined(root, defs, name, v) ensures DefIn(root, defs, name) == Some(v) {
      var fields :| Has(root, defs, Obj(fields)) && Lookup(fields, name) == Some(v);
    }
  }

  // ---------------------------------------------------------------------------
  // What the walk is for: the nodes that apply to an instance of the schema.

  /** From a node to its reference's target, or, without a reference, to a combinator's subschema. */
  ghost predicate Step(root: Value, a: Value, b: Value) {
    a.Obj? && if RefOf(a).Some? then ResolveRef(root, RefOf(a).value) == Some(b) else b in Parts(a)
  }

  ghost predicate IsPath(root: Value, p: seq<Value>) {
    p != [] && forall i :: 0 <= i < |p| - 1 ==> Step(root, p[i], p[i + 1])
  }

  ghost predicate Reaches(root: Value, a: Value, b: Value) {
    exists p :: IsPath(root, p) && p[0] == a && p[|p| - 1] == b
  }

  /** `f` is a property declared by a node that is no reference. */
  ghost predicate Declares(node: Value, f: Field) {
    node.Obj? && RefOf(node).None? && f in Properties(node)
  }

  ghost function Keys(fs: seq<Field>): set<string> {
    set f | f in fs :: f.key
  }

  lemma ReachesSelf(root: Value, a: Value)
    ensures Reaches(root, a, a)
  {
    var p := [a];
    assert IsPath(root, p) && p[0] == a && p[|p| - 1] == a;
  }

  lemma ReachesThrough(root: Value, a: Value, b: Value, c: Value)
    requires Step(root, a, b) && Reaches(root, b, c)
    ensures Reaches(root, a, c)
  {
    var p :| IsPath(root, p) && p[0] == b && p[|p| - 1] == c;
    var q := [a] + p;
    assert forall i :: 0 < i < |q| ==> q[i] == p[i - 1];
    assert IsPath(root, q) && q[0] == a && q[|q| - 1] == c;
  }

  /** Soundness: whatever the walk meets is declared by a node that the start reaches. */
  lemma {:induction false} WalkIsSound(root: Value, node: Value, visited: set<string>, f: Field)
    requires AllRefs(node) <= AllRefs(root) && f in Walk(root, node, visited).0
    ensures exists n :: Reaches(root, node, n) && Declares(n, f)
    decreases |AllRefs(root) - visited|, Size(node), 0
  {
    if RefOf(node).Some? {
      var reference := RefOf(node).value;
      Visiting(root, visited, reference);
      TargetIsPart(root, reference);
      var target := ResolveRef(root, reference).value;
      WalkIsSound(root, target, visited + {reference}, f);
      var n :| Reaches(root, target, n) && Declares(n, f);
      ReachesThrough(root, node, target, n);
    } else {
      PartsAreSmaller(node);
      if f in Properties(node) {
        ReachesSelf(root, node);
        assert Declares(node, f);
      } else {
        var part := WalkAllIsSound(root, Parts(node), visited, f);
        var n :| Reaches(root, part, n) && Declares(n, f);
        ReachesThrough(root, node, part, n);
      }
    }
  }

  lemma {:induction false} WalkAllIsSound(root: Value, nodes: seq<Value>, visited: set<string>, f: Field)
    returns (part: Value)
    requires RefsOfAll(nodes) <= AllRefs(root) && f in WalkAll(root, nodes, visited).0
    ensures part in nodes && exists n :: Reaches(root, part, n) && Declares(n, f)
    decreases |AllRefs(root) - visited|, ItemsSize(nodes), 1
  {
    var first := Walk(root, nodes[0], visited);
    VisitedGrows(root, visited, first.1);
    if f in first.0 {
      part := nodes[0];
      WalkIsSound(root, part, visited, f);
    } else {
      part := WalkAllIsSound(root, nodes[1..], first.1, f);
    }
  }

  /** All that hangs at `node` through combinators is listed in `names` or waits behind a visited reference. */
  ghost predicate Covered(node: Value, names: set<string>, visited: set<string>)
    decreases Size(node), 0
  {
    node.Obj? ==>
      if RefOf(node).Some? then RefOf(node).value in visited
      else
        PartsAreSmaller(node);
        Keys(Properties(node)) <= names && CoveredAll(Parts(node), names, visited)
  }

  ghost predicate CoveredAll(nodes: seq<Value>, names: set<string>, visited: set<string>)
    decreases ItemsSize(nodes), 1
  {
    nodes != [] ==> Covered(nodes[0], names, visited) && CoveredAll(nodes[1..], names, visited)
  }

  lemma {:induction false} CoveredMore(node: Value, names: set<string>, visited: set<string>,
                                       names': set<string>, visited': set<string>)
    requires Covered(node, names, visited) && names <= names' && visited <= visited'
    ensures Covered(node, names', visited')
    decreases Size(node), 0
  {
    if node.Obj? && RefOf(node).None? {
      PartsAreSmaller(node);
      CoveredAllMore(Parts(node), names, visited, names', visited');
    }
  }

  lemma {:induction false} CoveredAllMore(nodes: seq<Value>, names: set<string>, visited: set<string>,
                                          names': set<string>, visited': set<string>)
    requires CoveredAll(nodes, names, visited) && names <= names' && visited <= visited'
    ensures CoveredAll(nodes, names', visited')
    decreases ItemsSize(nodes), 1
  {
    if nodes != [] {
      CoveredMore(nodes[0], names, visited, names', visited');
      CoveredAllMore(nodes[1..], names, visited, names', visited');
    }
  }

  /** The targets of the references `visited' - visited` are covered. */
  ghost predicate TargetsCovered(root: Value, visited: set<string>, names: set<string>, visited': set<string>) {
    forall r :: r in visited' - visited && ResolveRef(root, r).Some? ==> Covered(ResolveRef(root, r).value, names, visited')
  }

  lemma TargetsCoveredMore(root: Value, visited: set<string>, mid: set<string>, names: set<string>,
                           names': set<string>, visited': set<string>)
    requires TargetsCovered(root, visited, names, mid) && TargetsCovered(root, mid, names', visited')
    requires names <= names' && mid <= visited'
    ensures TargetsCovered(root, visited, names', visited')
  {
    forall r | r in visited' - visited && ResolveRef(root, r).Some?
      ensures Covered(ResolveRef(root, r).value, names', visited')
    {
      if r in mid {
        CoveredMore(ResolveRef(root, r).value, names, mid, names', visited');
      }
    }
  }

  lemma KeysConcat(a: seq<Field>, b: seq<Field>)
    ensures Keys(a + b) == Keys(a) + Keys(b)
  {
    assert forall f :: f in a + b <==> f in a || f in b;
  }

  /** Completeness of one call: the node and the targets of the references it newly visited are covered. */
  lemma {:induction false} WalkCovers(root: Value, node: Value, visited: set<string>)
    requires AllRefs(node) <= AllRefs(root)
    ensures var w := Walk(root, node, visited);
            Covered(node, Keys(w.0), w.1) && TargetsCovered(root, visited, Keys(w.0), w.1)
    decreases |AllRefs(root) - visited|, Size(node), 0
  {
    if node.Obj? {
      if RefOf(node).Some? {
        var reference := RefOf(node).value;
        if reference !in visited {
          Visiting(root, visited, reference);
          TargetIsPart(root, reference);
          var target := ResolveRef(root, reference);
          if target.Some? {
            WalkCovers(root, target.value, visited + {reference});
          }
        }
      } else {
        PartsAreSmaller(node);
        WalkAllCovers(root, Parts(node), visited);
        var below := WalkAll(root, Parts(node), visited);
        var w := Walk(root, node, visited);
        KeysConcat(Properties(node), below.0);
        CoveredAllMore(Parts(node), Keys(below.0), below.1, Keys(w.0), w.1);
        TargetsCoveredMore(root, visited, below.1, Keys(below.0), Keys(w.0), w.1);
      }
    }
  }

  lemma {:induction false} WalkAllCovers(root: Value, nodes: seq<Value>, visited: set<string>)
    requires RefsOfAll(nodes) <= AllRefs(root)
    ensures var w := WalkAll(root, nodes, visited);
            CoveredAll(nodes, Keys(w.0), w.1) && TargetsCovered(root, visited, Keys(w.0), w.1)
    decreases |AllRefs(root) - visited|, ItemsSize(nodes), 1
  {
    if nodes != [] {
      var first := Walk(root, nodes[0], visited);
      VisitedGrows(root, visited, first.1);
      WalkCovers(root, nodes[0], visited);
      WalkAllCovers(root, nodes[1..], first.1);
      var rest := WalkAll(root, nodes[1..], first.1);
      var w := WalkAll(root, nodes, visited);
      KeysConcat(first.0, rest.0);
      CoveredMore(nodes[0], Keys(first.0), first.1, Keys(w.0), w.1);
      CoveredAllMore(nodes[1..], Keys(rest.0), rest.1, Keys(w.0), w.1);
      TargetsCoveredMore(root, first.1, rest.1, Keys(rest.0), Keys(w.0), w.1);
      TargetsCoveredMore(root, visited, first.1, Keys(first.0), Keys(w.0), w.1);
    }
  }

  lemma {:induction false} CoveredMember(nodes: seq<Value>, n: Value, names: set<string>, visited: set<string>)
    requires CoveredAll(nodes, names, visited) && n in nodes
    ensures Covered(n, names, visited)
  {
    if n != nodes[0] { CoveredMember(nodes[1..], n, names, visited); }
  }

  /** What is covered stays covered along every step, so the whole reachable part is. */
  lemma {:induction false} CoveredAlong(root: Value, p: seq<Value>, names: set<string>, visited: set<string>)
    requires IsPath(root, p) && Covered(p[0], names, visited) && TargetsCovered(root, {}, names, visited)
    ensures Covered(p[|p| - 1], names, visited)
    decreases |p|
  {
    if |p| > 1 {
      assert Step(root, p[0], p[1]);
      if RefOf(p[0]).None? {
        CoveredMember(Parts(p[0]), p[1], names, visited);
      }
      assert forall i :: 0 <= i < |p[1..]| ==> p[1..][i] == p[i + 1];
      CoveredAlong(root, p[1..], names, visited);
    }
  }

  lemma {:induction false} AddFieldsKeys<T>(out: map<string, T>, fs: seq<Field>, fieldType: Value -> T)
    ensures AddFields(out, fs, fieldType).Keys == out.Keys + Keys(fs)
    decreases |fs|
  {
    if fs != [] {
      var f := fs[0];
      assert fs == [f] + fs[1..];
      AddFieldsKeys(if f.key in out then out else out[f.key := fieldType(f.value)], fs[1..], fieldType);
    }
  }

  lemma {:induction false} AddFieldsFirst<T>(out: map<string, T>, fs: seq<Field>, fieldType: Value -> T, i: nat)
    requires i < |fs| && forall j :: 0 <= j < i ==> fs[j].key != fs[i].key
    ensures fs[i].key in AddFields(out, fs, fieldType)
    ensures AddFields(out, fs, fieldType)[fs[i].key]
         == if fs[i].key in out then out[fs[i].key] else fieldType(fs[i].value)
    decreases |fs|
  {
    var f := fs[0];
    var next := if f.key in out then out else out[f.key := fieldType(f.value)];
    if i == 0 {
      AddFieldsKeep(next, fs[1..], fieldType, f.key);
    } else {
      AddFieldsFirst(next, fs[1..], fieldType, i - 1);
    }
  }

  lemma {:induction false} AddFieldsKeep<T>(out: map<string, T>, fs: seq<Field>, fieldType: Value -> T, k: string)
    requires k in out
    ensures k in AddFields(out, fs, fieldType) && AddFields(out, fs, fieldType)[k] == out[k]
    decreases |fs|
  {
    if fs != [] {
      var f := fs[0];
      AddFieldsKeep(if f.key in out then out else out[f.key := fieldType(f.value)], fs[1..], fieldType, k);
    }
  }

  /**
   Main result: whatever cycles the references make, a name is collected exactly when some node that
   the schema reaches declares it.
   */
  lemma CollectsReachableNames<T>(root: Value, fieldType: Value -> T, name: string)
    ensures name in AddFields(map[], Walk(root, root, {}).0, fieldType)
       <==> exists n, v :: Reaches(root, root, n) && Declares(n, Field(name, v))
  {
    var w := Walk(root, root, {});
    AddFieldsKeys<T>(map[], w.0, fieldType);
    if name in AddFields(map[], w.0, fieldType) {
      var f :| f in w.0 && f.key == name;
      WalkIsSound(root, root, {}, f);
      assert f == Field(name, f.value);
    }
    if exists n, v :: Reaches(root, root, n) && Declares(n, Field(name, v)) {
      var n, v :| Reaches(root, root, n) && Declares(n, Field(name, v));
      var p :| IsPath(root, p) && p[0] == root && p[|p| - 1] == n;
      WalkCovers(root, root, {});
      CoveredAlong(root, p, Keys(w.0), w.1);
      assert Field(name, v).key in Keys(Properties(n));
    }
  }

  /** A schema that is a reference to one of its definitions has the fields of that definition. */
  lemma DefinitionIsFollowed<T>(root: Value, name: string, def: Value, fields: seq<Field>, f: Field, fieldType: Value -> T)
    requires '/' !in name && Has(root, "$ref", Str("#/$defs/" + name)) && IsDefined(root, "$defs", name, def)
    requires (forall s :: !Has(def, "$ref", Str(s))) && Has(def, "properties", Obj(fields)) && f in fields
    ensures f.key in AddFields(map[], Walk(root, root, {}).0, fieldType)
  {
    hide Walk, AddFields, RefOf, ResolveRef, Properties;
    var reference := "#/$defs/" + name;
    assert reference == "#/$defs" + "/" + name;
    RefLaw(root, reference);
    ReferenceLaw(root, "#/$defs", name, def);
    RefLaw(def, "");
    PropertiesLaw(def, fields);
    ReachesSelf(root, def);
    ReachesThrough(root, root, def, def);
    CollectsReachableNames(root, fieldType, f.key);
    assert Declares(def, Field(f.key, f.value));
  }

  /** Each name has the type of its first occurrence in the order of the walk. */
  lemma TypesAreOfFirstOccurrence<T>(root: Value, fieldType: Value -> T, i: nat)
    requires i < |Walk(root, root, {}).0|
    requires var fs := Walk(root, root, {}).0; forall j :: 0 <= j < i ==> fs[j].key != fs[i].key
    ensures var f := Walk(root, root, {}).0[i];
            var out := AddFields(map[], Walk(root, root, {}).0, fieldType);
            f.key in out && out[f.key] == fieldType(f.value)
  {
    AddFieldsFirst<T>(map[], Walk(root, root, {}).0, fieldType, i);
  }
}
