/**
 The mutable trie: node objects linked by an insertion-ordered child table, and the
 in-place insertion with its cursor loop, proved to compute `PathTrie.Insert`.
 */
module PathTrieHeap {
  import opened Options
  import opened Text
  import opened PathTrie

  /** One node object. `children` is the child table in insertion order, keyed by segment. */
  class PathTrieNode {
    const segment: string
    const pathKey: string
    ghost const path: seq<string>
    var exactLeaves: seq<Leaf>
    var children: seq<PathTrieNode>

    constructor (segment: string, pathKey: string, ghost path: seq<string>)
      ensures this.segment == segment && this.pathKey == pathKey && this.path == path
      ensures exactLeaves == [] && children == []
    {
      this.segment := segment;
      this.pathKey := pathKey;
      this.path := path;
      exactLeaves := [];
      children := [];
    }
  }

  // ---------------------------------------------------------------------------
  // The heap, flattened: what each path maps to.

  datatype Entry = Entry(exact: seq<Leaf>, kids: seq<string>)

  type Shape = map<seq<string>, Entry>

  ghost predicate DistinctNames(ks: seq<string>) {
    forall i, j :: 0 <= i < j < |ks| ==> ks[i] != ks[j]
  }

  /** The kids of `p` differ and exist, and `p` is a kid of its parent. */
  ghost predicate NodeOk(m: Shape, p: seq<string>)
    requires p in m
  {
    && DistinctNames(m[p].kids)
    && (forall i :: 0 <= i < |m[p].kids| ==> p + [m[p].kids[i]] in m)
    && (p != [] ==> IsKid(m, p[..|p| - 1], p[|p| - 1]))
  }

  ghost predicate IsKid(m: Shape, p: seq<string>, s: string) {
    p in m && s in m[p].kids
  }

  ghost predicate Linked(m: Shape) {
    && [] in m
    && forall p {:trigger NodeOk(m, p)} :: p in m ==> NodeOk(m, p)
  }

  ghost function Deeper(m: Shape, n: nat): set<seq<string>> {
    set p | p in m && |p| > n
  }

  /** The tree below path `p`. */
  ghost function TreeAt(m: Shape, p: seq<string>): Trie
    requires Linked(m) && p in m
    decreases Deeper(m, |p|), 1, 0
  {
    assert NodeOk(m, p);
    Node(if p == [] then "" else p[|p| - 1], JoinPath(p), m[p].exact, TreesAt(m, p, m[p].kids))
  }

  ghost function TreesAt(m: Shape, p: seq<string>, ks: seq<string>): (ts: seq<Trie>)
    requires Linked(m) && forall i :: 0 <= i < |ks| ==> p + [ks[i]] in m
    ensures |ts| == |ks|
    decreases Deeper(m, |p|), 0, |ks|
  {
    if ks == [] then []
    else
      assert p + [ks[0]] in Deeper(m, |p|) && p + [ks[0]] !in Deeper(m, |p| + 1);
      assert Deeper(m, |p| + 1) <= Deeper(m, |p|);
      [TreeAt(m, p + [ks[0]])] + TreesAt(m, p, ks[1..])
  }

  lemma {:induction false} TreesAtIndex(m: Shape, p: seq<string>, ks: seq<string>, i: nat)
    requires Linked(m) && forall i :: 0 <= i < |ks| ==> p + [ks[i]] in m
    requires i < |ks|
    ensures TreesAt(m, p, ks)[i] == TreeAt(m, p + [ks[i]])
    ensures TreesAt(m, p, ks)[i].segment == ks[i]
    decreases |ks|
  {
    if i > 0 { TreesAtIndex(m, p, ks[1..], i - 1); }
  }

  lemma {:induction false} TreesAtSegments(m: Shape, p: seq<string>, ks: seq<string>)
    requires Linked(m) && forall i :: 0 <= i < |ks| ==> p + [ks[i]] in m
    ensures forall i :: 0 <= i < |ks| ==> TreesAt(m, p, ks)[i].segment == ks[i]
  {
    forall i | 0 <= i < |ks| ensures TreesAt(m, p, ks)[i].segment == ks[i] {
      TreesAtIndex(m, p, ks, i);
    }
  }

  /** A subtree depends only on the entries below its path. */
  lemma {:induction false} TreeFrame(m: Shape, m': Shape, p: seq<string>)
    requires Linked(m) && Linked(m') && p in m && p in m'
    requires forall q :: p <= q && q in m ==> q in m' && m[q] == m'[q]
    ensures TreeAt(m, p) == TreeAt(m', p)
    decreases Deeper(m, |p|), 1, 0
  {
    assert NodeOk(m, p) && NodeOk(m', p);
    TreesFrame(m, m', p, m[p].kids);
  }

  lemma {:induction false} TreesFrame(m: Shape, m': Shape, p: seq<string>, ks: seq<string>)
    requires Linked(m) && Linked(m')
    requires forall i :: 0 <= i < |ks| ==> p + [ks[i]] in m && p + [ks[i]] in m'
    requires forall q :: p <= q && q in m ==> q in m' && m[q] == m'[q]
    ensures TreesAt(m, p, ks) == TreesAt(m', p, ks)
    decreases Deeper(m, |p|), 0, |ks|
  {
    if ks != [] {
      assert p + [ks[0]] in Deeper(m, |p|) && p + [ks[0]] !in Deeper(m, |p| + 1);
      assert Deeper(m, |p| + 1) <= Deeper(m, |p|);
      TreeFrame(m, m', p + [ks[0]]);
      TreesFrame(m, m', p, ks[1..]);
    }
  }

  // ---------------------------------------------------------------------------
  // The two updates of the insertion loop, on shapes.

  /** A fresh empty child `s` below `p`. */
  ghost function Graft(m: Shape, p: seq<string>, s: string): Shape
    requires p in m
  {
    m[p := m[p].(kids := m[p].kids + [s])][p + [s] := Entry([], [])]
  }

  ghost function PushLeaf(m: Shape, p: seq<string>, leaf: Leaf): Shape
    requires p in m
  {
    m[p := m[p].(exact := m[p].exact + [leaf])]
  }

  lemma GraftIsNew(m: Shape, p: seq<string>, s: string)
    requires Linked(m) && p in m && s !in m[p].kids
    ensures p + [s] !in m
  {
    var c := p + [s];
    assert c[..|c| - 1] == p && c[|c| - 1] == s;
    assert c in m ==> NodeOk(m, c);
  }

  lemma GraftNodeOk(m: Shape, p: seq<string>, s: string, q: seq<string>)
    requires Linked(m) && p in m && s !in m[p].kids && p + [s] !in m && q in Graft(m, p, s)
    ensures NodeOk(Graft(m, p, s), q)
  {
    var m', c := Graft(m, p, s), p + [s];
    assert c[..|c| - 1] == p && c[|c| - 1] == s;
    if q != c {
      assert NodeOk(m, q);
      assert forall i :: 0 <= i < |m[q].kids| ==> m'[q].kids[i] == m[q].kids[i];
      if q != [] {
        var init := q[..|q| - 1];
        assert IsKid(m, init, q[|q| - 1]) && init != c;
        assert m[init].kids <= m'[init].kids;
      }
    }
  }

  lemma GraftLinked(m: Shape, p: seq<string>, s: string)
    requires Linked(m) && p in m && s !in m[p].kids
    ensures p + [s] !in m && Linked(Graft(m, p, s))
  {
    GraftIsNew(m, p, s);
    forall q | q in Graft(m, p, s) ensures NodeOk(Graft(m, p, s), q) {
      GraftNodeOk(m, p, s, q);
    }
  }

  lemma PushLinked(m: Shape, p: seq<string>, leaf: Leaf)
    requires Linked(m) && p in m
    ensures Linked(PushLeaf(m, p, leaf))
  {
    var m' := PushLeaf(m, p, leaf);
    forall q | q in m' ensures NodeOk(m', q) {
      assert NodeOk(m, q);
    }
  }

  lemma {:induction false} InsertChildHit(ts: seq<Trie>, path: seq<string>, rest: seq<string>, leaf: Leaf, j: nat)
    requires rest != [] && j < |ts| && DistinctSegments(ts) && ts[j].segment == rest[0]
    ensures InsertChild(ts, path, rest, leaf)
         == ts[j := Insert(ts[j], path + [rest[0]], rest[1..], leaf)]
  {
    if j > 0 {
      assert ts[0].segment != ts[j].segment;
      InsertChildHit(ts[1..], path, rest, leaf, j - 1);
    }
  }

  /** The kid of `q` that leads towards a node of the shape further down. */
  lemma {:induction false} KidTowards(m: Shape, q: seq<string>, p: seq<string>)
    requires Linked(m) && p in m && q <= p && q != p
    ensures q in m && p[|q|] in m[q].kids && p[..|q| + 1] in m && q + [p[|q|]] == p[..|q| + 1]
    decreases |p|
  {
    assert NodeOk(m, p);
    var init := p[..|p| - 1];
    if q == init {
      assert p[..|q| + 1] == p;
    } else {
      KidTowards(m, q, init);
      assert init[..|q| + 1] == p[..|q| + 1];
    }
  }

  lemma OldKid(m: Shape, p: seq<string>, s: string, k: string)
    requires Linked(m) && p in m && s != k && p + [k] in m
    requires Linked(Graft(m, p, s)) && p + [s] !in m
    ensures TreeAt(Graft(m, p, s), p + [k]) == TreeAt(m, p + [k])
  {
    var m', c := Graft(m, p, s), p + [k];
    forall q | c <= q && q in m ensures q in m' && m[q] == m'[q] {
      assert q != p && q[|p|] == k;
    }
    TreeFrame(m, m', c);
  }

  lemma NewKid(m: Shape, p: seq<string>, s: string)
    requires Linked(m) && p in m
    requires Linked(Graft(m, p, s)) && p + [s] !in m
    ensures TreeAt(Graft(m, p, s), p + [s]) == FreshNode(s, p + [s])
  {
    assert NodeOk(Graft(m, p, s), p + [s]);
    assert TreesAt(Graft(m, p, s), p + [s], []) == [];
  }

  lemma {:induction false} GraftedKids(m: Shape, p: seq<string>, s: string, ks: seq<string>)
    requires Linked(m) && p in m && s !in ks && forall i :: 0 <= i < |ks| ==> p + [ks[i]] in m
    requires Linked(Graft(m, p, s)) && p + [s] !in m
    ensures forall i :: 0 <= i < |ks + [s]| ==> p + [(ks + [s])[i]] in Graft(m, p, s)
    ensures TreesAt(Graft(m, p, s), p, ks + [s]) == TreesAt(m, p, ks) + [FreshNode(s, p + [s])]
  {
    NewKid(m, p, s);
    if ks == [] {
      assert [] + [s] == [s];
    } else {
      OldKid(m, p, s, ks[0]);
      GraftedKids(m, p, s, ks[1..]);
      assert (ks + [s])[1..] == ks[1..] + [s];
    }
  }

  lemma GraftedTree(m: Shape, p: seq<string>, s: string)
    requires Linked(m) && p in m && s !in m[p].kids
    requires Linked(Graft(m, p, s)) && p + [s] !in m
    ensures var t := TreeAt(m, p);
            && TreeAt(Graft(m, p, s), p) == t.(children := t.children + [FreshNode(s, p + [s])])
            && forall i :: 0 <= i < |t.children| ==> t.children[i].segment != s
  {
    assert NodeOk(m, p) && NodeOk(Graft(m, p, s), p);
    GraftedKids(m, p, s, m[p].kids);
    TreesAtSegments(m, p, m[p].kids);
  }

  lemma EmptyChildIsInvisible(ts: seq<Trie>, path: seq<string>, rest: seq<string>, leaf: Leaf)
    requires rest != [] && forall i :: 0 <= i < |ts| ==> ts[i].segment != rest[0]
    ensures InsertChild(ts + [FreshNode(rest[0], path + [rest[0]])], path, rest, leaf) == InsertChild(ts, path, rest, leaf)
    decreases |ts|
  {
    var blank := FreshNode(rest[0], path + [rest[0]]);
    if ts == [] {
      assert ts + [blank] == [blank];
      assert InsertChild([blank], path, rest, leaf) == [Insert(blank, path + [rest[0]], rest[1..], leaf)] + [blank][1..];
    } else {
      assert (ts + [blank])[1..] == ts[1..] + [blank];
      EmptyChildIsInvisible(ts[1..], path, rest, leaf);
    }
  }

  /** Kids that do not lead to the change keep their trees. */
  lemma OtherKids(m: Shape, m': Shape, q: seq<string>, ks: seq<string>, s: string, i: nat)
    requires Linked(m) && Linked(m') && i < |ks| && ks[i] != s
    requires forall k :: 0 <= k < |ks| ==> q + [ks[k]] in m && q + [ks[k]] in m'
    requires forall r :: q <= r && r in m && r != q && !(q + [s] <= r) ==> r in m' && m[r] == m'[r]
    ensures TreesAt(m', q, ks)[i] == TreesAt(m, q, ks)[i]
  {
    TreesAtIndex(m, q, ks, i);
    TreesAtIndex(m', q, ks, i);
    var c := q + [ks[i]];
    forall r | c <= r && r in m ensures r in m' && m[r] == m'[r] {
      assert r[|q|] == ks[i] && (q + [s])[|q|] == s;
    }
    TreeFrame(m, m', c);
  }

  lemma SwapChild(ts: seq<Trie>, ts': seq<Trie>, path: seq<string>, rest: seq<string>, leaf: Leaf, j: nat)
    requires rest != [] && j < |ts| == |ts'| && DistinctSegments(ts) && DistinctSegments(ts')
    requires ts[j].segment == ts'[j].segment == rest[0]
    requires forall i :: 0 <= i < |ts| && i != j ==> ts'[i] == ts[i]
    requires Insert(ts[j], path + [rest[0]], rest[1..], leaf) == Insert(ts'[j], path + [rest[0]], rest[1..], leaf)
    ensures InsertChild(ts, path, rest, leaf) == InsertChild(ts', path, rest, leaf)
  {
    InsertChildHit(ts, path, rest, leaf, j);
    InsertChildHit(ts', path, rest, leaf, j);
    var c := Insert(ts[j], path + [rest[0]], rest[1..], leaf);
    assert ts'[j := c] == ts[j := c];
  }

  /** Above it: if the insertion into kid `j` is unchanged and the other kids are, so is this one. */
  lemma InsertIntoKid(m: Shape, m': Shape, q: seq<string>, j: nat, rest: seq<string>, leaf: Leaf)
    requires Linked(m) && Linked(m') && q in m && q in m' && m[q] == m'[q]
    requires rest != [] && j < |m[q].kids| && m[q].kids[j] == rest[0]
    requires q + [rest[0]] in m && q + [rest[0]] in m'
    requires forall r :: q <= r && r in m && r != q && !(q + [rest[0]] <= r) ==> r in m' && m[r] == m'[r]
    requires Insert(TreeAt(m, q + [rest[0]]), q + [rest[0]], rest[1..], leaf)
          == Insert(TreeAt(m', q + [rest[0]]), q + [rest[0]], rest[1..], leaf)
    ensures Insert(TreeAt(m, q), q, rest, leaf) == Insert(TreeAt(m', q), q, rest, leaf)
  {
    assert NodeOk(m, q) && NodeOk(m', q);
    var ks := m[q].kids;
    TreesAtSegments(m, q, ks);
    TreesAtSegments(m', q, ks);
    forall i | 0 <= i < |ks| && i != j ensures TreesAt(m', q, ks)[i] == TreesAt(m, q, ks)[i] {
      OtherKids(m, m', q, ks, rest[0], i);
    }
    TreesAtIndex(m, q, ks, j);
    TreesAtIndex(m', q, ks, j);
    SwapChild(TreesAt(m, q, ks), TreesAt(m', q, ks), q, rest, leaf, j);
  }

  /** Creating the missing empty node does not change what the insertion will build. */
  lemma {:induction false} GraftIsInvisible(m: Shape, q: seq<string>, p: seq<string>, rest: seq<string>, leaf: Leaf)
    requires Linked(m) && p in m && q in m && q <= p && rest != [] && rest[0] !in m[p].kids
    requires Linked(Graft(m, p, rest[0])) && p + [rest[0]] !in m
    ensures Insert(TreeAt(Graft(m, p, rest[0]), q), q, p[|q|..] + rest, leaf)
         == Insert(TreeAt(m, q), q, p[|q|..] + rest, leaf)
    decreases |p| - |q|
  {
    var m' := Graft(m, p, rest[0]);
    var path := p[|q|..] + rest;
    if q == p {
      assert path == rest;
      GraftedTree(m, p, rest[0]);
      EmptyChildIsInvisible(TreeAt(m, p).children, p, rest, leaf);
    } else {
      KidTowards(m, q, p);
      var s := p[|q|];
      var j :| 0 <= j < |m[q].kids| && m[q].kids[j] == s;
      assert path[0] == s && path[1..] == p[|q| + 1..] + rest;
      GraftIsInvisible(m, q + [s], p, rest, leaf);
      InsertIntoKid(m, m', q, j, path, leaf);
    }
  }

  /** Pushing the leaf at its node is the whole insertion, once the node exists. */
  lemma {:induction false} PushIsInsert(m: Shape, q: seq<string>, p: seq<string>, leaf: Leaf)
    requires Linked(m) && p in m && q in m && q <= p && Linked(PushLeaf(m, p, leaf))
    ensures TreeAt(PushLeaf(m, p, leaf), q) == Insert(TreeAt(m, q), q, p[|q|..], leaf)
    decreases |p| - |q|
  {
    var m' := PushLeaf(m, p, leaf);
    assert NodeOk(m, q) && NodeOk(m', q);
    var ks := m[q].kids;
    if q == p {
      TreesBelowFrame(m, m', q, ks);
    } else {
      KidTowards(m, q, p);
      var s := p[|q|];
      var j :| 0 <= j < |ks| && ks[j] == s;
      assert p[|q|..][1..] == p[|q| + 1..];
      PushIsInsert(m, q + [s], p, leaf);
      PushedKids(m, m', q, s, j, p[|q|..], leaf);
    }
  }

  lemma TreesBelowFrame(m: Shape, m': Shape, q: seq<string>, ks: seq<string>)
    requires Linked(m) && Linked(m')
    requires forall k :: 0 <= k < |ks| ==> q + [ks[k]] in m && q + [ks[k]] in m'
    requires forall r :: q <= r && r in m && r != q ==> r in m' && m[r] == m'[r]
    ensures TreesAt(m', q, ks) == TreesAt(m, q, ks)
  {
    forall i | 0 <= i < |ks| ensures TreesAt(m', q, ks)[i] == TreesAt(m, q, ks)[i] {
      TreesAtIndex(m, q, ks, i);
      TreesAtIndex(m', q, ks, i);
      TreeFrame(m, m', q + [ks[i]]);
    }
  }

  lemma PushedKids(m: Shape, m': Shape, q: seq<string>, s: string, j: nat, rest: seq<string>, leaf: Leaf)
    requires Linked(m) && Linked(m') && q in m && q in m' && m[q] == m'[q]
    requires rest != [] && rest[0] == s && j < |m[q].kids| && m[q].kids[j] == s
    requires q + [s] in m && q + [s] in m'
    requires forall r :: q <= r && r in m && r != q && !(q + [s] <= r) ==> r in m' && m[r] == m'[r]
    requires TreeAt(m', q + [s]) == Insert(TreeAt(m, q + [s]), q + [s], rest[1..], leaf)
    ensures TreeAt(m', q) == Insert(TreeAt(m, q), q, rest, leaf)
  {
    assert NodeOk(m, q) && NodeOk(m', q);
    var ks := m[q].kids;
    var ts, ts' := TreesAt(m, q, ks), TreesAt(m', q, ks);
    TreesAtSegments(m, q, ks);
    forall i | 0 <= i < |ks| && i != j ensures ts'[i] == ts[i] {
      OtherKids(m, m', q, ks, s, i);
    }
    TreesAtIndex(m, q, ks, j);
    TreesAtIndex(m', q, ks, j);
    InsertChildHit(ts, q, rest, leaf, j);
    assert ts' == ts[j := ts'[j]];
  }

  // ---------------------------------------------------------------------------
  // Buckets: the mutable object that owns one trie.

  /** What a bucket stands for. `paths` is `None` where the bucket was not made for HTTP. */
  datatype BucketValue = BucketValue(text: string, root: Option<Trie>, paths: Option<seq<seq<string>>>, leaves: seq<Leaf>)

  function PlainBucket(text: string): BucketValue {
    BucketValue(text, None, None, [])
  }

  function HttpBucket(text: string): BucketValue {
    BucketValue(text, Some(EMPTY_TRIE), Some([]), [])
  }

  function RootOrEmpty(b: BucketValue): Trie {
    if b.root.Some? then b.root.value else EMPTY_TRIE
  }

  function AddHttp(b: BucketValue, segments: seq<string>, leaf: Leaf): BucketValue {
    BucketValue(
      b.text,
      Some(Insert(RootOrEmpty(b), [], segments, leaf)),
      if b.paths.Some? then Some(b.paths.value + [segments]) else None,
      b.leaves)
  }

  function AddPlain(b: BucketValue, leaf: Leaf): BucketValue {
    b.(leaves := b.leaves + [leaf])
  }

  type NodeTable = map<seq<string>, PathTrieNode>

  function Segments(cs: seq<PathTrieNode>): seq<string> {
    seq(|cs|, i requires 0 <= i < |cs| => cs[i].segment)
  }

  /** The mutable fields of one node object. */
  datatype Record = Record(exact: seq<Leaf>, children: seq<PathTrieNode>)

  type Records = map<seq<string>, Record>

  ghost function RecordsOf(nodes: NodeTable, repr: set<PathTrieNode>): Records
    requires forall p :: p in nodes ==> nodes[p] in repr
    reads repr
  {
    map p | p in nodes :: Record(nodes[p].exactLeaves, nodes[p].children)
  }

  ghost function ShapeOf(r: Records): Shape {
    map p | p in r :: Entry(r[p].exact, Segments(r[p].children))
  }

  /** The object at `p` carries its path, and its children are the objects at theirs. */
  ghost predicate ObjectOk(nodes: NodeTable, r: Records, p: seq<string>)
    requires p in nodes && p in r
  {
    && nodes[p].path == p
    && nodes[p].pathKey == JoinPath(p)
    && nodes[p].segment == (if p == [] then "" else p[|p| - 1])
    && forall i :: 0 <= i < |r[p].children| ==>
         && r[p].children[i].path == p + [r[p].children[i].segment]
         && r[p].children[i].path in nodes
         && nodes[r[p].children[i].path] == r[p].children[i]
  }

  /** The objects form the tree that the table says. */
  ghost predicate TableOk(nodes: NodeTable, r: Records) {
    && nodes.Keys == r.Keys
    && Linked(ShapeOf(r))
    && forall p {:trigger ObjectOk(nodes, r, p)} :: p in nodes ==> ObjectOk(nodes, r, p)
  }

  /** `children.get(segment)`: the index of the child with that key, or the number of children. */
  function FindChild(cs: seq<PathTrieNode>, s: string): (i: nat)
    ensures i <= |cs|
    ensures i < |cs| ==> cs[i].segment == s
    ensures i == |cs| ==> s !in Segments(cs)
  {
    if cs == [] || cs[0].segment == s then 0
    else
      assert forall k :: 0 < k < |cs| ==> Segments(cs)[k] == Segments(cs[1..])[k - 1];
      1 + FindChild(cs[1..], s)
  }

  class GroupBucket {
    const id: string
    const text: string
    var leaves: seq<Leaf>
    var pathRoot: PathTrieNode?
    var httpPathSegments: Option<seq<seq<string>>>
    ghost var nodes: NodeTable
    ghost var repr: set<PathTrieNode>

    ghost predicate InRepr()
      reads this
    {
      forall p :: p in nodes ==> nodes[p] in repr
    }

    ghost predicate Valid()
      reads this, repr
    {
      && InRepr()
      && (pathRoot == null ==> nodes == map[])
      && (pathRoot != null ==> TableOk(nodes, RecordsOf(nodes, repr)) && [] in nodes && nodes[[]] == pathRoot)
    }

    ghost function Tree(): Trie
      requires Valid() && pathRoot != null
      reads this, repr
    {
      TreeAt(ShapeOf(RecordsOf(nodes, repr)), [])
    }

    ghost function Value(): BucketValue
      requires Valid()
      reads this, repr
    {
      BucketValue(text, if pathRoot == null then None else Some(Tree()), httpPathSegments, leaves)
    }

    /** A bucket for a broker endpoint: no trie, no recorded paths. */
    constructor Plain(id: string, text: string)
      ensures Valid() && repr == {} && this.id == id
      ensures Value() == PlainBucket(text)
    {
      this.id, this.text := id, text;
      leaves := [];
      pathRoot := null;
      httpPathSegments := None;
      nodes := map[];
      repr := {};
    }

    /** A bucket for an HTTP root: an empty trie and an empty list of paths. */
    constructor Http(id: string, text: string)
      ensures Valid() && fresh(repr) && this.id == id
      ensures Value() == HttpBucket(text)
    {
      this.id, this.text := id, text;
      leaves := [];
      httpPathSegments := Some([]);
      var root := new PathTrieNode("", "", []);
      pathRoot := root;
      nodes := map[[] := root];
      repr := {root};
      new;
      EmptyTable(root);
      assert RecordsOf(nodes, repr) == map[[] := Record([], [])];
    }

    method AddLeaf(leaf: Leaf)
      requires Valid()
      modifies this`leaves
      ensures Valid() && Value() == AddPlain(old(Value()), leaf)
    {
      leaves := leaves + [leaf];
    }

    /** `bucket.pathRoot ??= createPathTrieNode("", "")` */
    method EnsureRoot()
      requires Valid()
      modifies this`pathRoot, this`nodes, this`repr
      ensures Valid() && pathRoot != null && fresh(repr - old(repr))
      ensures Value() == old(Value()).(root := Some(RootOrEmpty(old(Value()))))
    {
      if pathRoot == null {
        var root := new PathTrieNode("", "", []);
        pathRoot := root;
        nodes := map[[] := root];
        repr := {root};
        EmptyTable(root);
        assert RecordsOf(nodes, repr) == map[[] := Record([], [])];
      }
    }

    /** Creates the missing child `segment` of the node at `p`. */
    method AddChild(cursor: PathTrieNode, ghost p: seq<string>, segment: string, key: string)
      returns (next: PathTrieNode)
      requires InRepr() && TableOk(nodes, RecordsOf(nodes, repr)) && p in nodes && nodes[p] == cursor
      requires segment !in Segments(cursor.children) && key == JoinPath(p + [segment])
      modifies this`nodes, this`repr, cursor
      ensures InRepr() && TableOk(nodes, RecordsOf(nodes, repr)) && nodes == old(nodes)[p + [segment] := next] && fresh(next)
      ensures repr == old(repr) + {next}
      ensures Linked(old(ShapeOf(RecordsOf(nodes, repr)))) && p + [segment] !in old(nodes)
      ensures ShapeOf(RecordsOf(nodes, repr)) == Graft(old(ShapeOf(RecordsOf(nodes, repr))), p, segment)
    {
      ghost var r := RecordsOf(nodes, repr);
      GraftLinked(ShapeOf(r), p, segment);
      OnlyItsOwnObject(nodes, r, p);
      next := new PathTrieNode(segment, key, p + [segment]);
      GraftObject(nodes, r, p, next);
      cursor.children := cursor.children + [next];
      nodes := nodes[p + [segment] := next];
      repr := repr + {next};
      forall q | q in nodes ensures Record(nodes[q].exactLeaves, nodes[q].children) == GraftRecord(r, p, next)[q] {
        assert q in old(nodes) && q != p ==> nodes[q] != cursor;
      }
      assert RecordsOf(nodes, repr) == GraftRecord(r, p, next);
    }

    method PushExact(cursor: PathTrieNode, ghost p: seq<string>, leaf: Leaf)
      requires InRepr() && TableOk(nodes, RecordsOf(nodes, repr)) && p in nodes && nodes[p] == cursor
      modifies cursor
      ensures InRepr() && TableOk(nodes, RecordsOf(nodes, repr)) && Linked(old(ShapeOf(RecordsOf(nodes, repr))))
      ensures ShapeOf(RecordsOf(nodes, repr)) == PushLeaf(old(ShapeOf(RecordsOf(nodes, repr))), p, leaf)
    {
      ghost var r := RecordsOf(nodes, repr);
      OnlyItsOwnObject(nodes, r, p);
      PushRecordOk(nodes, r, p, leaf);
      cursor.exactLeaves := cursor.exactLeaves + [leaf];
      assert RecordsOf(nodes, repr) == PushRecord(r, p, leaf);
    }

    /** The cursor stands at the node for the path `p`. */
    ghost predicate IsAt(cursor: PathTrieNode, p: seq<string>)
      reads this, repr
    {
      Valid() && pathRoot != null && p in nodes && nodes[p] == cursor && cursor in repr
    }

    /** The tree that inserting a leaf will give. */
    ghost function Outcome(segments: seq<string>, leaf: Leaf): Trie
      reads this, repr
    {
      if Valid() && pathRoot != null then Insert(Tree(), [], segments, leaf) else EMPTY_TRIE
    }

    /** Turn `i` of the cursor loop: `cursor.children.get(segment)`, or a new node. */
    method Step(cursor: PathTrieNode, segments: seq<string>, i: nat, key: string, ghost leaf: Leaf)
      returns (next: PathTrieNode)
      requires i < |segments| && IsAt(cursor, segments[..i]) && key == JoinPath(segments[..i + 1])
      modifies this`nodes, this`repr, cursor
      ensures IsAt(next, segments[..i + 1]) && repr == old(repr) + {next} && (next in old(repr) || fresh(next))
      ensures Outcome(segments, leaf) == old(Outcome(segments, leaf))
    {
      ghost var p := segments[..i];
      SplitAt(segments, i);
      assert ObjectOk(nodes, RecordsOf(nodes, repr), p);
      var k := FindChild(cursor.children, segments[i]);
      if k < |cursor.children| {
        next := cursor.children[k];
      } else {
        ghost var m := ShapeOf(RecordsOf(nodes, repr));
        next := AddChild(cursor, p, segments[i], key);
        GraftIsInvisible(m, [], p, segments[i..], leaf);
      }
    }

    /** The cursor loop: walks the path from the root, creating the nodes that are missing. */
    method NodeForPath(segments: seq<string>, ghost leaf: Leaf) returns (cursor: PathTrieNode)
      requires Valid() && pathRoot != null
      modifies this`nodes, this`repr, repr
      ensures IsAt(cursor, segments) && fresh(repr - old(repr))
      ensures Outcome(segments, leaf) == old(Outcome(segments, leaf))
    {
      cursor := pathRoot;
      assert IsAt(cursor, []);
      hide GroupBucket.Valid, GroupBucket.Outcome, JoinPath;
      var builtSegments: seq<string> := [];
      for i := 0 to |segments|
        invariant builtSegments == segments[..i]
        invariant IsAt(cursor, builtSegments)
        invariant forall n :: n in repr ==> n in old(repr) || fresh(n)
        invariant Outcome(segments, leaf) == old(Outcome(segments, leaf))
      {
        builtSegments := builtSegments + [segments[i]];
        var nextKey := JoinPath(builtSegments);
        TakeOneMore(segments, i);
        cursor := Step(cursor, segments, i, nextKey, leaf);
      }
      SplitAtEnd(segments);
    }

    /** Pushing a leaf on the node for its path is the whole insertion. */
    method PushAt(cursor: PathTrieNode, ghost p: seq<string>, leaf: Leaf)
      requires IsAt(cursor, p)
      modifies cursor
      ensures Valid() && Tree() == Insert(old(Tree()), [], p, leaf)
    {
      hide TreeAt, Linked, Insert;
      ghost var m := ShapeOf(RecordsOf(nodes, repr));
      PushLinked(m, p, leaf);
      PushExact(cursor, p, leaf);
      PushIsInsert(m, [], p, leaf);
      assert p[0..] == p;
    }

    method InsertLeaf(segments: seq<string>, leaf: Leaf)
      requires Valid() && pathRoot != null
      modifies this`nodes, this`repr, repr
      ensures Valid() && fresh(repr - old(repr))
      ensures Value() == old(Value()).(root := Some(Insert(RootOrEmpty(old(Value())), [], segments, leaf)))
    {
      hide GroupBucket.Valid, GroupBucket.Tree, Insert;
      var cursor := NodeForPath(segments, leaf);
      PushAt(cursor, segments, leaf);
    }

    /** `bucket.httpPathSegments?.push(segments)` */
    method RecordPath(segments: seq<string>)
      requires Valid()
      modifies this`httpPathSegments
      ensures Valid()
      ensures Value() == old(Value()).(paths :=
                if old(httpPathSegments).Some? then Some(old(httpPathSegments).value + [segments]) else None)
    {
      if httpPathSegments.Some? {
        httpPathSegments := Some(httpPathSegments.value + [segments]);
      }
    }

    /** Reads the node objects below `n` as a tree value. */
    method ReadNode(n: PathTrieNode, ghost p: seq<string>) returns (t: Trie)
      requires Valid() && pathRoot != null && p in nodes && nodes[p] == n
      ensures t == TreeAt(ShapeOf(RecordsOf(nodes, repr)), p)
      decreases Deeper(ShapeOf(RecordsOf(nodes, repr)), |p|)
    {
      ghost var r := RecordsOf(nodes, repr);
      ghost var m := ShapeOf(r);
      assert ObjectOk(nodes, r, p);
      var children: seq<Trie> := [];
      for i := 0 to |n.children|
        invariant |children| == i
        invariant forall j :: 0 <= j < i ==>
                    p + [m[p].kids[j]] in m && children[j] == TreeAt(m, p + [m[p].kids[j]])
      {
        ChildObject(nodes, r, p, i);
        var child := ReadNode(n.children[i], p + [n.children[i].segment]);
        children := children + [child];
      }
      ReadKids(m, p, children);
      t := Node(n.segment, n.pathKey, n.exactLeaves, children);
    }

    method ReadTree() returns (t: Trie)
      requires Valid() && pathRoot != null
      ensures t == Tree()
    {
      t := ReadNode(pathRoot, []);
    }

    method AddHttpLeaf(segments: seq<string>, leaf: Leaf)
      requires Valid()
      modifies this`httpPathSegments, this`pathRoot, this`nodes, this`repr, repr
      ensures Valid() && Value() == AddHttp(old(Value()), segments, leaf)
      ensures fresh(repr - old(repr))
    {
      hide GroupBucket.InRepr, GroupBucket.Tree, TableOk, Insert;
      RecordPath(segments);
      EnsureRoot();
      InsertLeaf(segments, leaf);
    }
  }

  lemma SplitAt(segments: seq<string>, i: nat)
    requires i < |segments|
    ensures segments[..i] + segments[i..] == segments
    ensures segments[..i] + [segments[i]] == segments[..i + 1]
    ensures segments[i..] != [] && segments[i..][0] == segments[i]
    ensures segments[..i][0..] == segments[..i]
  {
  }

  lemma TakeOneMore(segments: seq<string>, i: nat)
    requires i < |segments|
    ensures segments[..i] + [segments[i]] == segments[..i + 1]
  {
  }

  lemma SplitAtEnd(segments: seq<string>)
    ensures segments[..|segments|] == segments
  {
  }

  lemma ChildObject(nodes: NodeTable, r: Records, p: seq<string>, i: nat)
    requires TableOk(nodes, r) && p in nodes && i < |r[p].children|
    ensures var c := r[p].children[i];
            var q := p + [c.segment];
            && q in nodes && nodes[q] == c && ShapeOf(r)[p].kids[i] == c.segment
            && Deeper(ShapeOf(r), |q|) < Deeper(ShapeOf(r), |p|)
  {
    assert ObjectOk(nodes, r, p);
    var q := p + [r[p].children[i].segment];
    assert q in Deeper(ShapeOf(r), |p|) && q !in Deeper(ShapeOf(r), |q|);
  }

  lemma ReadKids(m: Shape, p: seq<string>, ts: seq<Trie>)
    requires Linked(m) && p in m && |ts| == |m[p].kids|
    requires forall i :: 0 <= i < |ts| ==> p + [m[p].kids[i]] in m && ts[i] == TreeAt(m, p + [m[p].kids[i]])
    ensures TreeAt(m, p).children == ts
  {
    assert NodeOk(m, p);
    var ts' := TreesAt(m, p, m[p].kids);
    forall i | 0 <= i < |ts| ensures ts'[i] == ts[i] {
      TreesAtIndex(m, p, m[p].kids, i);
    }
  }

  lemma OnlyItsOwnObject(nodes: NodeTable, r: Records, p: seq<string>)
    requires TableOk(nodes, r) && p in nodes
    ensures forall q :: q in nodes && q != p ==> nodes[q] != nodes[p]
  {
    forall q | q in nodes && q != p ensures nodes[q] != nodes[p] {
      assert ObjectOk(nodes, r, q) && ObjectOk(nodes, r, p);
    }
  }

  ghost function GraftRecord(r: Records, p: seq<string>, next: PathTrieNode): Records
    requires p in r
  {
    r[p := r[p].(children := r[p].children + [next])][next.path := Record([], [])]
  }

  /** Linking a new childless object below `p` is a graft of the shape. */
  lemma GraftObject(nodes: NodeTable, r: Records, p: seq<string>, next: PathTrieNode)
    requires TableOk(nodes, r) && p in nodes
    requires next.segment !in Segments(r[p].children)
    requires next.path == p + [next.segment] && next.pathKey == JoinPath(next.path) && next.path !in nodes
    requires Linked(Graft(ShapeOf(r), p, next.segment))
    ensures ShapeOf(GraftRecord(r, p, next)) == Graft(ShapeOf(r), p, next.segment)
    ensures TableOk(nodes[next.path := next], GraftRecord(r, p, next))
  {
    var nodes' := nodes[next.path := next];
    var r' := GraftRecord(r, p, next);
    assert Segments(r'[p].children) == Segments(r[p].children) + [next.segment];
    assert next.path != p && Segments(r'[next.path].children) == [];
    assert ShapeOf(r') == Graft(ShapeOf(r), p, next.segment);
    forall q | q in nodes' ensures ObjectOk(nodes', r', q) {
      if q != next.path {
        assert ObjectOk(nodes, r, q);
      }
    }
  }

  ghost function PushRecord(r: Records, p: seq<string>, leaf: Leaf): Records
    requires p in r
  {
    r[p := r[p].(exact := r[p].exact + [leaf])]
  }

  lemma PushRecordOk(nodes: NodeTable, r: Records, p: seq<string>, leaf: Leaf)
    requires TableOk(nodes, r) && p in nodes
    ensures TableOk(nodes, PushRecord(r, p, leaf))
    ensures ShapeOf(PushRecord(r, p, leaf)) == PushLeaf(ShapeOf(r), p, leaf)
  {
    var r' := PushRecord(r, p, leaf);
    PushLinked(ShapeOf(r), p, leaf);
    assert ShapeOf(r') == PushLeaf(ShapeOf(r), p, leaf);
    forall q | q in nodes ensures ObjectOk(nodes, r', q) {
      assert ObjectOk(nodes, r, q);
    }
  }

  lemma EmptyTable(root: PathTrieNode)
    requires root.path == [] && root.segment == root.pathKey == ""
    ensures var r: Records := map[[] := Record([], [])];
            TableOk(map[[] := root], r) && TreeAt(ShapeOf(r), []) == EMPTY_TRIE
  {
    var r: Records := map[[] := Record([], [])];
    var m := ShapeOf(r);
    assert m == map[[] := Entry([], [])];
    assert forall p :: p in m ==> p == [] && NodeOk(m, p);
    assert TreesAt(m, [], []) == [];
  }
}
