/**
 The path trie behind one HTTP bucket of the sidebar: nodes that are updated in
 place, and the tree value they stand for.
 */
module PathTrie {
  import opened Text

  /** The parts of a sidebar leaf that grouping looks at. `index` is its publisher or consumer. */
  datatype Leaf = Leaf(index: nat, key: SortKey)

  /** The last two fields are the collation ranks of the compared strings. */
  datatype SortKey = SortKey(manualOrder: int, methodOrder: int, targetRank: int, labelRank: int)

  datatype Trie = Node(segment: string, pathKey: string, exact: seq<Leaf>, children: seq<Trie>)

  /** What is noted of a leaf and the path it sits at: both, only the leaf, or anything else. */
  type Note<!O> = (seq<string>, Leaf) -> O

  function JustLeaf(path: seq<string>, leaf: Leaf): Leaf {
    leaf
  }

  // ---------------------------------------------------------------------------
  // What a trie holds.

  ghost function PlaceAll<O>(at: seq<string>, leaves: seq<Leaf>, note: Note<O>): multiset<O> {
    if leaves == [] then multiset{}
    else multiset{note(at, leaves[0])} + PlaceAll(at, leaves[1..], note)
  }

  /** Every leaf of the trie `t` that hangs at path `at`. */
  ghost function Entries<O>(t: Trie, at: seq<string>, note: Note<O>): multiset<O>
    decreases t, 0
  {
    PlaceAll(at, t.exact, note) + ChildEntries(t.children, at, note)
  }

  ghost function ChildEntries<O>(ts: seq<Trie>, at: seq<string>, note: Note<O>): multiset<O>
    decreases ts, 1
  {
    if ts == [] then multiset{}
    else Entries(ts[0], at + [ts[0].segment], note) + ChildEntries(ts[1..], at, note)
  }

  function CountTrieLeaves(t: Trie): nat
    decreases t, 0
  {
    |t.exact| + CountChildLeaves(t.children)
  }

  function CountChildLeaves(ts: seq<Trie>): nat
    decreases ts, 1
  {
    if ts == [] then 0 else CountTrieLeaves(ts[0]) + CountChildLeaves(ts[1..])
  }

  ghost predicate DistinctSegments(ts: seq<Trie>) {
    forall i, j :: 0 <= i < j < |ts| ==> ts[i].segment != ts[j].segment
  }

  /** Path keys spell the path, siblings differ, and below each non-root node there is a leaf. */
  ghost predicate Grown(t: Trie, path: seq<string>)
    decreases t
  {
    && t.pathKey == JoinPath(path)
    && AreSegments(path)
    && DistinctSegments(t.children)
    && forall i :: 0 <= i < |t.children| ==>
         && Grown(t.children[i], path + [t.children[i].segment])
         && CountTrieLeaves(t.children[i]) > 0
  }

  // ---------------------------------------------------------------------------
  // Adding a leaf, on values.

  function FreshNode(segment: string, path: seq<string>): Trie {
    Node(segment, JoinPath(path), [], [])
  }

  function Insert(t: Trie, path: seq<string>, rest: seq<string>, leaf: Leaf): Trie
    decreases |rest|, |t.children| + 1
  {
    if rest == [] then t.(exact := t.exact + [leaf])
    else t.(children := InsertChild(t.children, path, rest, leaf))
  }

  function InsertChild(ts: seq<Trie>, path: seq<string>, rest: seq<string>, leaf: Leaf): seq<Trie>
    requires rest != []
    decreases |rest|, |ts|
  {
    var s := rest[0];
    if ts == [] then [Insert(FreshNode(s, path + [s]), path + [s], rest[1..], leaf)]
    else if ts[0].segment == s then [Insert(ts[0], path + [s], rest[1..], leaf)] + ts[1..]
    else [ts[0]] + InsertChild(ts[1..], path, rest, leaf)
  }

  const EMPTY_TRIE := Node("", "", [], [])

  lemma {:induction false} PlaceAllAppend<O>(at: seq<string>, a: seq<Leaf>, b: seq<Leaf>, note: Note<O>)
    ensures PlaceAll(at, a + b, note) == PlaceAll(at, a, note) + PlaceAll(at, b, note)
  {
    if a == [] {
      assert a + b == b;
    } else {
      assert (a + b)[1..] == a[1..] + b;
      PlaceAllAppend(at, a[1..], b, note);
    }
  }

  /** Adding a leaf adds exactly that leaf, at exactly that path. */
  lemma {:induction false} InsertAddsOne<O>(t: Trie, path: seq<string>, rest: seq<string>, leaf: Leaf, note: Note<O>)
    ensures Insert(t, path, rest, leaf).segment == t.segment
    ensures Entries(Insert(t, path, rest, leaf), path, note)
         == Entries(t, path, note) + multiset{note(path + rest, leaf)}
    decreases |rest|, |t.children| + 1
  {
    if rest == [] {
      PlaceAllAppend(path, t.exact, [leaf], note);
      assert path + rest == path;
    } else {
      InsertChildAddsOne(t.children, path, rest, leaf, note);
    }
  }

  lemma {:induction false} InsertChildAddsOne<O>(ts: seq<Trie>, path: seq<string>, rest: seq<string>, leaf: Leaf,
                                              note: Note<O>)
    requires rest != []
    ensures ChildEntries(InsertChild(ts, path, rest, leaf), path, note)
         == ChildEntries(ts, path, note) + multiset{note(path + rest, leaf)}
    decreases |rest|, |ts|
  {
    var s := rest[0];
    assert path + [s] + rest[1..] == path + rest;
    if ts == [] {
      InsertAddsOne(FreshNode(s, path + [s]), path + [s], rest[1..], leaf, note);
    } else if ts[0].segment == s {
      InsertAddsOne(ts[0], path + [s], rest[1..], leaf, note);
      var r := InsertChild(ts, path, rest, leaf);
      assert r[1..] == ts[1..];
    } else {
      InsertChildAddsOne(ts[1..], path, rest, leaf, note);
      var r := InsertChild(ts, path, rest, leaf);
      assert r[1..] == InsertChild(ts[1..], path, rest, leaf);
    }
  }

  lemma {:induction false} PlaceAllSize<O>(at: seq<string>, ls: seq<Leaf>, note: Note<O>)
    ensures |PlaceAll(at, ls, note)| == |ls|
  {
    if ls != [] { PlaceAllSize(at, ls[1..], note); }
  }

  lemma {:induction false} CountIsSize<O>(t: Trie, at: seq<string>, note: Note<O>)
    ensures CountTrieLeaves(t) == |Entries(t, at, note)|
    decreases t, 0
  {
    PlaceAllSize(at, t.exact, note);
    CountChildIsSize(t.children, at, note);
  }

  lemma {:induction false} CountChildIsSize<O>(ts: seq<Trie>, at: seq<string>, note: Note<O>)
    ensures CountChildLeaves(ts) == |ChildEntries(ts, at, note)|
    decreases ts, 1
  {
    if ts != [] {
      CountIsSize(ts[0], at + [ts[0].segment], note);
      CountChildIsSize(ts[1..], at, note);
    }
  }

  /** Adding a leaf keeps the trie grown, so no node without a leaf below it is ever left behind. */
  lemma {:induction false} InsertKeepsGrown(t: Trie, path: seq<string>, rest: seq<string>, leaf: Leaf)
    requires Grown(t, path) && AreSegments(rest)
    ensures Grown(Insert(t, path, rest, leaf), path)
    ensures CountTrieLeaves(Insert(t, path, rest, leaf)) > 0
    ensures Insert(t, path, rest, leaf).segment == t.segment
    decreases |rest|, |t.children| + 1
  {
    InsertAddsOne(t, path, rest, leaf, JustLeaf);
    CountIsSize(Insert(t, path, rest, leaf), path, JustLeaf);
    if rest != [] {
      InsertChildKeepsGrown(t.children, path, rest, leaf);
    }
  }

  /** Siblings that differ, grown below the path, and none of them empty. */
  ghost predicate GrownChildren(ts: seq<Trie>, path: seq<string>) {
    && DistinctSegments(ts)
    && forall i :: 0 <= i < |ts| ==> Grown(ts[i], path + [ts[i].segment]) && CountTrieLeaves(ts[i]) > 0
  }

  lemma GrownFirst(ts: seq<Trie>, path: seq<string>)
    requires ts != [] && GrownChildren(ts, path)
    ensures Grown(ts[0], path + [ts[0].segment]) && CountTrieLeaves(ts[0]) > 0 && GrownChildren(ts[1..], path)
    ensures forall i :: 0 < i < |ts| ==> ts[i].segment != ts[0].segment
  {
    hide Grown, CountTrieLeaves;
    assert forall i :: 0 <= i < |ts[1..]| ==> ts[1..][i] == ts[i + 1];
  }

  lemma GrownWithFirst(first: Trie, rest: seq<Trie>, path: seq<string>)
    requires Grown(first, path + [first.segment]) && CountTrieLeaves(first) > 0 && GrownChildren(rest, path)
    requires forall i :: 0 <= i < |rest| ==> rest[i].segment != first.segment
    ensures GrownChildren([first] + rest, path)
  {
    hide Grown, CountTrieLeaves;
  }

  lemma FreshIsGrown(segment: string, path: seq<string>)
    requires AreSegments(path)
    ensures Grown(FreshNode(segment, path), path)
  {
  }

  lemma {:induction false} InsertChildKeepsGrown(ts: seq<Trie>, path: seq<string>, rest: seq<string>, leaf: Leaf)
    requires rest != [] && AreSegments(path) && AreSegments(rest) && GrownChildren(ts, path)
    ensures var r := InsertChild(ts, path, rest, leaf);
            && GrownChildren(r, path)
            && (forall i :: 0 <= i < |r| ==> r[i].segment == rest[0] || exists j :: 0 <= j < |ts| && ts[j].segment == r[i].segment)
    decreases |rest|, |ts|
  {
    hide Grown, CountTrieLeaves, Insert, GrownChildren;
    var s := rest[0];
    assert IsSegment(s);
    if ts == [] {
      FreshIsGrown(s, path + [s]);
      InsertKeepsGrown(FreshNode(s, path + [s]), path + [s], rest[1..], leaf);
      var node := Insert(FreshNode(s, path + [s]), path + [s], rest[1..], leaf);
      GrownWithFirst(node, [], path);
      assert [node] + [] == [node];
    } else {
      GrownFirst(ts, path);
      assert forall i :: 0 <= i < |ts[1..]| ==> ts[1..][i] == ts[i + 1];
      if ts[0].segment == s {
        InsertKeepsGrown(ts[0], path + [s], rest[1..], leaf);
        GrownWithFirst(Insert(ts[0], path + [s], rest[1..], leaf), ts[1..], path);
      } else {
        InsertChildKeepsGrown(ts[1..], path, rest, leaf);
        GrownWithFirst(ts[0], InsertChild(ts[1..], path, rest, leaf), path);
      }
    }
  }
}
