/**
 From the path trie of one bucket to its sidebar nodes: common-prefix stripping,
 path compression, flattening and the collapse at the root.
 */
module PathTree {
  import opened Options
  import opened Text
  import opened PathTrie
  import opened Sorting

  /** A path label prints as `/a/b/`; a bucket label is its text followed by the stripped prefix. */
  datatype GroupLabel = PathLabel(segments: seq<string>) | BucketLabel(text: string, prefix: seq<string>)

  /** `at` is the path, relative to the start node, that the leaf was placed under. */
  datatype TreeNode = Group(id: string, name: GroupLabel, children: seq<TreeNode>) | Item(leaf: Leaf, at: seq<string>)

  // ---------------------------------------------------------------------------
  // The order of leaves and of subgroups.

  predicate KeyBefore(a: SortKey, b: SortKey) {
    if a.manualOrder != b.manualOrder then a.manualOrder < b.manualOrder
    else if a.methodOrder != b.methodOrder then a.methodOrder < b.methodOrder
    else if a.targetRank != b.targetRank then a.targetRank < b.targetRank
    else a.labelRank < b.labelRank
  }

  predicate LeafBefore(a: Leaf, b: Leaf) {
    KeyBefore(a.key, b.key)
  }

  function SortGroupLeaves(leaves: seq<Leaf>): (r: seq<Leaf>)
    ensures multiset(r) == multiset(leaves) && |r| == |leaves|
  {
    StableSort(leaves, LeafBefore)
  }

  function SortChildren(ts: seq<Trie>, collate: string -> int): (r: seq<Trie>)
    ensures multiset(r) == multiset(ts) && |r| == |ts|
  {
    StableSort(ts, (a: Trie, b: Trie) => collate(a.segment) < collate(b.segment))
  }

  // ---------------------------------------------------------------------------
  // The number of nodes, which bounds the recursion.

  ghost function Size(t: Trie): (n: nat)
    ensures n > 0
    decreases t, 0
  {
    1 + SizeAll(t.children)
  }

  ghost function SizeAll(ts: seq<Trie>): nat
    decreases ts, 1
  {
    if ts == [] then 0 else Size(ts[0]) + SizeAll(ts[1..])
  }

  lemma {:induction false} SizeOfInserted(x: Trie, ys: seq<Trie>, before: (Trie, Trie) -> bool)
    ensures SizeAll(InsertSorted(x, ys, before)) == Size(x) + SizeAll(ys)
  {
    var r := InsertSorted(x, ys, before);
    if ys == [] || !before(ys[0], x) {
      assert r[1..] == ys;
    } else {
      SizeOfInserted(x, ys[1..], before);
      assert r[1..] == InsertSorted(x, ys[1..], before);
    }
  }

  lemma {:induction false} SizeOfSorted(xs: seq<Trie>, before: (Trie, Trie) -> bool)
    ensures SizeAll(StableSort(xs, before)) == SizeAll(xs)
  {
    if xs != [] {
      SizeOfSorted(xs[1..], before);
      SizeOfInserted(xs[0], StableSort(xs[1..], before), before);
    }
  }

  lemma SizeOfSortedChildren(ts: seq<Trie>, collate: string -> int)
    ensures SizeAll(SortChildren(ts, collate)) == SizeAll(ts)
  {
    SizeOfSorted(ts, (a: Trie, b: Trie) => collate(a.segment) < collate(b.segment));
  }

  // ---------------------------------------------------------------------------
  // The transformation.

  /** The path-compression loop: below the start, follow single children of nodes without leaves. */
  function Compress(t: Trie, segments: seq<string>): (r: (Trie, seq<string>))
    ensures Size(r.0) <= Size(t)
    decreases t
  {
    if segments != [] && t.exact == [] && |t.children| == 1 then
      Compress(t.children[0], segments + [t.children[0].segment])
    else (t, segments)
  }

  function FlattenSingleDescendant(t: Trie, segments: seq<string>): Option<TreeNode>
    decreases t
  {
    if CountTrieLeaves(t) != 1 then None
    else if |t.exact| == 1 then Some(Item(t.exact[0], segments))
    else if t.children == [] then None
    else FlattenSingleDescendant(t.children[0], segments + [t.children[0].segment])
  }

  function Items(leaves: seq<Leaf>, at: seq<string>): seq<TreeNode> {
    seq(|leaves|, i requires 0 <= i < |leaves| => Item(leaves[i], at))
  }

  function Materialize(t: Trie, rootId: string, inherited: seq<string>, collate: string -> int): seq<TreeNode>
    decreases Size(t), 0
  {
    var (node, segments) := Compress(t, inherited);
    var entries := SortChildren(node.children, collate);
    SizeOfSortedChildren(node.children, collate);
    var merged := Items(SortGroupLeaves(node.exact), segments)
                + MaterializeChildren(entries, rootId, segments, |entries| == 1 && node.exact == [], collate);
    Finish(rootId, node, segments, merged)
  }

  /** At the start node the merged children, with a lone group of leaves collapsed; else one group. */
  function Finish(rootId: string, node: Trie, segments: seq<string>, merged: seq<TreeNode>): seq<TreeNode> {
    if segments == [] then
      if |merged| == 1 && merged[0].Group? && AllItems(merged[0].children) then merged[0].children else merged
    else
      [Group(rootId + ":path:" + (if node.pathKey != "" then node.pathKey else JoinPath(segments)),
             PathLabel(segments), merged)]
  }

  function MaterializeChildren(ts: seq<Trie>, rootId: string, segments: seq<string>, canFlatten: bool,
                               collate: string -> int): seq<TreeNode>
    decreases SizeAll(ts), 2, |ts|
  {
    if ts == [] then []
    else
      MaterializeChild(ts[0], rootId, segments, canFlatten, collate)
      + MaterializeChildren(ts[1..], rootId, segments, canFlatten, collate)
  }

  function MaterializeChild(child: Trie, rootId: string, segments: seq<string>, canFlatten: bool,
                            collate: string -> int): seq<TreeNode>
    decreases Size(child), 1
  {
    var path := segments + [child.segment];
    var flattened := if canFlatten then FlattenSingleDescendant(child, path) else None;
    if flattened.Some? then [flattened.value] else Materialize(child, rootId, path, collate)
  }

  predicate AllItems(nodes: seq<TreeNode>) {
    forall i :: 0 <= i < |nodes| ==> nodes[i].Item?
  }

  /** The compression loop. */
  method CompressPath(t: Trie, segments: seq<string>) returns (currentNode: Trie, currentSegments: seq<string>)
    ensures (currentNode, currentSegments) == Compress(t, segments)
  {
    currentNode, currentSegments := t, segments;
    while currentSegments != [] && currentNode.exact == [] && |currentNode.children| == 1
      invariant Compress(currentNode, currentSegments) == Compress(t, segments)
      decreases currentNode
    {
      var onlyChild := currentNode.children[0];
      currentNode := onlyChild;
      currentSegments := currentSegments + [onlyChild.segment];
    }
  }

  lemma MaterializeChildrenStep(ts: seq<Trie>, k: nat, rootId: string, segments: seq<string>, canFlatten: bool,
                                collate: string -> int)
    requires k < |ts|
    ensures Size(ts[k]) <= SizeAll(ts[k..])
    ensures SizeAll(ts[k + 1..]) < SizeAll(ts[k..])
    ensures MaterializeChildren(ts[k..], rootId, segments, canFlatten, collate)
         == MaterializeChild(ts[k], rootId, segments, canFlatten, collate)
          + MaterializeChildren(ts[k + 1..], rootId, segments, canFlatten, collate)
  {
    assert ts[k..][1..] == ts[k + 1..];
  }

  lemma ConcatAssociates<T>(a: seq<T>, b: seq<T>, c: seq<T>)
    ensures a + (b + c) == a + b + c
  {
  }

  /** The loop over the sorted children. */
  method MaterializeEntries(ts: seq<Trie>, rootId: string, segments: seq<string>, canFlatten: bool,
                            collate: string -> int)
    returns (childNodes: seq<TreeNode>)
    ensures childNodes == MaterializeChildren(ts, rootId, segments, canFlatten, collate)
    decreases SizeAll(ts), 2
  {
    childNodes := [];
    ghost var all := MaterializeChildren(ts, rootId, segments, canFlatten, collate);
    assert ts[0..] == ts;
    for k := 0 to |ts|
      invariant SizeAll(ts[k..]) <= SizeAll(ts)
      invariant childNodes + MaterializeChildren(ts[k..], rootId, segments, canFlatten, collate) == all
    {
      MaterializeChildrenStep(ts, k, rootId, segments, canFlatten, collate);
      var childSegments := segments + [ts[k].segment];
      var flattened := if canFlatten then FlattenSingleDescendant(ts[k], childSegments) else None;
      var below: seq<TreeNode>;
      if flattened.Some? {
        below := [flattened.value];
      } else {
        below := MaterializeHttpNodes(ts[k], rootId, childSegments, collate);
      }
      ghost var rest := MaterializeChildren(ts[k + 1..], rootId, segments, canFlatten, collate);
      ConcatAssociates(childNodes, below, rest);
      childNodes := childNodes + below;
    }
  }

  /** The same transformation in steps, over the nodes of a finished trie. */
  method MaterializeHttpNodes(t: Trie, rootId: string, inherited: seq<string>, collate: string -> int)
    returns (nodes: seq<TreeNode>)
    ensures nodes == Materialize(t, rootId, inherited, collate)
    decreases Size(t), 0
  {
    var currentNode, currentSegments := CompressPath(t, inherited);
    var exactLeaves := Items(SortGroupLeaves(currentNode.exact), currentSegments);
    var childEntries := SortChildren(currentNode.children, collate);
    SizeOfSortedChildren(currentNode.children, collate);
    var canFlattenChildPath := |childEntries| == 1 && exactLeaves == [];
    var childNodes := MaterializeEntries(childEntries, rootId, currentSegments, canFlattenChildPath, collate);
    var mergedChildren := exactLeaves + childNodes;
    if currentSegments == [] {
      if |mergedChildren| == 1 && mergedChildren[0].Group? {
        var onlyGroup := mergedChildren[0];
        if AllItems(onlyGroup.children) {
          return onlyGroup.children;
        }
      }
      return mergedChildren;
    }
    var key := if currentNode.pathKey != "" then currentNode.pathKey else JoinPath(currentSegments);
    return [Group(rootId + ":path:" + key, PathLabel(currentSegments), mergedChildren)];
  }
}
