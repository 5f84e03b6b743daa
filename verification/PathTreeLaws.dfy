/** What the transformation of a grown path trie keeps and guarantees. */
module PathTreeLaws {
  import opened Options
  import opened Text
  import opened PathTrie
  import opened PathTree
  import opened Sorting

  // ---------------------------------------------------------------------------
  // What a forest of sidebar nodes holds.

  ghost function ItemsOf<O>(n: TreeNode, note: Note<O>): multiset<O>
    decreases n, 0
  {
    match n
    case Item(leaf, at) => multiset{note(at, leaf)}
    case Group(_, _, children) => ItemsOfAll(children, note)
  }

  ghost function ItemsOfAll<O>(ns: seq<TreeNode>, note: Note<O>): multiset<O>
    decreases ns, 1
  {
    if ns == [] then multiset{} else ItemsOf(ns[0], note) + ItemsOfAll(ns[1..], note)
  }

  lemma {:induction false} ItemsOfConcat<O>(a: seq<TreeNode>, b: seq<TreeNode>, note: Note<O>)
    ensures ItemsOfAll(a + b, note) == ItemsOfAll(a, note) + ItemsOfAll(b, note)
  {
    if a == [] {
      assert a + b == b;
    } else {
      assert (a + b)[1..] == a[1..] + b;
      ItemsOfConcat(a[1..], b, note);
    }
  }

  lemma {:induction false} ItemsHoldLeaves<O>(leaves: seq<Leaf>, at: seq<string>, note: Note<O>)
    ensures ItemsOfAll(Items(leaves, at), note) == PlaceAll(at, leaves, note)
  {
    if leaves != [] {
      assert Items(leaves, at)[1..] == Items(leaves[1..], at);
      ItemsHoldLeaves(leaves[1..], at, note);
    }
  }

  // ---------------------------------------------------------------------------
  // Sorting loses nothing.

  lemma {:induction false} InsertedPlaced<O>(x: Leaf, ys: seq<Leaf>, before: (Leaf, Leaf) -> bool,
                                          at: seq<string>, note: Note<O>)
    ensures PlaceAll(at, InsertSorted(x, ys, before), note) == multiset{note(at, x)} + PlaceAll(at, ys, note)
  {
    var r := InsertSorted(x, ys, before);
    if ys == [] || !before(ys[0], x) {
      assert r[1..] == ys;
    } else {
      InsertedPlaced(x, ys[1..], before, at, note);
      assert r[1..] == InsertSorted(x, ys[1..], before);
    }
  }

  lemma {:induction false} SortedPlaced<O>(xs: seq<Leaf>, before: (Leaf, Leaf) -> bool, at: seq<string>, note: Note<O>)
    ensures PlaceAll(at, StableSort(xs, before), note) == PlaceAll(at, xs, note)
  {
    if xs != [] {
      SortedPlaced(xs[1..], before, at, note);
      InsertedPlaced(xs[0], StableSort(xs[1..], before), before, at, note);
    }
  }

  lemma SortedLeavesPlaced<O>(at: seq<string>, ls: seq<Leaf>, note: Note<O>)
    ensures PlaceAll(at, SortGroupLeaves(ls), note) == PlaceAll(at, ls, note)
  {
    SortedPlaced(ls, LeafBefore, at, note);
  }

  lemma {:induction false} InsertedEntries<O>(x: Trie, ys: seq<Trie>, before: (Trie, Trie) -> bool,
                                           at: seq<string>, note: Note<O>)
    ensures ChildEntries(InsertSorted(x, ys, before), at, note)
         == Entries(x, at + [x.segment], note) + ChildEntries(ys, at, note)
  {
    var r := InsertSorted(x, ys, before);
    if ys == [] || !before(ys[0], x) {
      assert r[1..] == ys;
    } else {
      InsertedEntries(x, ys[1..], before, at, note);
      assert r[1..] == InsertSorted(x, ys[1..], before);
    }
  }

  lemma {:induction false} SortedEntries<O>(xs: seq<Trie>, before: (Trie, Trie) -> bool, at: seq<string>, note: Note<O>)
    ensures ChildEntries(StableSort(xs, before), at, note) == ChildEntries(xs, at, note)
  {
    if xs != [] {
      SortedEntries(xs[1..], before, at, note);
      InsertedEntries(xs[0], StableSort(xs[1..], before), before, at, note);
    }
  }

  lemma SortedChildEntries<O>(ts: seq<Trie>, collate: string -> int, at: seq<string>, note: Note<O>)
    ensures ChildEntries(SortChildren(ts, collate), at, note) == ChildEntries(ts, at, note)
  {
    SortedEntries(ts, (a: Trie, b: Trie) => collate(a.segment) < collate(b.segment), at, note);
  }

  // ---------------------------------------------------------------------------
  // The children of a grown node.

  lemma SortedStaysGrown(ts: seq<Trie>, collate: string -> int, path: seq<string>)
    requires GrownChildren(ts, path)
    ensures GrownChildren(SortChildren(ts, collate), path)
  {
    var r := SortChildren(ts, collate);
    forall i | 0 <= i < |r| ensures Grown(r[i], path + [r[i].segment]) && CountTrieLeaves(r[i]) > 0 {
      assert r[i] in multiset(ts);
    }
    forall i, j | 0 <= i < j < |r| ensures r[i].segment != r[j].segment {
      OnceInSorted(ts, r, i, j);
    }
  }

  lemma {:induction false} DistinctCounts(ts: seq<Trie>, x: Trie)
    requires DistinctSegments(ts)
    ensures multiset(ts)[x] <= 1
  {
    if ts != [] {
      assert ts == [ts[0]] + ts[1..];
      DistinctCounts(ts[1..], x);
      if x == ts[0] {
        assert forall i :: 0 <= i < |ts[1..]| ==> ts[1..][i] == ts[i + 1];
      }
    }
  }

  lemma TwoOccurrences<T>(r: seq<T>, i: nat, j: nat)
    requires i < j < |r|
    ensures r[i] == r[j] ==> multiset(r)[r[i]] >= 2
  {
    assert r == r[..i] + [r[i]] + r[i + 1..j] + [r[j]] + r[j + 1..];
  }

  lemma OnceInSorted(ts: seq<Trie>, r: seq<Trie>, i: nat, j: nat)
    requires DistinctSegments(ts) && multiset(r) == multiset(ts) && i < j < |r|
    ensures r[i].segment != r[j].segment
  {
    TwoOccurrences(r, i, j);
    DistinctCounts(ts, r[i]);
    assert r[i] in multiset(ts) && r[j] in multiset(ts);
    var a :| 0 <= a < |ts| && ts[a] == r[i];
    var b :| 0 <= b < |ts| && ts[b] == r[j];
    assert a != b;
  }

  lemma {:induction false} ManyChildren(ts: seq<Trie>, path: seq<string>)
    requires GrownChildren(ts, path)
    ensures CountChildLeaves(ts) >= |ts|
  {
    if ts != [] {
      assert GrownChildren(ts[1..], path) by {
        assert forall i :: 0 <= i < |ts[1..]| ==> ts[1..][i] == ts[i + 1];
      }
      ManyChildren(ts[1..], path);
    }
  }

  // ---------------------------------------------------------------------------
  // Compression and flattening.

  ghost predicate Branching(t: Trie) {
    t.exact != [] || |t.children| >= 2
  }

  lemma SingleChildEntries<O>(t: Trie, at: seq<string>, note: Note<O>)
    requires t.exact == [] && |t.children| == 1
    ensures Entries(t, at, note) == Entries(t.children[0], at + [t.children[0].segment], note)
    ensures CountTrieLeaves(t) == CountTrieLeaves(t.children[0])
  {
    assert t.children[1..] == [];
    assert PlaceAll(at, t.exact, note) == multiset{};
    assert ChildEntries(t.children[1..], at, note) == multiset{};
    assert CountChildLeaves(t.children[1..]) == 0;
  }

  lemma LoneLeafEntries<O>(t: Trie, at: seq<string>, note: Note<O>)
    requires |t.exact| == 1 && t.children == []
    ensures Entries(t, at, note) == multiset{note(at, t.exact[0])}
  {
    assert t.exact[1..] == [];
    assert PlaceAll(at, t.exact[1..], note) == multiset{};
    assert ChildEntries(t.children, at, note) == multiset{};
  }

  lemma OnlyChildIsGrown(t: Trie, path: seq<string>)
    requires Grown(t, path) && |t.children| == 1
    ensures Grown(t.children[0], path + [t.children[0].segment]) && CountTrieLeaves(t.children[0]) > 0
  {
  }

  lemma OtherwiseBranching(t: Trie)
    requires CountTrieLeaves(t) > 0 && !(t.exact == [] && |t.children| == 1)
    ensures Branching(t)
  {
  }

  lemma {:induction false} CompressLaw<O>(t: Trie, segments: seq<string>, path: seq<string>, note: Note<O>)
    requires Grown(t, path) && CountTrieLeaves(t) > 0
    ensures var (c, s) := Compress(t, segments);
            && segments <= s
            && Grown(c, path + s[|segments|..])
            && CountTrieLeaves(c) > 0
            && Entries(c, s, note) == Entries(t, segments, note)
            && (segments != [] ==> Branching(c))
            && (segments == [] ==> c == t && s == [])
    decreases t
  {
    hide Grown, CountTrieLeaves, Entries, Branching;
    if segments != [] && t.exact == [] && |t.children| == 1 {
      var child := t.children[0];
      var next := segments + [child.segment];
      OnlyChildIsGrown(t, path);
      CompressLaw(child, next, path + [child.segment], note);
      SingleChildEntries(t, segments, note);
      var (c, s) := Compress(t, segments);
      assert s[|segments|] == next[|segments|] == child.segment;
      assert path + [child.segment] + s[|next|..] == path + s[|segments|..];
    } else {
      assert path + segments[|segments|..] == path;
      if segments != [] {
        OtherwiseBranching(t);
      }
    }
  }

  /** On a grown trie a node with one leaf below it flattens to that leaf, at its own path. */
  lemma {:induction false} FlattenLaw<O>(t: Trie, segments: seq<string>, path: seq<string>, note: Note<O>)
    requires Grown(t, path) && CountTrieLeaves(t) > 0
    ensures var r := FlattenSingleDescendant(t, segments);
            && (r.Some? <==> CountTrieLeaves(t) == 1)
            && (r.Some? ==> r.value.Item? && ItemsOf(r.value, note) == Entries(t, segments, note))
    decreases t
  {
    ManyChildren(t.children, path);
    if CountTrieLeaves(t) == 1 {
      if |t.exact| == 1 {
        LoneLeafEntries(t, segments, note);
      } else {
        SingleChildEntries(t, segments, note);
        FlattenLaw(t.children[0], segments + [t.children[0].segment], path + [t.children[0].segment], note);
      }
    }
  }

  // ---------------------------------------------------------------------------
  // Conservation.

  /** Every leaf of a grown trie comes out once, at its own path: none is lost or doubled. */
  lemma {:induction false} MaterializeConserves<O>(t: Trie, rootId: string, segments: seq<string>, path: seq<string>,
                                                collate: string -> int, note: Note<O>)
    requires Grown(t, path) && CountTrieLeaves(t) > 0
    ensures ItemsOfAll(Materialize(t, rootId, segments, collate), note) == Entries(t, segments, note)
    decreases Size(t), 0
  {
    CompressLaw(t, segments, path, note);
    var (c, s) := Compress(t, segments);
    var entries := SortChildren(c.children, collate);
    SizeOfSortedChildren(c.children, collate);
    var below := path + s[|segments|..];
    SortedStaysGrown(c.children, collate, below);
    var flat := |entries| == 1 && c.exact == [];
    ChildrenConserve(entries, rootId, s, flat, below, collate, note);
    SortedChildEntries(c.children, collate, s, note);
    var nodes := MaterializeChildren(entries, rootId, s, flat, collate);
    assert ItemsOfAll(nodes, note) == ChildEntries(c.children, s, note);
    MergedConserves(c, s, nodes, note);
    var merged := Items(SortGroupLeaves(c.exact), s) + nodes;
    FinishConserves(rootId, c, s, merged, note);
    assert Materialize(t, rootId, segments, collate) == Finish(rootId, c, s, merged);
  }

  lemma MergedConserves<O>(c: Trie, s: seq<string>, nodes: seq<TreeNode>, note: Note<O>)
    requires ItemsOfAll(nodes, note) == ChildEntries(c.children, s, note)
    ensures ItemsOfAll(Items(SortGroupLeaves(c.exact), s) + nodes, note) == Entries(c, s, note)
  {
    SortedLeavesPlaced(s, c.exact, note);
    ItemsHoldLeaves(SortGroupLeaves(c.exact), s, note);
    ItemsOfConcat(Items(SortGroupLeaves(c.exact), s), nodes, note);
  }

  lemma FinishConserves<O>(rootId: string, c: Trie, s: seq<string>, merged: seq<TreeNode>, note: Note<O>)
    ensures ItemsOfAll(Finish(rootId, c, s, merged), note) == ItemsOfAll(merged, note)
  {
    if s == [] && |merged| == 1 && merged[0].Group? {
      assert merged[1..] == [];
      assert ItemsOfAll(merged, note) == ItemsOf(merged[0], note);
    } else if s != [] {
      var r := Finish(rootId, c, s, merged);
      assert r[1..] == [];
      assert ItemsOfAll(r, note) == ItemsOf(r[0], note);
    }
  }

  lemma {:induction false} ChildrenConserve<O>(ts: seq<Trie>, rootId: string, segments: seq<string>, canFlatten: bool,
                                            path: seq<string>, collate: string -> int, note: Note<O>)
    requires GrownChildren(ts, path)
    ensures ItemsOfAll(MaterializeChildren(ts, rootId, segments, canFlatten, collate), note)
         == ChildEntries(ts, segments, note)
    decreases SizeAll(ts), 2, |ts|
  {
    hide Grown, CountTrieLeaves, GrownChildren, Entries, Materialize, FlattenSingleDescendant;
    if ts != [] {
      GrownFirst(ts, path);
      var at := segments + [ts[0].segment];
      FlattenLaw(ts[0], at, path + [ts[0].segment], note);
      MaterializeConserves(ts[0], rootId, at, path + [ts[0].segment], collate, note);
      ChildrenConserve(ts[1..], rootId, segments, canFlatten, path, collate, note);
      ChildConserves(ts[0], rootId, segments, canFlatten, collate, note);
      ItemsOfConcat(MaterializeChild(ts[0], rootId, segments, canFlatten, collate),
                    MaterializeChildren(ts[1..], rootId, segments, canFlatten, collate), note);
    }
  }

  lemma ChildConserves<O>(child: Trie, rootId: string, segments: seq<string>, canFlatten: bool,
                          collate: string -> int, note: Note<O>)
    requires var at := segments + [child.segment];
             && ItemsOfAll(Materialize(child, rootId, at, collate), note) == Entries(child, at, note)
             && var flat := FlattenSingleDescendant(child, at);
                flat.Some? ==> ItemsOf(flat.value, note) == Entries(child, at, note)
    ensures ItemsOfAll(MaterializeChild(child, rootId, segments, canFlatten, collate), note)
         == Entries(child, segments + [child.segment], note)
  {
    hide Materialize, FlattenSingleDescendant, Entries;
    var r := MaterializeChild(child, rootId, segments, canFlatten, collate);
    assert |r| == 1 ==> r[1..] == [];
  }

  // ---------------------------------------------------------------------------
  // Structure.

  /** No group below or at `n` is empty or holds nothing but one subgroup. */
  ghost predicate Tidy(n: TreeNode) {
    n.Group? ==>
      && n.children != []
      && !LoneGroup(n.children)
      && forall i :: 0 <= i < |n.children| ==> Tidy(n.children[i])
  }

  predicate LoneGroup(ns: seq<TreeNode>) {
    |ns| == 1 && ns[0].Group?
  }

  ghost predicate TidyAll(ns: seq<TreeNode>) {
    forall i :: 0 <= i < |ns| ==> Tidy(ns[i])
  }

  lemma MergedIsTidy(c: Trie, s: seq<string>, nodes: seq<TreeNode>)
    requires Branching(c) && |nodes| == |c.children| && TidyAll(nodes)
    ensures var merged := Items(SortGroupLeaves(c.exact), s) + nodes;
            TidyAll(merged) && merged != [] && !LoneGroup(merged)
  {
    var items := Items(SortGroupLeaves(c.exact), s);
    var merged := items + nodes;
    forall i | 0 <= i < |merged| ensures Tidy(merged[i]) {
      assert i >= |items| ==> merged[i] == nodes[i - |items|];
    }
    assert c.exact != [] ==> merged[0] == items[0];
  }

  /** The transformation without its two special cases: own leaves, then one group a child. */
  ghost function DirectTree(t: Trie, rootId: string, collate: string -> int): seq<TreeNode> {
    Items(SortGroupLeaves(t.exact), [])
    + MaterializeChildren(SortChildren(t.children, collate), rootId, [], false, collate)
  }

  /**
   From a branching start node, flattening and the collapse at the root never happen, every node
   below the start becomes one group, and no group is left with a lone subgroup.
   */
  lemma {:induction false} MaterializeIsTidy(t: Trie, rootId: string, segments: seq<string>,
                                             path: seq<string>, collate: string -> int)
    requires Grown(t, path) && CountTrieLeaves(t) > 0
    requires segments != [] || Branching(t)
    ensures var r := Materialize(t, rootId, segments, collate);
            && TidyAll(r)
            && (segments != [] <==> LoneGroup(r))
            && (segments == [] ==> r == DirectTree(t, rootId, collate))
    decreases Size(t), 0
  {
    CompressLaw(t, segments, path, JustLeaf);
    var (c, s) := Compress(t, segments);
    var entries := SortChildren(c.children, collate);
    SizeOfSortedChildren(c.children, collate);
    var below := path + s[|segments|..];
    SortedStaysGrown(c.children, collate, below);
    assert !(|entries| == 1 && c.exact == []);
    ChildrenAreTidy(entries, rootId, s, below, collate);
    var nodes := MaterializeChildren(entries, rootId, s, false, collate);
    MergedIsTidy(c, s, nodes);
    FinishIsTidy(rootId, c, s, Items(SortGroupLeaves(c.exact), s) + nodes);
  }

  lemma FinishIsTidy(rootId: string, c: Trie, s: seq<string>, merged: seq<TreeNode>)
    requires TidyAll(merged) && merged != [] && !LoneGroup(merged)
    ensures var r := Finish(rootId, c, s, merged);
            TidyAll(r) && (s != [] <==> LoneGroup(r)) && (s == [] ==> r == merged)
  {
  }

  lemma {:induction false} ChildrenAreTidy(ts: seq<Trie>, rootId: string, segments: seq<string>,
                                           path: seq<string>, collate: string -> int)
    requires GrownChildren(ts, path)
    ensures var r := MaterializeChildren(ts, rootId, segments, false, collate);
            && |r| == |ts| && TidyAll(r) && forall i :: 0 <= i < |r| ==> r[i].Group?
    decreases SizeAll(ts), 2, |ts|
  {
    hide Materialize, Grown, CountTrieLeaves, GrownChildren;
    if ts != [] {
      GrownFirst(ts, path);
      MaterializeIsTidy(ts[0], rootId, segments + [ts[0].segment], path + [ts[0].segment], collate);
      ChildrenAreTidy(ts[1..], rootId, segments, path, collate);
      TidyConcat(MaterializeChild(ts[0], rootId, segments, false, collate),
                 MaterializeChildren(ts[1..], rootId, segments, false, collate));
    }
  }

  lemma TidyConcat(first: seq<TreeNode>, rest: seq<TreeNode>)
    requires TidyAll(first) && LoneGroup(first)
    requires TidyAll(rest) && forall i :: 0 <= i < |rest| ==> rest[i].Group?
    ensures |first + rest| == 1 + |rest| && TidyAll(first + rest)
    ensures forall i :: 0 <= i < |first + rest| ==> (first + rest)[i].Group?
  {
  }

  // ---------------------------------------------------------------------------
  // Labels.

  /** Every group label below `n` is a prefix of what lies beneath it, and `s` is a prefix of all. */
  ghost predicate Under(n: TreeNode, s: seq<string>) {
    match n
    case Item(_, at) => s <= at
    case Group(_, name, children) =>
      name.PathLabel? && s <= name.segments
      && forall i :: 0 <= i < |children| ==> Under(children[i], name.segments)
  }

  ghost predicate AllUnder(ns: seq<TreeNode>, s: seq<string>) {
    forall i :: 0 <= i < |ns| ==> Under(ns[i], s)
  }

  lemma UnderShorter(n: TreeNode, s: seq<string>, s': seq<string>)
    requires Under(n, s) && s' <= s
    ensures Under(n, s')
  {
  }

  lemma {:induction false} FlattenedUnder(t: Trie, segments: seq<string>)
    ensures var r := FlattenSingleDescendant(t, segments); r.Some? ==> Under(r.value, segments)
    decreases t
  {
    if CountTrieLeaves(t) == 1 && |t.exact| != 1 && t.children != [] {
      FlattenedUnder(t.children[0], segments + [t.children[0].segment]);
    }
  }

  lemma {:induction false} CompressExtends(t: Trie, segments: seq<string>)
    ensures segments <= Compress(t, segments).1
    decreases t
  {
    if segments != [] && t.exact == [] && |t.children| == 1 {
      CompressExtends(t.children[0], segments + [t.children[0].segment]);
    }
  }

  lemma ItemsUnder(leaves: seq<Leaf>, s: seq<string>)
    ensures AllUnder(Items(leaves, s), s)
  {
  }

  lemma UnderConcat(first: seq<TreeNode>, rest: seq<TreeNode>, s: seq<string>)
    requires AllUnder(first, s) && AllUnder(rest, s)
    ensures AllUnder(first + rest, s)
  {
    hide Under;
  }

  lemma AllUnderShorter(ns: seq<TreeNode>, s: seq<string>, s': seq<string>)
    requires AllUnder(ns, s) && s' <= s
    ensures AllUnder(ns, s')
  {
    hide Under;
    forall i | 0 <= i < |ns| ensures Under(ns[i], s') {
      UnderShorter(ns[i], s, s');
    }
  }

  lemma FinishUnder(rootId: string, c: Trie, s: seq<string>, merged: seq<TreeNode>, segments: seq<string>)
    requires AllUnder(merged, s) && segments <= s
    ensures AllUnder(Finish(rootId, c, s, merged), segments)
  {
    if s == [] && LoneGroup(merged) {
      assert Under(merged[0], s);
      AllUnderShorter(merged[0].children, merged[0].name.segments, s);
    }
  }

  /** A path group's segments are a prefix of the path of every leaf beneath it. */
  lemma {:induction false} LabelsArePrefixes(t: Trie, rootId: string, segments: seq<string>, collate: string -> int)
    ensures AllUnder(Materialize(t, rootId, segments, collate), segments)
    decreases Size(t), 0
  {
    hide Compress, Finish, Items, MaterializeChildren, AllUnder, SortChildren, SortGroupLeaves;
    CompressExtends(t, segments);
    var (c, s) := Compress(t, segments);
    var entries := SortChildren(c.children, collate);
    SizeOfSortedChildren(c.children, collate);
    var flat := |entries| == 1 && c.exact == [];
    ChildLabelsArePrefixes(entries, rootId, s, flat, collate);
    ItemsUnder(SortGroupLeaves(c.exact), s);
    var items, rest := Items(SortGroupLeaves(c.exact), s), MaterializeChildren(entries, rootId, s, flat, collate);
    UnderConcat(items, rest, s);
    FinishUnder(rootId, c, s, items + rest, segments);
  }

  lemma {:induction false} ChildLabelsArePrefixes(ts: seq<Trie>, rootId: string, segments: seq<string>,
                                                  canFlatten: bool, collate: string -> int)
    ensures AllUnder(MaterializeChildren(ts, rootId, segments, canFlatten, collate), segments)
    decreases SizeAll(ts), 2, |ts|
  {
    if ts != [] {
      var at := segments + [ts[0].segment];
      FlattenedUnder(ts[0], at);
      LabelsArePrefixes(ts[0], rootId, at, collate);
      ChildLabelsArePrefixes(ts[1..], rootId, segments, canFlatten, collate);
      ChildUnder(ts[0], rootId, segments, canFlatten, collate);
      UnderConcat(MaterializeChild(ts[0], rootId, segments, canFlatten, collate),
                  MaterializeChildren(ts[1..], rootId, segments, canFlatten, collate), segments);
    }
  }

  lemma ChildUnder(child: Trie, rootId: string, segments: seq<string>, canFlatten: bool, collate: string -> int)
    requires var at := segments + [child.segment];
             && AllUnder(Materialize(child, rootId, at, collate), at)
             && var flat := FlattenSingleDescendant(child, at); flat.Some? ==> Under(flat.value, at)
    ensures AllUnder(MaterializeChild(child, rootId, segments, canFlatten, collate), segments)
  {
    hide Materialize, FlattenSingleDescendant, AllItems;
    var at := segments + [child.segment];
    AllUnderShorter(MaterializeChild(child, rootId, segments, canFlatten, collate), at, segments);
  }

  // ---------------------------------------------------------------------------
  // Group ids.

  ghost function GroupIds(n: TreeNode): multiset<string>
    decreases n, 0
  {
    match n
    case Item(_, _) => multiset{}
    case Group(id, _, children) => multiset{id} + GroupIdsOfAll(children)
  }

  ghost function GroupIdsOfAll(ns: seq<TreeNode>): multiset<string>
    decreases ns, 1
  {
    if ns == [] then multiset{} else GroupIds(ns[0]) + GroupIdsOfAll(ns[1..])
  }

  lemma {:induction false} GroupIdsConcat(a: seq<TreeNode>, b: seq<TreeNode>)
    ensures GroupIdsOfAll(a + b) == GroupIdsOfAll(a) + GroupIdsOfAll(b)
  {
    if a == [] {
      assert a + b == b;
    } else {
      assert (a + b)[1..] == a[1..] + b;
      GroupIdsConcat(a[1..], b);
    }
  }

  lemma {:induction false} ItemsHaveNoGroups(ns: seq<TreeNode>)
    requires AllItems(ns)
    ensures GroupIdsOfAll(ns) == multiset{}
  {
    if ns != [] {
      assert AllItems(ns[1..]) by { assert forall i :: 0 <= i < |ns[1..]| ==> ns[1..][i] == ns[i + 1]; }
      ItemsHaveNoGroups(ns[1..]);
    }
  }

  function GroupId(rootId: string, q: seq<string>): string {
    rootId + ":path:" + JoinPath(q)
  }

  lemma GroupIdIsInjective(rootId: string, q: seq<string>, r: seq<string>)
    requires AreSegments(q) && AreSegments(r) && GroupId(rootId, q) == GroupId(rootId, r)
    ensures q == r
  {
    var n := |rootId + ":path:"|;
    assert JoinPath(q) == GroupId(rootId, q)[n..];
    assert JoinPath(r) == GroupId(rootId, r)[n..];
    JoinIsInjective(q, r);
  }

  /** `id` names a path that goes from `path` into one of the children called `names`. */
  ghost predicate NamesInto(id: string, rootId: string, path: seq<string>, names: set<string>) {
    exists q {:trigger GroupId(rootId, q)} ::
      AreSegments(q) && |path| < |q| && path <= q && q[|path|] in names && id == GroupId(rootId, q)
  }

  ghost predicate IdsInto(ids: multiset<string>, rootId: string, path: seq<string>, names: set<string>) {
    forall id :: id in ids ==> ids[id] == 1 && NamesInto(id, rootId, path, names)
  }

  /** `id` names `path` or a path below it. */
  ghost predicate NamesAt(id: string, rootId: string, path: seq<string>) {
    exists q {:trigger GroupId(rootId, q)} :: AreSegments(q) && path <= q && id == GroupId(rootId, q)
  }

  ghost predicate IdsAt(ids: multiset<string>, rootId: string, path: seq<string>) {
    forall id :: id in ids ==> ids[id] == 1 && NamesAt(id, rootId, path)
  }

  ghost function Names(ts: seq<Trie>): set<string> {
    set i | 0 <= i < |ts| :: ts[i].segment
  }

  lemma NamesIntoIsExclusive(id: string, rootId: string, path: seq<string>, a: set<string>, b: set<string>)
    requires NamesInto(id, rootId, path, a) && a !! b
    ensures !NamesInto(id, rootId, path, b)
  {
    var q :| AreSegments(q) && |path| < |q| && path <= q && q[|path|] in a && id == GroupId(rootId, q);
    forall r | AreSegments(r) && id == GroupId(rootId, r) ensures r == q {
      GroupIdIsInjective(rootId, q, r);
    }
  }

  lemma AtIsInto(id: string, rootId: string, path: seq<string>, s: string)
    requires NamesAt(id, rootId, path + [s])
    ensures NamesInto(id, rootId, path, {s})
  {
    var q :| AreSegments(q) && path + [s] <= q && id == GroupId(rootId, q);
    assert q[|path|] == s && path <= q;
  }

  lemma OwnIdIsNotBelow(rootId: string, path: seq<string>, names: set<string>)
    requires AreSegments(path)
    ensures !NamesInto(GroupId(rootId, path), rootId, path, names)
  {
    forall r | AreSegments(r) && GroupId(rootId, path) == GroupId(rootId, r) ensures r == path {
      GroupIdIsInjective(rootId, path, r);
    }
  }

  /** No two groups of a bucket share an id: the ids are injective images of distinct trie paths. */
  lemma {:induction false} GroupIdsAreUnique(t: Trie, rootId: string, segments: seq<string>,
                                             path: seq<string>, collate: string -> int)
    requires Grown(t, path) && CountTrieLeaves(t) > 0 && (segments != [] ==> path != [])
    ensures IdsAt(GroupIdsOfAll(Materialize(t, rootId, segments, collate)), rootId, path)
    decreases Size(t), 0
  {
    hide Compress, Finish, Items, MaterializeChildren, GroupIdsOfAll, IdsInto, IdsAt, SortGroupLeaves;
    CompressLaw(t, segments, path, JustLeaf);
    var (c, s) := Compress(t, segments);
    var below := path + s[|segments|..];
    var entries := SortChildren(c.children, collate);
    SizeOfSortedChildren(c.children, collate);
    SortedStaysGrown(c.children, collate, below);
    var flat := |entries| == 1 && c.exact == [];
    ChildIdsAreUnique(entries, rootId, s, flat, below, collate);
    var nodes := MaterializeChildren(entries, rootId, s, flat, collate);
    ItemsAddNoIds(SortGroupLeaves(c.exact), s, nodes);
    FinishIds(rootId, c, s, Items(SortGroupLeaves(c.exact), s) + nodes, path, below, Names(entries));
  }

  lemma ItemsAddNoIds(leaves: seq<Leaf>, at: seq<string>, nodes: seq<TreeNode>)
    ensures GroupIdsOfAll(Items(leaves, at) + nodes) == GroupIdsOfAll(nodes)
  {
    ItemsHaveNoGroups(Items(leaves, at));
    GroupIdsConcat(Items(leaves, at), nodes);
  }

  lemma LoneGroupIds(ns: seq<TreeNode>)
    requires LoneGroup(ns)
    ensures GroupIdsOfAll(ns) == multiset{ns[0].id} + GroupIdsOfAll(ns[0].children)
  {
    assert ns[1..] == [];
    assert GroupIdsOfAll(ns[1..]) == multiset{};
  }

  lemma FinishIds(rootId: string, c: Trie, s: seq<string>, merged: seq<TreeNode>,
                  path: seq<string>, below: seq<string>, names: set<string>)
    requires Grown(c, below) && path <= below && (s != [] ==> below != [])
    requires IdsInto(GroupIdsOfAll(merged), rootId, below, names)
    ensures IdsAt(GroupIdsOfAll(Finish(rootId, c, s, merged)), rootId, path)
  {
    var ids := GroupIdsOfAll(merged);
    forall id | id in ids ensures NamesAt(id, rootId, path) {
      assert NamesInto(id, rootId, below, names);
    }
    if s == [] {
      if LoneGroup(merged) {
        LoneGroupIds(merged);
        forall id | id in GroupIdsOfAll(merged[0].children)
          ensures GroupIdsOfAll(merged[0].children)[id] == 1 && NamesAt(id, rootId, path)
        {
          assert id in ids && ids[id] == 1;
        }
      }
    } else {
      JoinHasSlash(below);
      LoneGroupIds(Finish(rootId, c, s, merged));
      OwnIdIsNotBelow(rootId, below, names);
      assert NamesAt(GroupId(rootId, below), rootId, path);
    }
  }

  lemma {:induction false} ChildIdsAreUnique(ts: seq<Trie>, rootId: string, segments: seq<string>, canFlatten: bool,
                                             path: seq<string>, collate: string -> int)
    requires GrownChildren(ts, path)
    ensures IdsInto(GroupIdsOfAll(MaterializeChildren(ts, rootId, segments, canFlatten, collate)), rootId, path, Names(ts))
    decreases SizeAll(ts), 2, |ts|
  {
    if ts != [] {
      assert forall i :: 0 <= i < |ts[1..]| ==> ts[1..][i] == ts[i + 1];
      ChildIdsAreUnique(ts[1..], rootId, segments, canFlatten, path, collate);
      ChildIds(ts[0], rootId, segments, canFlatten, path, collate);
      var first := MaterializeChild(ts[0], rootId, segments, canFlatten, collate);
      var rest := MaterializeChildren(ts[1..], rootId, segments, canFlatten, collate);
      GroupIdsConcat(first, rest);
      NamesSplit(ts);
      JoinIds(GroupIdsOfAll(first), GroupIdsOfAll(rest), rootId, path, ts[0].segment, Names(ts[1..]));
    }
  }

  lemma {:induction false} ChildIds(child: Trie, rootId: string, segments: seq<string>, canFlatten: bool,
                                    path: seq<string>, collate: string -> int)
    requires Grown(child, path + [child.segment]) && CountTrieLeaves(child) > 0
    ensures IdsAt(GroupIdsOfAll(MaterializeChild(child, rootId, segments, canFlatten, collate)), rootId, path + [child.segment])
    decreases Size(child), 1
  {
    var at := segments + [child.segment];
    FlattenLaw(child, at, path + [child.segment], JustLeaf);
    GroupIdsAreUnique(child, rootId, at, path + [child.segment], collate);
    var flattened := if canFlatten then FlattenSingleDescendant(child, at) else None;
    if flattened.Some? {
      ItemsHaveNoGroups(MaterializeChild(child, rootId, segments, canFlatten, collate));
    }
  }

  lemma NamesSplit(ts: seq<Trie>)
    requires ts != [] && DistinctSegments(ts)
    ensures ts[0].segment !in Names(ts[1..])
    ensures Names(ts) == {ts[0].segment} + Names(ts[1..])
  {
    assert forall i :: 0 <= i < |ts[1..]| ==> ts[1..][i] == ts[i + 1];
    forall n | n in Names(ts) ensures n in {ts[0].segment} + Names(ts[1..]) {
      var i :| 0 <= i < |ts| && ts[i].segment == n;
      assert i > 0 ==> ts[1..][i - 1].segment == n;
    }
  }

  lemma JoinIds(a: multiset<string>, b: multiset<string>, rootId: string, path: seq<string>, s: string, names: set<string>)
    requires IdsAt(a, rootId, path + [s]) && IdsInto(b, rootId, path, names) && s !in names
    ensures IdsInto(a + b, rootId, path, {s} + names)
  {
    forall id | id in a + b ensures (a + b)[id] == 1 && NamesInto(id, rootId, path, {s} + names) {
      if id in a {
        AtIsInto(id, rootId, path, s);
        NamesIntoIsExclusive(id, rootId, path, {s}, names);
        Widen(id, rootId, path, {s}, {s} + names);
      } else {
        Widen(id, rootId, path, names, {s} + names);
      }
    }
  }

  lemma Widen(id: string, rootId: string, path: seq<string>, a: set<string>, b: set<string>)
    requires NamesInto(id, rootId, path, a) && a <= b
    ensures NamesInto(id, rootId, path, b)
  {
    var q :| AreSegments(q) && |path| < |q| && path <= q && q[|path|] in a && id == GroupId(rootId, q);
  }
}
