/**
 The sidebar trees of publishers and consumers: endpoints are sorted into buckets, every bucket
 becomes a group or a lone leaf.
 */
module Sidebar {
  import opened Options
  import opened Text
  import opened PathTrie
  import opened PathTrieHeap
  import opened PathTree
  import opened PathTreeLaws
  import opened Sorting
  import opened BucketTree
  import opened PathSegments

  // ---------------------------------------------------------------------------
  // Entries and their buckets.

  /**
   What grouping reads off one endpoint: its kind, the rest of its bucket key, its HTTP path, the
   label a new bucket would get and its leaf.
   */
  datatype SidebarEntry = SidebarEntry(kind: string, target: string, path: string, text: string, leaf: Leaf)

  predicate IsHttp(e: SidebarEntry) {
    e.kind == "http"
  }

  function BucketId(e: SidebarEntry): string {
    e.kind + ":" + e.target
  }

  function NewBucket(e: SidebarEntry): BucketValue {
    if IsHttp(e) then HttpBucket(e.text) else PlainBucket(e.text)
  }

  function AddEntry(b: BucketValue, e: SidebarEntry): BucketValue {
    if IsHttp(e) then AddHttp(b, SplitPathSegments(e.path), e.leaf) else AddPlain(b, e.leaf)
  }

  /** What the entries put into bucket `id`. */
  function BucketOf(es: seq<SidebarEntry>, id: string): Option<BucketValue> {
    if es == [] then None
    else
      var before, e := BucketOf(es[..|es| - 1], id), es[|es| - 1];
      if BucketId(e) != id then before
      else Some(AddEntry(if before.Some? then before.value else NewBucket(e), e))
  }

  /** The bucket ids in order of first use. */
  function Ids(es: seq<SidebarEntry>): seq<string> {
    if es == [] then []
    else
      var before, id := Ids(es[..|es| - 1]), BucketId(es[|es| - 1]);
      if id in before then before else before + [id]
  }

  lemma {:induction false} IdsLaw(es: seq<SidebarEntry>)
    ensures DistinctNames(Ids(es))
    ensures forall id :: id in Ids(es) <==> BucketOf(es, id).Some?
  {
    if es != [] { IdsLaw(es[..|es| - 1]); }
  }

  // ---------------------------------------------------------------------------
  // The tree.

  function BucketPrefix(b: BucketValue): seq<string> {
    if b.root.Some? && b.paths.Some? then CommonPrefix(b.paths.value) else []
  }

  function BucketChildren(b: BucketValue, id: string, collate: string -> int): seq<TreeNode> {
    if b.root.Some? then Materialize(StartNode(b.root.value, BucketPrefix(b)), id, [], collate)
    else Items(SortGroupLeaves(b.leaves), [])
  }

  /** A bucket that comes down to one leaf is that leaf. */
  function TopNode(b: BucketValue, id: string, collate: string -> int): TreeNode {
    var children := BucketChildren(b, id, collate);
    if |children| == 1 && children[0].Item? then children[0]
    else Group(id, BucketLabel(b.text, BucketPrefix(b)), children)
  }

  function BucketText(es: seq<SidebarEntry>, id: string): string {
    match BucketOf(es, id) case Some(b) => b.text case None => ""
  }

  function SortedIds(es: seq<SidebarEntry>, collate: string -> int): seq<string> {
    StableSort(Ids(es), (a: string, b: string) => collate(BucketText(es, a)) < collate(BucketText(es, b)))
  }

  function TopNodes(es: seq<SidebarEntry>, ids: seq<string>, collate: string -> int): seq<TreeNode> {
    if ids == [] then []
    else
      (match BucketOf(es, ids[0]) case Some(b) => [TopNode(b, ids[0], collate)] case None => [])
      + TopNodes(es, ids[1..], collate)
  }

  function Tree(es: seq<SidebarEntry>, collate: string -> int): seq<TreeNode> {
    TopNodes(es, SortedIds(es, collate), collate)
  }

  // ---------------------------------------------------------------------------
  // The builder: buckets are objects in an insertion-ordered table, filled entry by entry.

  class BucketTable {
    var groups: map<string, GroupBucket>
    var order: seq<string>
    ghost var values: map<string, BucketValue>
    ghost var objects: set<object>

    ghost predicate BucketOk(id: string)
      requires id in groups && id in values
      reads this, objects
    {
      && groups[id] in objects
      && groups[id].repr <= objects
      && groups[id].Valid()
      && groups[id].Value() == values[id]
    }

    ghost predicate Apart(a: string, b: string)
      requires a in groups && b in groups
      reads this, groups[a], groups[b]
    {
      groups[a] != groups[b] && groups[a].repr !! groups[b].repr
    }

    /** Every bucket is as recorded in `values`, and no two share an object. */
    ghost predicate Valid()
      reads this, objects
    {
      && this !in objects
      && values.Keys == groups.Keys
      && (forall id :: id in groups ==> groups[id] in objects)
      && (forall id {:trigger BucketOk(id)} :: id in groups ==> BucketOk(id))
      && (forall a, b {:trigger Apart(a, b)} :: a in groups && b in groups && a != b ==> Apart(a, b))
    }

    constructor ()
      ensures Valid() && fresh(objects) && values == map[] && order == []
    {
      groups, order, values := map[], [], map[];
      objects := {};
    }

    method Adopt(id: string, bucket: GroupBucket)
      requires Valid() && id !in groups && bucket.Valid()
      requires bucket !in objects && bucket as object != this && bucket.repr !! objects
      modifies this
      ensures Valid() && groups == old(groups)[id := bucket] && order == old(order) + [id]
      ensures objects == old(objects) + {bucket} + bucket.repr
      ensures values == old(values)[id := bucket.Value()]
    {
      hide GroupBucket.Valid, GroupBucket.Value;
      groups := groups[id := bucket];
      order := order + [id];
      values := values[id := bucket.Value()];
      objects := objects + {bucket} + bucket.repr;
      assert BucketOk(id);
      forall k | k in groups && k != id ensures BucketOk(k) && Apart(k, id) && Apart(id, k) {
        assert old(BucketOk(k));
      }
      hide BucketTable.BucketOk;
      forall a, b | a in groups && b in groups && a != b ensures Apart(a, b) {
        if a != id && b != id {
          assert old(Apart(a, b));
        }
      }
    }

    /** `getOrCreateBucket`: a bucket is built on every call and dropped when its id is taken. */
    method GetOrCreateBucket(e: SidebarEntry) returns (bucket: GroupBucket)
      requires Valid()
      modifies this
      ensures Valid() && fresh(objects - old(objects))
      ensures BucketId(e) in groups && bucket == groups[BucketId(e)]
      ensures order == old(if BucketId(e) in groups then order else order + [BucketId(e)])
      ensures values == old(if BucketId(e) in groups then values else values[BucketId(e) := NewBucket(e)])
    {
      hide GroupBucket.Valid, GroupBucket.Value, BucketTable.Valid, BucketId;
      var id := BucketId(e);
      var candidate: GroupBucket;
      if IsHttp(e) {
        candidate := new GroupBucket.Http(id, e.text);
      } else {
        candidate := new GroupBucket.Plain(id, e.text);
      }
      if id in groups {
        bucket := groups[id];
      } else {
        bucket := candidate;
        Adopt(id, bucket);
      }
    }

    /** One turn of the `forEach` over the endpoints. */
    method Add(e: SidebarEntry)
      requires Valid()
      modifies this, objects
      ensures Valid() && fresh(objects - old(objects))
      ensures order == old(if BucketId(e) in groups then order else order + [BucketId(e)])
      ensures values == old(values)[BucketId(e) :=
                AddEntry(if BucketId(e) in old(values) then old(values)[BucketId(e)] else NewBucket(e), e)]
    {
      var bucket := GetOrCreateBucket(e);
      Fill(bucket, e);
    }

    method Fill(bucket: GroupBucket, e: SidebarEntry)
      requires Valid() && BucketId(e) in groups && bucket == groups[BucketId(e)]
      modifies this`values, this`objects, objects
      ensures Valid() && fresh(objects - old(objects))
      ensures values == old(values)[BucketId(e) := AddEntry(old(values)[BucketId(e)], e)]
    {
      hide GroupBucket.Valid, GroupBucket.Value, AddEntry;
      var id := BucketId(e);
      assert BucketOk(id);
      FillBucket(bucket, e);
      values := values[id := AddEntry(values[id], e)];
      objects := objects + bucket.repr;
      assert BucketOk(id);
      forall k | k in groups && k != id
        ensures BucketOk(k) && Apart(k, id) && Apart(id, k) && groups[k].repr == old(groups[k].repr)
      {
        assert old(BucketOk(k)) && old(Apart(k, id));
      }
      hide BucketTable.BucketOk;
      forall a, b | a in groups && b in groups && a != b ensures Apart(a, b) {
        if a != id && b != id {
          assert old(Apart(a, b));
        }
      }
    }
  }

  method FillBucket(bucket: GroupBucket, e: SidebarEntry)
    requires bucket.Valid()
    modifies bucket, bucket.repr
    ensures bucket.Valid() && bucket.Value() == AddEntry(old(bucket.Value()), e)
    ensures fresh(bucket.repr - old(bucket.repr))
  {
    if IsHttp(e) {
      bucket.AddHttpLeaf(SplitPathSegments(e.path), e.leaf);
    } else {
      bucket.AddLeaf(e.leaf);
    }
  }

  /** The children of one bucket, and the bucket itself where it holds more than one leaf. */
  method MaterializeBucket(bucket: GroupBucket, id: string, collate: string -> int) returns (node: TreeNode)
    requires bucket.Valid()
    ensures node == TopNode(bucket.Value(), id, collate)
  {
    hide Materialize, CommonPrefix, StartNode, TableOk;
    var commonHttpPath: seq<string> := [];
    var children: seq<TreeNode>;
    if bucket.pathRoot != null {
      if bucket.httpPathSegments.Some? {
        commonHttpPath := CommonPathPrefix(bucket.httpPathSegments.value);
      }
      var root := bucket.ReadTree();
      children := MaterializeFrom(root, commonHttpPath, id, collate);
    } else {
      children := Items(SortGroupLeaves(bucket.leaves), []);
    }
    if |children| == 1 && children[0].Item? {
      return children[0];
    }
    return Group(id, BucketLabel(bucket.text, commonHttpPath), children);
  }

  method MaterializeFrom(root: Trie, prefix: seq<string>, id: string, collate: string -> int)
    returns (children: seq<TreeNode>)
    ensures children == Materialize(StartNode(root, prefix), id, [], collate)
  {
    var httpRootNode := NodeForPathPrefix(root, prefix);
    children := MaterializeHttpNodes(httpRootNode, id, [], collate);
  }

  ghost predicate TableHolds(values: map<string, BucketValue>, es: seq<SidebarEntry>) {
    forall id :: BucketOf(es, id) == if id in values then Some(values[id]) else None
  }

  /** One more entry, and the table stands for the longer list. */
  method AddNext(table: BucketTable, ghost done: seq<SidebarEntry>, e: SidebarEntry)
    requires table.Valid() && table.order == Ids(done) && TableHolds(table.values, done)
    modifies table, table.objects
    ensures table.Valid() && fresh(table.objects - old(table.objects))
    ensures table.order == Ids(done + [e]) && TableHolds(table.values, done + [e])
  {
    hide GroupBucket.Valid, GroupBucket.Value, AddEntry;
    IdsLaw(done);
    assert (done + [e])[..|done|] == done;
    table.Add(e);
  }

  /** `buildPublisherTree`: one entry for every publisher. */
  method BuildTree(es: seq<SidebarEntry>, collate: string -> int) returns (tree: seq<TreeNode>)
    ensures tree == Tree(es, collate)
  {
    hide GroupBucket.Valid, GroupBucket.Value, Ids, TableHolds, BucketTable.Valid, BucketTable.BucketOk;
    var table := NewTable();
    for i := 0 to |es|
      invariant table.Valid() && fresh(table) && fresh(table.objects)
      invariant table.order == Ids(es[..i]) && TableHolds(table.values, es[..i])
    {
      assert es[..i + 1] == es[..i] + [es[i]];
      AddNext(table, es[..i], es[i]);
    }
    assert es[..|es|] == es;
    tree := MaterializeTable(table, es, collate);
  }

  method NewTable() returns (table: BucketTable)
    ensures fresh(table) && table.Valid() && fresh(table.objects)
    ensures table.order == Ids([]) && TableHolds(table.values, [])
  {
    table := new BucketTable();
  }

  method MaterializeTable(table: BucketTable, es: seq<SidebarEntry>, collate: string -> int)
    returns (tree: seq<TreeNode>)
    requires table.Valid() && table.order == Ids(es) && TableHolds(table.values, es)
    ensures tree == Tree(es, collate)
  {
    hide GroupBucket.Valid, GroupBucket.Value, TopNode, TopNodes, SortedIds, BucketTable.BucketOk;
    IdsLaw(es);
    var ids := SortedIds(es, collate);
    tree := [];
    assert ids[0..] == ids && [] + TopNodes(es, ids, collate) == TopNodes(es, ids, collate);
    for k := 0 to |ids|
      invariant tree + TopNodes(es, ids[k..], collate) == Tree(es, collate)
    {
      var id := ids[k];
      assert id in Ids(es) by { SortedIdIsId(es, collate, k); }
      assert table.BucketOk(id);
      var node := NodeOf(table, es, id, collate);
      FirstTopNode(es, ids[k..], collate);
      assert ids[k..][1..] == ids[k + 1..];
      ConcatAssociates(tree, [node], TopNodes(es, ids[k + 1..], collate));
      tree := tree + [node];
    }
    assert ids[|ids|..] == [] && tree + TopNodes(es, [], collate) == tree by { NoTopNodes(es, collate); }
  }

  lemma SortedIdIsId(es: seq<SidebarEntry>, collate: string -> int, k: nat)
    requires k < |SortedIds(es, collate)|
    ensures SortedIds(es, collate)[k] in Ids(es)
  {
    assert SortedIds(es, collate)[k] in multiset(SortedIds(es, collate));
  }

  lemma FirstTopNode(es: seq<SidebarEntry>, ids: seq<string>, collate: string -> int)
    requires ids != [] && BucketOf(es, ids[0]).Some?
    ensures TopNodes(es, ids, collate) ==
            [TopNode(BucketOf(es, ids[0]).value, ids[0], collate)] + TopNodes(es, ids[1..], collate)
  {
  }

  lemma NoTopNodes(es: seq<SidebarEntry>, collate: string -> int)
    ensures TopNodes(es, [], collate) == []
  {
  }

  method NodeOf(table: BucketTable, es: seq<SidebarEntry>, id: string, collate: string -> int) returns (node: TreeNode)
    requires table.Valid() && TableHolds(table.values, es) && id in table.groups && table.BucketOk(id)
    ensures BucketOf(es, id).Some? && node == TopNode(BucketOf(es, id).value, id, collate)
  {
    hide GroupBucket.Valid, GroupBucket.Value, TopNode;
    node := MaterializeBucket(table.groups[id], id, collate);
  }
}
