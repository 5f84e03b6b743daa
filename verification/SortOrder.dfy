/** The order in which the sidebar shows leaves and subgroups: sorted, with ties left as they were. */
module SortOrder {
  import opened PathTrie
  import opened PathTree
  import opened Sidebar
  import opened Sorting

  lemma LeavesAreOrdered()
    ensures IsWeakOrder(LeafBefore)
  {
  }

  /** No later by manual order, then by method, then by target, then by name. */
  predicate IsNoLater(a: SortKey, b: SortKey) {
    && a.manualOrder <= b.manualOrder
    && (a.manualOrder == b.manualOrder ==>
          && a.methodOrder <= b.methodOrder
          && (a.methodOrder == b.methodOrder ==>
                && a.targetRank <= b.targetRank
                && (a.targetRank == b.targetRank ==> a.labelRank <= b.labelRank)))
  }

  /** Leaves come by manual order, then method, then target, then name; equal keys stay as they were. */
  lemma LeavesAreInOrder(leaves: seq<Leaf>, key: SortKey)
    ensures forall i, j :: 0 <= i < j < |leaves| ==> IsNoLater(SortGroupLeaves(leaves)[i].key, SortGroupLeaves(leaves)[j].key)
    ensures Class(SortGroupLeaves(leaves), (l: Leaf) => l.key == key) == Class(leaves, (l: Leaf) => l.key == key)
  {
    LeavesAreOrdered();
    SortedIsInOrder(leaves, LeafBefore);
    SortedKeepsClass(leaves, LeafBefore, (l: Leaf) => l.key == key);
    hide IsWeakOrder, StableSort;
    var r := SortGroupLeaves(leaves);
    forall i, j | 0 <= i < j < |leaves| ensures IsNoLater(r[i].key, r[j].key) {
      assert !LeafBefore(r[j], r[i]);
    }
  }

  /** Subgroups come by the collation of their segments. */
  lemma ChildrenAreInOrder(ts: seq<Trie>, collate: string -> int)
    ensures forall i, j :: 0 <= i < j < |ts| ==>
              collate(SortChildren(ts, collate)[i].segment) <= collate(SortChildren(ts, collate)[j].segment)
  {
    var before := (a: Trie, b: Trie) => collate(a.segment) < collate(b.segment);
    SortedIsInOrder(ts, before);
    var r := SortChildren(ts, collate);
    forall i, j | 0 <= i < j < |ts| ensures collate(r[i].segment) <= collate(r[j].segment) {
      assert !before(r[j], r[i]);
    }
  }

  /** Buckets come by the collation of their labels; those with equal labels in the order of first use. */
  lemma BucketsAreInOrder(es: seq<SidebarEntry>, collate: string -> int, rank: int)
    ensures var ids := SortedIds(es, collate);
            && multiset(ids) == multiset(Ids(es))
            && (forall i, j :: 0 <= i < j < |ids| ==> collate(BucketText(es, ids[i])) <= collate(BucketText(es, ids[j])))
            && Class(ids, (id: string) => collate(BucketText(es, id)) == rank)
               == Class(Ids(es), (id: string) => collate(BucketText(es, id)) == rank)
  {
    hide BucketText, Ids;
    var before := (a: string, b: string) => collate(BucketText(es, a)) < collate(BucketText(es, b));
    SortedIsInOrder(Ids(es), before);
    SortedKeepsClass(Ids(es), before, (id: string) => collate(BucketText(es, id)) == rank);
    hide StableSort, Class;
    var ids := SortedIds(es, collate);
    assert ids == StableSort(Ids(es), before);
    forall i, j | 0 <= i < j < |ids| ensures collate(BucketText(es, ids[i])) <= collate(BucketText(es, ids[j])) {
      assert !before(ids[j], ids[i]);
    }
  }
}
