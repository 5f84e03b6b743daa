/** The consumer tree: only consumers with a sidebar item get a leaf. */
module ConsumerSidebar {
  import opened Options
  import opened PathTrie
  import opened PathTrieHeap
  import opened PathTree
  import opened PathTreeLaws
  import opened Sidebar
  import opened SidebarLaws

  datatype ConsumerItem = ConsumerItem(originalIndex: nat, key: SortKey)

  datatype ConsumerEndpoint = ConsumerEndpoint(kind: string, target: string, path: string, text: string)

  /** The item of consumer `i`; of several items with one index the last one counts. */
  function ItemFor(items: seq<ConsumerItem>, i: nat): Option<ConsumerItem> {
    if items == [] then None
    else if items[|items| - 1].originalIndex == i then Some(items[|items| - 1])
    else ItemFor(items[..|items| - 1], i)
  }

  function EntryFor(c: ConsumerEndpoint, item: ConsumerItem): SidebarEntry {
    SidebarEntry(c.kind, c.target, c.path, c.text, Leaf(item.originalIndex, item.key))
  }

  function ConsumerEntries(cs: seq<ConsumerEndpoint>, items: seq<ConsumerItem>): seq<SidebarEntry> {
    if cs == [] then []
    else
      var i := |cs| - 1;
      ConsumerEntries(cs[..i], items)
      + match ItemFor(items, i) case Some(item) => [EntryFor(cs[i], item)] case None => []
  }

  method IndexItems(items: seq<ConsumerItem>) returns (itemByIndex: map<nat, ConsumerItem>)
    ensures forall i: nat :: ItemFor(items, i) == if i in itemByIndex then Some(itemByIndex[i]) else None
  {
    itemByIndex := map[];
    for k := 0 to |items|
      invariant forall i: nat :: ItemFor(items[..k], i) == if i in itemByIndex then Some(itemByIndex[i]) else None
    {
      assert items[..k + 1][..k] == items[..k];
      itemByIndex := itemByIndex[items[k].originalIndex := items[k]];
    }
    assert items[..|items|] == items;
  }

  method BuildConsumerTree(cs: seq<ConsumerEndpoint>, items: seq<ConsumerItem>, collate: string -> int)
    returns (tree: seq<TreeNode>)
    ensures tree == Tree(ConsumerEntries(cs, items), collate)
  {
    hide GroupBucket.Valid, GroupBucket.Value, Ids, TableHolds, BucketTable.Valid, BucketTable.BucketOk;
    var itemByIndex := IndexItems(items);
    var table := NewTable();
    for i := 0 to |cs|
      invariant table.Valid() && fresh(table) && fresh(table.objects)
      invariant table.order == Ids(ConsumerEntries(cs[..i], items))
      invariant TableHolds(table.values, ConsumerEntries(cs[..i], items))
    {
      assert cs[..i + 1][..i] == cs[..i];
      ghost var done := ConsumerEntries(cs[..i], items);
      if i in itemByIndex {
        AddNext(table, done, EntryFor(cs[i], itemByIndex[i]));
      } else {
        assert ConsumerEntries(cs[..i + 1], items) == done;
      }
    }
    assert cs[..|cs|] == cs;
    tree := MaterializeTable(table, ConsumerEntries(cs, items), collate);
  }

  /** The entry stands for the consumer of its index, with the item of that consumer. */
  predicate IsEntryFor(e: SidebarEntry, cs: seq<ConsumerEndpoint>, items: seq<ConsumerItem>) {
    var i := e.leaf.index;
    && i < |cs| && ItemFor(items, i) == Some(ConsumerItem(i, e.leaf.key))
    && e.kind == cs[i].kind && e.target == cs[i].target && e.path == cs[i].path && e.text == cs[i].text
  }

  lemma LastConsumer(cs: seq<ConsumerEndpoint>, items: seq<ConsumerItem>)
    requires cs != []
    ensures var i := |cs| - 1;
            && cs == cs[..i] + [cs[i]]
            && match ItemFor(items, i)
               case None => ConsumerEntries(cs, items) == ConsumerEntries(cs[..i], items)
               case Some(item) =>
                 var e := EntryFor(cs[i], item);
                 && ConsumerEntries(cs, items) == ConsumerEntries(cs[..i], items) + [e]
                 && IsEntryFor(e, cs, items) && e.leaf.index == i
  {
    ItemIndex(items, |cs| - 1);
  }

  lemma {:induction false} EntriesAreForConsumers(cs: seq<ConsumerEndpoint>, items: seq<ConsumerItem>)
    ensures forall e :: e in ConsumerEntries(cs, items) ==> IsEntryFor(e, cs, items)
  {
    hide ItemFor, EntryFor, ConsumerEntries;
    if cs == [] {
      NoEntries(items);
    } else {
      LastConsumer(cs, items);
      EntriesAreForConsumers(cs[..|cs| - 1], items);
    }
  }

  lemma NoEntries(items: seq<ConsumerItem>)
    ensures ConsumerEntries([], items) == []
  {
  }

  lemma {:induction false} IndexesAreDistinct(cs: seq<ConsumerEndpoint>, items: seq<ConsumerItem>)
    ensures var es := ConsumerEntries(cs, items); forall j, k :: 0 <= j < k < |es| ==> es[j].leaf.index != es[k].leaf.index
  {
    hide ItemFor, EntryFor, ConsumerEntries;
    if cs == [] {
      NoEntries(items);
    } else {
      LastConsumer(cs, items);
      IndexesAreDistinct(cs[..|cs| - 1], items);
      EntriesAreForConsumers(cs[..|cs| - 1], items);
      var before := ConsumerEntries(cs[..|cs| - 1], items);
      assert forall j :: 0 <= j < |before| ==> before[j] in before;
    }
  }

  lemma {:induction false} ItemsHaveEntries(cs: seq<ConsumerEndpoint>, items: seq<ConsumerItem>, i: nat)
    requires i < |cs| && ItemFor(items, i).Some?
    ensures EntryFor(cs[i], ItemFor(items, i).value) in ConsumerEntries(cs, items)
  {
    hide ItemFor, EntryFor, ConsumerEntries;
    LastConsumer(cs, items);
    if i < |cs| - 1 {
      ItemsHaveEntries(cs[..|cs| - 1], items, i);
    }
  }

  lemma {:induction false} ItemIndex(items: seq<ConsumerItem>, i: nat)
    ensures ItemFor(items, i).Some? ==> ItemFor(items, i).value.originalIndex == i
  {
    if items != [] { ItemIndex(items[..|items| - 1], i); }
  }

  /** The leaves of the entries are those of the consumers with an item. */
  lemma LeafOfConsumer(cs: seq<ConsumerEndpoint>, items: seq<ConsumerItem>, l: Leaf)
    ensures var es := ConsumerEntries(cs, items);
            (exists j :: 0 <= j < |es| && es[j].leaf == l) <==>
            l.index < |cs| && ItemFor(items, l.index) == Some(ConsumerItem(l.index, l.key))
  {
    hide ItemFor, ConsumerEntries;
    var es := ConsumerEntries(cs, items);
    ItemIndex(items, l.index);
    if exists j :: 0 <= j < |es| && es[j].leaf == l {
      var j :| 0 <= j < |es| && es[j].leaf == l;
      EntriesAreForConsumers(cs, items);
      assert IsEntryFor(es[j], cs, items);
    }
    if l.index < |cs| && ItemFor(items, l.index) == Some(ConsumerItem(l.index, l.key)) {
      ItemsHaveEntries(cs, items, l.index);
      var j :| 0 <= j < |es| && es[j] == EntryFor(cs[l.index], ItemFor(items, l.index).value);
      assert es[j].leaf == l;
    }
  }

  /** A consumer has one leaf if it has an item and none otherwise, and there are no other leaves. */
  lemma EachListedConsumerOnce(cs: seq<ConsumerEndpoint>, items: seq<ConsumerItem>, collate: string -> int)
    requires NoSharedBuckets(ConsumerEntries(cs, items))
    ensures forall l :: ItemsOfAll(Tree(ConsumerEntries(cs, items), collate), JustLeaf)[l]
              == if l.index < |cs| && ItemFor(items, l.index) == Some(ConsumerItem(l.index, l.key)) then 1 else 0
  {
    hide ConsumerEntries, ItemFor, Notes, ItemsOfAll, Tree, NoSharedBuckets;
    var es := ConsumerEntries(cs, items);
    NothingIsLost(es, collate);
    IndexesAreDistinct(cs, items);
    forall l ensures AllLeaves(es)[l]
              == if l.index < |cs| && ItemFor(items, l.index) == Some(ConsumerItem(l.index, l.key)) then 1 else 0
    {
      LeafIndexes(es, (e: SidebarEntry) => true, l);
      LeafOfConsumer(cs, items, l);
    }
  }
}
