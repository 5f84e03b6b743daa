/** What the sidebar trees show: which leaves, where, and under which groups. */
module SidebarLaws {
  import opened Options
  import opened Text
  import opened PathTrie
  import opened PathTrieHeap
  import opened PathTree
  import opened PathTreeLaws
  import opened BucketTree
  import opened PathSegments
  import opened Sidebar

  /** The notes of those entries that `keep` selects. */
  ghost function Notes<O>(es: seq<SidebarEntry>, keep: SidebarEntry -> bool, note: Note<O>): multiset<O> {
    if es == [] then multiset{}
    else
      var e := es[|es| - 1];
      Notes(es[..|es| - 1], keep, note)
      + (if keep(e) then multiset{note(SplitPathSegments(e.path), e.leaf)} else multiset{})
  }

  predicate HttpIn(id: string, e: SidebarEntry) {
    e.kind == "http" && e.kind + ":" + e.target == id
  }

  predicate PlainIn(id: string, e: SidebarEntry) {
    e.kind != "http" && e.kind + ":" + e.target == id
  }

  ghost function HttpNotes<O>(es: seq<SidebarEntry>, id: string, note: Note<O>): multiset<O> {
    Notes(es, (e: SidebarEntry) => HttpIn(id, e), note)
  }

  ghost function PlainLeaves(es: seq<SidebarEntry>, id: string): multiset<Leaf> {
    Notes(es, (e: SidebarEntry) => PlainIn(id, e), JustLeaf)
  }

  ghost predicate AnyHttp(es: seq<SidebarEntry>, id: string) {
    exists i :: 0 <= i < |es| && HttpIn(id, es[i])
  }

  ghost predicate AnyPlain(es: seq<SidebarEntry>, id: string) {
    exists i :: 0 <= i < |es| && PlainIn(id, es[i])
  }

  // ---------------------------------------------------------------------------
  // One bucket.

  lemma AnyHttpStep(es: seq<SidebarEntry>, id: string)
    requires es != []
    ensures AnyHttp(es, id) <==> AnyHttp(es[..|es| - 1], id) || HttpIn(id, es[|es| - 1])
    ensures AnyPlain(es, id) <==> AnyPlain(es[..|es| - 1], id) || PlainIn(id, es[|es| - 1])
  {
    var init := es[..|es| - 1];
    assert forall i :: 0 <= i < |init| ==> init[i] == es[i];
    if AnyHttp(es, id) {
      var i :| 0 <= i < |es| && HttpIn(id, es[i]);
      assert i < |init| ==> HttpIn(id, init[i]);
    }
    if AnyPlain(es, id) {
      var i :| 0 <= i < |es| && PlainIn(id, es[i]);
      assert i < |init| ==> PlainIn(id, init[i]);
    }
  }

  /** The trie of a bucket is grown and holds exactly the HTTP entries; its list, the others. */
  ghost predicate BucketHolds<O>(es: seq<SidebarEntry>, id: string, b: BucketValue, note: Note<O>) {
    && (b.root.Some? ==> Grown(b.root.value, []) && Entries(b.root.value, [], note) == HttpNotes(es, id, note))
    && (b.root.None? ==> HttpNotes(es, id, note) == multiset{} && b.paths.None?)
  }

  ghost predicate RecordsItsPaths(b: BucketValue) {
    b.paths.Some? ==>
      b.root.Some? && b.paths.value != [] && Entries(b.root.value, [], PathOnly) == multiset(b.paths.value)
  }

  ghost predicate BucketLists(es: seq<SidebarEntry>, id: string, b: BucketValue) {
    && (b.root.Some? <==> AnyHttp(es, id))
    && PlaceAll([], b.leaves, JustLeaf) == PlainLeaves(es, id)
    && (b.paths.None? ==> AnyPlain(es, id))
    && RecordsItsPaths(b)
  }

  lemma {:induction false} BucketHoldsItsEntries<O>(es: seq<SidebarEntry>, id: string, note: Note<O>)
    ensures match BucketOf(es, id)
            case Some(b) => BucketHolds(es, id, b, note)
            case None => HttpNotes(es, id, note) == multiset{}
  {
    if es != [] {
      var init, e := es[..|es| - 1], es[|es| - 1];
      BucketHoldsItsEntries(init, id, note);
      if BucketId(e) == id && IsHttp(e) {
        var before := BucketOf(init, id);
        var b := if before.Some? then before.value else NewBucket(e);
        var segments := SplitPathSegments(e.path);
        SegmentsAreSegments(UpTo(e.path, '?'));
        var t := RootOrEmpty(b);
        assert Grown(t, []) && Entries(t, [], note) == HttpNotes(init, id, note) by {
          EmptyTrieLaw(note);
        }
        InsertKeepsGrown(t, [], segments, e.leaf);
        InsertAddsOne(t, [], segments, e.leaf, note);
        assert [] + segments == segments;
      }
    }
  }

  /** A bucket is named by kind and target, and keeps the label of its first endpoint. */
  lemma {:induction false} FirstEntryGivesLabel(es: seq<SidebarEntry>, i: nat, id: string)
    requires i < |es| && id == es[i].kind + ":" + es[i].target
    requires forall j :: 0 <= j < i ==> es[j].kind + ":" + es[j].target != id
    ensures BucketOf(es, id).Some? && BucketOf(es, id).value.text == es[i].text && BucketText(es, id) == es[i].text
  {
    var n := |es| - 1;
    var init := es[..n];
    if i < n {
      FirstEntryGivesLabel(init, i, id);
    } else {
      NoBucketWithout(init, id);
    }
    hide SplitPathSegments, Insert;
  }

  lemma {:induction false} NoBucketWithout(es: seq<SidebarEntry>, id: string)
    requires forall j :: 0 <= j < |es| ==> es[j].kind + ":" + es[j].target != id
    ensures BucketOf(es, id) == None
  {
    if es != [] {
      NoBucketWithout(es[..|es| - 1], id);
    }
  }

  lemma EmptyTrieLaw<O>(note: Note<O>)
    ensures Grown(EMPTY_TRIE, []) && Entries(EMPTY_TRIE, [], note) == multiset{}
  {
  }

  lemma HttpStepRecords(b: BucketValue, segments: seq<string>, leaf: Leaf)
    requires RecordsItsPaths(b) || (b.root == Some(EMPTY_TRIE) && b.paths == Some([]))
    ensures RecordsItsPaths(AddHttp(b, segments, leaf))
  {
    EmptyTrieLaw(PathOnly);
    InsertAddsOne(RootOrEmpty(b), [], segments, leaf, PathOnly);
    assert [] + segments == segments;
    assert PathOnly(segments, leaf) == segments;
  }

  lemma PlainStepRecords(b: BucketValue, leaf: Leaf)
    ensures RecordsItsPaths(AddPlain(b, leaf)) <==> RecordsItsPaths(b)
    ensures b.paths.None? ==> RecordsItsPaths(b)
  {
  }

  /** What the recursion knows of the bucket before the last entry. */
  ghost predicate Before(es: seq<SidebarEntry>, id: string) {
    match BucketOf(es, id)
    case Some(b) => BucketLists(es, id, b)
    case None => !AnyHttp(es, id) && !AnyPlain(es, id) && PlainLeaves(es, id) == multiset{}
  }

  lemma HttpStepLists(es: seq<SidebarEntry>, id: string)
    requires es != [] && HttpIn(id, es[|es| - 1]) && Before(es[..|es| - 1], id)
    ensures Before(es, id)
  {
    hide Insert, RecordsItsPaths, SplitPathSegments, AnyHttp, AnyPlain;
    var init, e := es[..|es| - 1], es[|es| - 1];
    AnyHttpStep(es, id);
    var before := BucketOf(init, id);
    var b := if before.Some? then before.value else NewBucket(e);
    HttpStepRecords(b, SplitPathSegments(e.path), e.leaf);
  }

  lemma PlainStepLists(es: seq<SidebarEntry>, id: string)
    requires es != [] && PlainIn(id, es[|es| - 1]) && Before(es[..|es| - 1], id)
    ensures Before(es, id)
  {
    hide Insert, RecordsItsPaths, SplitPathSegments, AnyHttp, AnyPlain;
    var init, e := es[..|es| - 1], es[|es| - 1];
    AnyHttpStep(es, id);
    var before := BucketOf(init, id);
    var b := if before.Some? then before.value else NewBucket(e);
    PlaceAllAppend([], b.leaves, [e.leaf], JustLeaf);
    PlainStepRecords(b, e.leaf);
  }

  lemma {:induction false} BucketListsItsEntries(es: seq<SidebarEntry>, id: string)
    ensures Before(es, id)
  {
    if es != [] {
      hide BucketLists, AddEntry;
      var init, e := es[..|es| - 1], es[|es| - 1];
      BucketListsItsEntries(init, id);
      if BucketId(e) != id {
        OtherStepLists(es, id);
      } else if IsHttp(e) {
        HttpStepLists(es, id);
      } else {
        PlainStepLists(es, id);
      }
    }
  }

  lemma OtherStepLists(es: seq<SidebarEntry>, id: string)
    requires es != [] && BucketId(es[|es| - 1]) != id && Before(es[..|es| - 1], id)
    ensures Before(es, id)
  {
    hide RecordsItsPaths, AddEntry, AnyHttp, AnyPlain;
    AnyHttpStep(es, id);
  }

  // ---------------------------------------------------------------------------
  // The nodes of one bucket.

  /** Notes the path from the bucket's root instead of the path from its start node. */
  function Shifted<O>(prefix: seq<string>, note: Note<O>): Note<O> {
    (path, leaf) => note(prefix + path, leaf)
  }

  lemma {:induction false} PlaceAllShift<O>(at: seq<string>, ls: seq<Leaf>, prefix: seq<string>, note: Note<O>)
    ensures PlaceAll(at, ls, Shifted(prefix, note)) == PlaceAll(prefix + at, ls, note)
  {
    if ls != [] { PlaceAllShift(at, ls[1..], prefix, note); }
  }

  lemma {:induction false} EntriesShift<O>(t: Trie, at: seq<string>, prefix: seq<string>, note: Note<O>)
    ensures Entries(t, at, Shifted(prefix, note)) == Entries(t, prefix + at, note)
    decreases t, 0
  {
    PlaceAllShift(at, t.exact, prefix, note);
    ChildEntriesShift(t.children, at, prefix, note);
  }

  lemma {:induction false} ChildEntriesShift<O>(ts: seq<Trie>, at: seq<string>, prefix: seq<string>, note: Note<O>)
    ensures ChildEntries(ts, at, Shifted(prefix, note)) == ChildEntries(ts, prefix + at, note)
    decreases ts, 1
  {
    if ts != [] {
      EntriesShift(ts[0], at + [ts[0].segment], prefix, note);
      assert prefix + (at + [ts[0].segment]) == prefix + at + [ts[0].segment];
      ChildEntriesShift(ts[1..], at, prefix, note);
    }
  }

  lemma {:induction false} JustLeafIgnoresShift(n: TreeNode, prefix: seq<string>)
    ensures ItemsOf(n, Shifted(prefix, JustLeaf)) == ItemsOf(n, JustLeaf)
    decreases n, 0
  {
    match n
    case Group(_, _, children) => JustLeavesIgnoreShift(children, prefix);
    case Item(leaf, at) => assert Shifted(prefix, JustLeaf)(at, leaf) == leaf;
  }

  lemma {:induction false} JustLeavesIgnoreShift(ns: seq<TreeNode>, prefix: seq<string>)
    ensures ItemsOfAll(ns, Shifted(prefix, JustLeaf)) == ItemsOfAll(ns, JustLeaf)
    decreases ns, 1
  {
    if ns != [] {
      JustLeafIgnoresShift(ns[0], prefix);
      JustLeavesIgnoreShift(ns[1..], prefix);
    }
  }

  lemma {:induction false} NotesAreThere<O>(es: seq<SidebarEntry>, keep: SidebarEntry -> bool, note: Note<O>, i: nat)
    requires i < |es| && keep(es[i])
    ensures |Notes(es, keep, note)| > 0
  {
    if i < |es| - 1 { NotesAreThere(es[..|es| - 1], keep, note, i); }
  }

  /** The start node that a bucket's HTTP children are read from. */
  lemma StartOfBucket<O>(es: seq<SidebarEntry>, id: string, note: Note<O>)
    requires AnyHttp(es, id)
    ensures BucketOf(es, id).Some? && BucketOf(es, id).value.root.Some?
    ensures var b := BucketOf(es, id).value;
            var p := BucketPrefix(b);
            var start := StartNode(b.root.value, p);
            && Grown(start, p)
            && CountTrieLeaves(start) > 0
            && Entries(start, p, note) == HttpNotes(es, id, note)
            && (!AnyPlain(es, id) ==> Branching(start))
  {
    BucketListsItsEntries(es, id);
    BucketHoldsItsEntries(es, id, note);
    var b := BucketOf(es, id).value;
    if b.paths.Some? {
      StartBranches(b.root.value, b.paths.value, note);
    } else {
      var i :| 0 <= i < |es| && HttpIn(id, es[i]);
      NotesAreThere(es, (e: SidebarEntry) => HttpIn(id, e), note, i);
      CountIsSize(b.root.value, [], note);
      assert Follow(b.root.value, []) == Some(b.root.value);
    }
  }

  /**
   The children of an HTTP bucket hold exactly its HTTP endpoints. Each sits at the rest of its own
   path once the bucket's prefix is taken off.
   */
  lemma HttpBucketShowsPaths<O>(es: seq<SidebarEntry>, id: string, collate: string -> int, note: Note<O>)
    requires AnyHttp(es, id)
    ensures BucketOf(es, id).Some?
    ensures var b := BucketOf(es, id).value;
            ItemsOfAll(BucketChildren(b, id, collate), Shifted(BucketPrefix(b), note)) == HttpNotes(es, id, note)
  {
    StartOfBucket(es, id, note);
    var b := BucketOf(es, id).value;
    var p := BucketPrefix(b);
    var start := StartNode(b.root.value, p);
    MaterializeConserves(start, id, [], p, collate, Shifted(p, note));
    EntriesShift(start, [], p, note);
    assert p + [] == p;
  }

  /**
   The structure of an HTTP bucket that no broker endpoint shares: labels are prefixes of what is
   under them, group ids are unique, no group holds just one subgroup, and neither flattening nor
   the collapse at the root has happened.
   */
  lemma HttpBucketIsTidy(es: seq<SidebarEntry>, id: string, collate: string -> int)
    requires AnyHttp(es, id) && !AnyPlain(es, id)
    ensures BucketOf(es, id).Some? && BucketOf(es, id).value.root.Some?
    ensures var b := BucketOf(es, id).value;
            var p := BucketPrefix(b);
            var children := BucketChildren(b, id, collate);
            && TidyAll(children) && children != [] && !LoneGroup(children)
            && AllUnder(children, [])
            && IdsAt(GroupIdsOfAll(children), id, p)
            && children == DirectTree(StartNode(b.root.value, p), id, collate)
  {
    StartOfBucket(es, id, JustLeaf);
    var b := BucketOf(es, id).value;
    var p := BucketPrefix(b);
    var start := StartNode(b.root.value, p);
    MaterializeIsTidy(start, id, [], p, collate);
    LabelsArePrefixes(start, id, [], collate);
    GroupIdsAreUnique(start, id, [], p, collate);
    MaterializeConserves(start, id, [], p, collate, JustLeaf);
    CountIsSize(start, [], JustLeaf);
  }

  ghost function ShownLeaves(es: seq<SidebarEntry>, id: string): multiset<Leaf> {
    if AnyHttp(es, id) then HttpNotes(es, id, JustLeaf) else PlainLeaves(es, id)
  }

  /** What a bucket shows: its HTTP leaves if it has any, else its other leaves. */
  lemma BucketShows(es: seq<SidebarEntry>, id: string, collate: string -> int)
    requires BucketOf(es, id).Some?
    ensures ItemsOf(TopNode(BucketOf(es, id).value, id, collate), JustLeaf) == ShownLeaves(es, id)
  {
    var b := BucketOf(es, id).value;
    var children := BucketChildren(b, id, collate);
    BucketListsItsEntries(es, id);
    if AnyHttp(es, id) {
      HttpBucketShowsPaths(es, id, collate, JustLeaf);
      JustLeavesIgnoreShift(children, BucketPrefix(b));
    } else {
      ItemsHoldLeaves(SortGroupLeaves(b.leaves), [], JustLeaf);
      SortedLeavesPlaced([], b.leaves, JustLeaf);
    }
    assert ItemsOfAll(children, JustLeaf) == ShownLeaves(es, id);
    LoneItem(children);
  }

  lemma LoneItem(ns: seq<TreeNode>)
    ensures |ns| == 1 ==> ItemsOfAll(ns, JustLeaf) == ItemsOf(ns[0], JustLeaf)
  {
    if |ns| == 1 {
      assert ItemsOfAll(ns[1..], JustLeaf) == multiset{};
    }
  }

  // ---------------------------------------------------------------------------
  // The whole tree.

  /** An entry is kept unless it shares its bucket id with an HTTP endpoint and is none itself. */
  ghost predicate Kept(es: seq<SidebarEntry>, e: SidebarEntry) {
    IsHttp(e) || !AnyHttp(es, BucketId(e))
  }

  ghost function KeptLeaves(es: seq<SidebarEntry>): multiset<Leaf> {
    Notes(es, (e: SidebarEntry) => Kept(es, e), JustLeaf)
  }

  ghost function AllLeaves(es: seq<SidebarEntry>): multiset<Leaf> {
    Notes(es, (e: SidebarEntry) => true, JustLeaf)
  }

  /** The kept entries of `part` that belong to bucket `id`. */
  ghost function KeptIn(part: seq<SidebarEntry>, es: seq<SidebarEntry>, id: string): multiset<Leaf> {
    Notes(part, (e: SidebarEntry) => Kept(es, e) && BucketId(e) == id, JustLeaf)
  }

  ghost function SumKept(part: seq<SidebarEntry>, es: seq<SidebarEntry>, ids: seq<string>): multiset<Leaf> {
    if ids == [] then multiset{} else KeptIn(part, es, ids[0]) + SumKept(part, es, ids[1..])
  }

  lemma {:induction false} ShownIsKept(part: seq<SidebarEntry>, es: seq<SidebarEntry>, id: string)
    ensures AnyHttp(es, id) ==> KeptIn(part, es, id) == HttpNotes(part, id, JustLeaf)
    ensures !AnyHttp(es, id) && (forall e :: e in part ==> e in es) ==> KeptIn(part, es, id) == PlainLeaves(part, id)
  {
    if part != [] {
      var init, e := part[..|part| - 1], part[|part| - 1];
      ShownIsKept(init, es, id);
      if !AnyHttp(es, id) && e in es {
        var i :| 0 <= i < |es| && es[i] == e;
        assert !HttpIn(id, es[i]);
      }
    }
  }

  lemma {:induction false} SumKeptEmpty(es: seq<SidebarEntry>, ids: seq<string>)
    ensures SumKept([], es, ids) == multiset{}
  {
    if ids != [] { SumKeptEmpty(es, ids[1..]); }
  }

  lemma KeptInStep(part: seq<SidebarEntry>, es: seq<SidebarEntry>, id: string)
    requires part != []
    ensures var e := part[|part| - 1];
            KeptIn(part, es, id) == KeptIn(part[..|part| - 1], es, id)
              + (if Kept(es, e) && BucketId(e) == id then multiset{e.leaf} else multiset{})
  {
    hide Kept, BucketId;
  }

  /** One more entry adds its leaf to the sum once, at the one place its id has in the list. */
  lemma {:induction false} SumKeptStep(part: seq<SidebarEntry>, es: seq<SidebarEntry>, ids: seq<string>)
    requires part != [] && DistinctNames(ids)
    ensures var e := part[|part| - 1];
            SumKept(part, es, ids) == SumKept(part[..|part| - 1], es, ids)
              + (if Kept(es, e) && BucketId(e) in ids then multiset{e.leaf} else multiset{})
  {
    hide KeptIn, Kept, BucketId;
    if ids != [] {
      SumKeptStep(part, es, ids[1..]);
      KeptInStep(part, es, ids[0]);
      assert ids[0] !in ids[1..];
    }
  }

  lemma {:induction false} SumKeptIsKept(part: seq<SidebarEntry>, es: seq<SidebarEntry>, ids: seq<string>)
    requires DistinctNames(ids) && forall e :: e in part ==> BucketId(e) in ids
    ensures SumKept(part, es, ids) == Notes(part, (e: SidebarEntry) => Kept(es, e), JustLeaf)
  {
    if part == [] {
      SumKeptEmpty(es, ids);
    } else {
      SumKeptIsKept(part[..|part| - 1], es, ids);
      SumKeptStep(part, es, ids);
    }
  }

  lemma {:induction false} IdsCover(es: seq<SidebarEntry>)
    ensures forall e :: e in es ==> BucketId(e) in Ids(es)
  {
    if es != [] {
      IdsCover(es[..|es| - 1]);
      assert es == es[..|es| - 1] + [es[|es| - 1]];
    }
  }

  lemma {:induction false} TopNodesShow(es: seq<SidebarEntry>, ids: seq<string>, collate: string -> int)
    requires forall i :: 0 <= i < |ids| ==> BucketOf(es, ids[i]).Some?
    ensures ItemsOfAll(TopNodes(es, ids, collate), JustLeaf) == SumKept(es, es, ids)
  {
    if ids != [] {
      BucketShows(es, ids[0], collate);
      ShownIsKept(es, es, ids[0]);
      TopNodesShow(es, ids[1..], collate);
      var node := TopNode(BucketOf(es, ids[0]).value, ids[0], collate);
      assert TopNodes(es, ids, collate) == [node] + TopNodes(es, ids[1..], collate);
      assert ([node] + TopNodes(es, ids[1..], collate))[1..] == TopNodes(es, ids[1..], collate);
    }
  }

  lemma SortedIdsLaw(es: seq<SidebarEntry>, collate: string -> int)
    ensures DistinctNames(SortedIds(es, collate))
    ensures forall id :: id in SortedIds(es, collate) <==> id in Ids(es)
    ensures forall id :: id in SortedIds(es, collate) <==> BucketOf(es, id).Some?
  {
    IdsLaw(es);
    var r := SortedIds(es, collate);
    forall id ensures id in r <==> id in Ids(es) {
      assert id in multiset(r) <==> id in multiset(Ids(es));
    }
    forall i, j | 0 <= i < j < |r| ensures r[i] != r[j] {
      TwoOccurrences(r, i, j);
      DistinctNamesCount(Ids(es), r[i]);
    }
  }

  lemma {:induction false} DistinctNamesCount(ks: seq<string>, k: string)
    requires DistinctNames(ks)
    ensures multiset(ks)[k] <= 1
  {
    if ks != [] {
      assert ks == [ks[0]] + ks[1..];
      DistinctNamesCount(ks[1..], k);
      assert k == ks[0] ==> k !in ks[1..];
    }
  }

  /** Main result: for any endpoints the tree shows exactly the kept leaves, each as often as given. */
  lemma TreeShowsKeptLeaves(es: seq<SidebarEntry>, collate: string -> int)
    ensures ItemsOfAll(Tree(es, collate), JustLeaf) == KeptLeaves(es)
  {
    SortedIdsLaw(es, collate);
    IdsCover(es);
    TopNodesShow(es, SortedIds(es, collate), collate);
    SumKeptIsKept(es, es, SortedIds(es, collate));
  }

  // ---------------------------------------------------------------------------
  // Is anything lost?

  /** No broker endpoint has the bucket id of an HTTP endpoint. */
  ghost predicate NoSharedBuckets(es: seq<SidebarEntry>) {
    forall i, j :: 0 <= i < |es| && 0 <= j < |es| && IsHttp(es[i]) && !IsHttp(es[j]) ==> BucketId(es[i]) != BucketId(es[j])
  }

  lemma NoSharedMeansKept(es: seq<SidebarEntry>)
    ensures NoSharedBuckets(es) <==> forall i :: 0 <= i < |es| ==> Kept(es, es[i])
  {
    if !NoSharedBuckets(es) {
      var i, j :| 0 <= i < |es| && 0 <= j < |es| && IsHttp(es[i]) && !IsHttp(es[j]) && BucketId(es[i]) == BucketId(es[j]);
      assert HttpIn(BucketId(es[j]), es[i]);
      assert !Kept(es, es[j]);
    }
  }

  ghost predicate AllSelected(part: seq<SidebarEntry>, keep: SidebarEntry -> bool) {
    forall i :: 0 <= i < |part| ==> keep(part[i])
  }

  lemma AllSelectedStep(part: seq<SidebarEntry>, keep: SidebarEntry -> bool)
    requires part != []
    ensures AllSelected(part, keep) <==> AllSelected(part[..|part| - 1], keep) && keep(part[|part| - 1])
  {
    assert forall i :: 0 <= i < |part| - 1 ==> part[..|part| - 1][i] == part[i];
  }

  lemma {:induction false} NotesCount(part: seq<SidebarEntry>, keep: SidebarEntry -> bool)
    ensures |Notes(part, keep, JustLeaf)| <= |part|
    ensures |Notes(part, keep, JustLeaf)| == |part| <==> AllSelected(part, keep)
  {
    if part != [] {
      hide AllSelected;
      NotesCount(part[..|part| - 1], keep);
      AllSelectedStep(part, keep);
    }
  }

  lemma {:induction false} NotesOfKept(part: seq<SidebarEntry>, keep: SidebarEntry -> bool)
    requires AllSelected(part, keep)
    ensures Notes(part, keep, JustLeaf) == AllLeaves(part)
  {
    if part != [] {
      AllSelectedStep(part, keep);
      NotesOfKept(part[..|part| - 1], keep);
    }
  }

  /** Every leaf is shown exactly as often as given if and only if no bucket id is shared. */
  lemma NothingIsLost(es: seq<SidebarEntry>, collate: string -> int)
    ensures ItemsOfAll(Tree(es, collate), JustLeaf) == AllLeaves(es) <==> NoSharedBuckets(es)
  {
    TreeShowsKeptLeaves(es, collate);
    NoSharedMeansKept(es);
    var keep := (e: SidebarEntry) => Kept(es, e);
    NotesCount(es, keep);
    NotesCount(es, (e: SidebarEntry) => true);
    if AllSelected(es, keep) {
      NotesOfKept(es, keep);
    }
  }

  function FirstColon(s: string): (n: nat)
    ensures n <= |s|
  {
    if s == "" || s[0] == ':' then 0 else 1 + FirstColon(s[1..])
  }

  lemma {:induction false} ColonAfterKind(kind: string, target: string)
    requires ':' !in kind
    ensures FirstColon(kind + ":" + target) == |kind|
  {
    var s := kind + ":" + target;
    if kind == "" {
      assert s[0] == ':';
    } else {
      assert s[0] == kind[0] && s[1..] == kind[1..] + ":" + target;
      ColonAfterKind(kind[1..], target);
    }
  }

  /** Kind names without a colon never share a bucket with HTTP. */
  lemma PlainKindsShareNothing(es: seq<SidebarEntry>)
    requires forall i :: 0 <= i < |es| ==> ':' !in es[i].kind
    ensures NoSharedBuckets(es)
  {
    forall i, j | 0 <= i < |es| && 0 <= j < |es| && IsHttp(es[i]) && !IsHttp(es[j])
      ensures BucketId(es[i]) != BucketId(es[j])
    {
      ColonAfterKind(es[i].kind, es[i].target);
      ColonAfterKind(es[j].kind, es[j].target);
      assert es[i].kind == BucketId(es[i])[..|es[i].kind|] && es[j].kind == BucketId(es[j])[..|es[j].kind|];
    }
  }

  /** With a colon in a kind name a leaf can vanish: here the broker endpoint of two. */
  lemma ColonLosesLeaf(key: SortKey, collate: string -> int)
    ensures var es := [SidebarEntry("http", "a:b:c", "/x", "HTTP a", Leaf(0, key)),
                       SidebarEntry("http:a", "b:c", "", "OTHER", Leaf(1, key))];
            ItemsOfAll(Tree(es, collate), JustLeaf) != AllLeaves(es)
  {
    var es := [SidebarEntry("http", "a:b:c", "/x", "HTTP a", Leaf(0, key)),
               SidebarEntry("http:a", "b:c", "", "OTHER", Leaf(1, key))];
    assert BucketId(es[0]) == "http:a:b:c" == BucketId(es[1]);
    NothingIsLost(es, collate);
  }

  lemma {:induction false} LeafIndexes(es: seq<SidebarEntry>, base: SidebarEntry -> bool, l: Leaf)
    requires forall i, j :: 0 <= i < j < |es| ==> es[i].leaf.index != es[j].leaf.index
    ensures Notes(es, base, JustLeaf)[l] == (if exists i :: 0 <= i < |es| && es[i].leaf == l && base(es[i]) then 1 else 0)
  {
    if es != [] {
      var init, e := es[..|es| - 1], es[|es| - 1];
      assert forall i :: 0 <= i < |init| ==> init[i] == es[i];
      LeafIndexes(init, base, l);
      assert JustLeaf(SplitPathSegments(e.path), e.leaf) == e.leaf;
      if exists i :: 0 <= i < |init| && init[i].leaf == l && base(init[i]) {
        var i :| 0 <= i < |init| && init[i].leaf == l && base(init[i]);
        assert es[i].leaf == l && base(es[i]);
      }
    }
  }

  /** Publishers are numbered, so each one has exactly one leaf in the tree, and there are no others. */
  lemma EachPublisherOnce(es: seq<SidebarEntry>, collate: string -> int)
    requires forall i :: 0 <= i < |es| ==> es[i].leaf.index == i
    requires NoSharedBuckets(es)
    ensures forall l :: ItemsOfAll(Tree(es, collate), JustLeaf)[l]
              == if l.index < |es| && es[l.index].leaf == l then 1 else 0
  {
    NothingIsLost(es, collate);
    forall l ensures ItemsOfAll(Tree(es, collate), JustLeaf)[l]
              == if l.index < |es| && es[l.index].leaf == l then 1 else 0
    {
      LeafIndexes(es, (e: SidebarEntry) => true, l);
    }
  }

  // ---------------------------------------------------------------------------
  // The shape of the whole tree.

  lemma {:induction false} TopNodesTidy(es: seq<SidebarEntry>, ids: seq<string>, collate: string -> int)
    requires NoSharedBuckets(es) && forall i :: 0 <= i < |ids| ==> BucketOf(es, ids[i]).Some?
    ensures TidyAll(TopNodes(es, ids, collate)) && |TopNodes(es, ids, collate)| == |ids|
  {
    if ids != [] {
      TopNodeTidy(es, ids[0], collate);
      TopNodesTidy(es, ids[1..], collate);
    }
  }

  lemma TopNodeTidy(es: seq<SidebarEntry>, id: string, collate: string -> int)
    requires NoSharedBuckets(es) && BucketOf(es, id).Some?
    ensures Tidy(TopNode(BucketOf(es, id).value, id, collate))
  {
    BucketListsItsEntries(es, id);
    var b := BucketOf(es, id).value;
    if AnyHttp(es, id) {
      var i :| 0 <= i < |es| && HttpIn(id, es[i]);
      assert forall j :: 0 <= j < |es| && !IsHttp(es[j]) ==> BucketId(es[j]) != BucketId(es[i]);
      HttpBucketIsTidy(es, id, collate);
    } else {
      var children := Items(SortGroupLeaves(b.leaves), []);
      if b.leaves == [] {
        PlainBucketHasLeaf(es, id);
      }
      assert TidyAll(children);
    }
  }

  lemma PlainBucketHasLeaf(es: seq<SidebarEntry>, id: string)
    requires BucketOf(es, id).Some? && !AnyHttp(es, id)
    ensures BucketOf(es, id).value.leaves != []
  {
    BucketListsItsEntries(es, id);
    var j :| 0 <= j < |es| && PlainIn(id, es[j]);
    NotesAreThere(es, (e: SidebarEntry) => PlainIn(id, e), JustLeaf, j);
    PlaceAllSize([], BucketOf(es, id).value.leaves, JustLeaf);
  }

  /** One node a bucket, and nowhere a group that is empty or holds nothing but a subgroup. */
  lemma TreeIsTidy(es: seq<SidebarEntry>, collate: string -> int)
    requires NoSharedBuckets(es)
    ensures TidyAll(Tree(es, collate)) && |Tree(es, collate)| == |Ids(es)|
  {
    SortedIdsLaw(es, collate);
    TopNodesTidy(es, SortedIds(es, collate), collate);
  }
}
