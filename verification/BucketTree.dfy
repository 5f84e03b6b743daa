/** From one finished bucket to its sidebar nodes, and what holds of them. */
module BucketTree {
  import opened Options
  import opened Text
  import opened PathTrie
  import opened PathTrieHeap
  import opened PathTree
  import opened PathTreeLaws

  // ---------------------------------------------------------------------------
  // The longest common prefix of the recorded paths.

  predicate AgreeAt(paths: seq<seq<string>>, k: nat)
    requires paths != []
  {
    k < |paths[0]| && forall i :: 0 <= i < |paths| ==> k < |paths[i]| && paths[i][k] == paths[0][k]
  }

  function PrefixLength(paths: seq<seq<string>>, k: nat): (n: nat)
    requires paths != [] && k <= |paths[0]|
    ensures k <= n <= |paths[0]|
    decreases |paths[0]| - k
  {
    if AgreeAt(paths, k) then PrefixLength(paths, k + 1) else k
  }

  function CommonPrefix(paths: seq<seq<string>>): seq<string> {
    if paths == [] then [] else paths[0][..PrefixLength(paths, 0)]
  }

  lemma {:induction false} PrefixLengthLaw(paths: seq<seq<string>>, k: nat)
    requires paths != [] && k <= |paths[0]|
    ensures var n := PrefixLength(paths, k);
            && !AgreeAt(paths, n)
            && forall j :: k <= j < n ==> AgreeAt(paths, j)
    decreases |paths[0]| - k
  {
    if AgreeAt(paths, k) {
      PrefixLengthLaw(paths, k + 1);
    }
  }

  /** It is a prefix of every path, and no longer one is. */
  lemma CommonPrefixLaw(paths: seq<seq<string>>)
    requires paths != []
    ensures forall i :: 0 <= i < |paths| ==> CommonPrefix(paths) <= paths[i]
    ensures forall s :: exists i :: 0 <= i < |paths| && !(CommonPrefix(paths) + [s] <= paths[i])
  {
    PrefixLengthLaw(paths, 0);
    var p := CommonPrefix(paths);
    forall i | 0 <= i < |paths| ensures p <= paths[i] {
      forall j | 0 <= j < |p| ensures j < |paths[i]| && p[j] == paths[i][j] {
        assert AgreeAt(paths, j);
      }
      if |p| > 0 { assert AgreeAt(paths, |p| - 1); }
    }
    forall s ensures exists i :: 0 <= i < |paths| && !(p + [s] <= paths[i]) {
      if forall i :: 0 <= i < |paths| ==> p + [s] <= paths[i] {
        assert forall i :: 0 <= i < |paths| ==> (p + [s])[|p|] == paths[i][|p|];
        assert AgreeAt(paths, |p|);
      }
    }
  }

  method CommonPathPrefix(paths: seq<seq<string>>) returns (prefix: seq<string>)
    ensures prefix == CommonPrefix(paths)
  {
    if paths == [] {
      return [];
    }
    var shortest := |paths[0]|;
    for i := 0 to |paths|
      invariant shortest <= |paths[0]|
      invariant forall j :: 0 <= j < i ==> shortest <= |paths[j]|
      invariant exists j :: 0 <= j < |paths| && shortest == |paths[j]|
    {
      if |paths[i]| < shortest { shortest := |paths[i]|; }
    }
    prefix := [];
    var index := 0;
    while index < shortest
      invariant index <= shortest && prefix == paths[0][..index]
      invariant PrefixLength(paths, index) == PrefixLength(paths, 0)
    {
      var segment := paths[0][index];
      if forall i :: 0 <= i < |paths| ==> paths[i][index] == segment {
        assert AgreeAt(paths, index);
        prefix := prefix + [segment];
      } else {
        assert !AgreeAt(paths, index);
        return;
      }
      index := index + 1;
    }
    assert !AgreeAt(paths, index);
  }

  // ---------------------------------------------------------------------------
  // The start node.

  function FindSegment(ts: seq<Trie>, s: string): (i: nat)
    ensures i <= |ts| && (i < |ts| ==> ts[i].segment == s)
    ensures i == |ts| ==> forall j :: 0 <= j < |ts| ==> ts[j].segment != s
  {
    if ts == [] || ts[0].segment == s then 0 else 1 + FindSegment(ts[1..], s)
  }

  function Follow(t: Trie, prefix: seq<string>): Option<Trie>
    decreases |prefix|
  {
    if prefix == [] then Some(t)
    else
      var i := FindSegment(t.children, prefix[0]);
      if i == |t.children| then None else Follow(t.children[i], prefix[1..])
  }

  /** The cursor loop of the lookup; a missing child falls back to the root. */
  method NodeForPathPrefix(root: Trie, prefix: seq<string>) returns (cursor: Trie)
    ensures cursor == match Follow(root, prefix) case Some(t) => t case None => root
  {
    cursor := root;
    for k := 0 to |prefix|
      invariant Follow(cursor, prefix[k..]) == Follow(root, prefix)
    {
      var i := FindSegment(cursor.children, prefix[k]);
      assert prefix[k..][1..] == prefix[k + 1..];
      if i == |cursor.children| {
        return root;
      }
      cursor := cursor.children[i];
    }
  }

  function StartNode(root: Trie, prefix: seq<string>): Trie {
    match Follow(root, prefix) case Some(t) => t case None => root
  }

  function PathOnly(path: seq<string>, leaf: Leaf): seq<string> {
    path
  }

  lemma {:induction false} EntriesExtend(t: Trie, at: seq<string>)
    ensures forall p :: p in Entries(t, at, PathOnly) ==> at <= p
    decreases t, 0
  {
    PlacedAt(at, t.exact);
    ChildEntriesExtend(t.children, at);
  }

  lemma {:induction false} PlacedAt(at: seq<string>, ls: seq<Leaf>)
    ensures forall p :: p in PlaceAll(at, ls, PathOnly) ==> p == at
  {
    if ls != [] { PlacedAt(at, ls[1..]); }
  }

  lemma {:induction false} ChildEntriesExtend(ts: seq<Trie>, at: seq<string>)
    ensures forall p :: p in ChildEntries(ts, at, PathOnly) ==> at <= p
    decreases ts, 1
  {
    if ts != [] {
      EntriesExtend(ts[0], at + [ts[0].segment]);
      ChildEntriesExtend(ts[1..], at);
    }
  }

  lemma {:induction false} ChildEntriesInclude(ts: seq<Trie>, at: seq<string>, i: nat, p: seq<string>)
    requires i < |ts| && p in Entries(ts[i], at + [ts[i].segment], PathOnly)
    ensures p in ChildEntries(ts, at, PathOnly)
  {
    if i > 0 { ChildEntriesInclude(ts[1..], at, i - 1, p); }
  }

  ghost predicate AllThrough(t: Trie, at: seq<string>, prefix: seq<string>) {
    forall p :: p in Entries(t, at, PathOnly) ==> at + prefix <= p
  }

  /** Below each child there is a path that goes through it. */
  lemma PathThroughChild(t: Trie, at: seq<string>, i: nat) returns (p: seq<string>)
    requires Grown(t, at) && i < |t.children|
    ensures p in Entries(t, at, PathOnly) && at + [t.children[i].segment] <= p
  {
    var c := t.children[i];
    CountIsSize(c, at + [c.segment], PathOnly);
    p :| p in Entries(c, at + [c.segment], PathOnly);
    EntriesExtend(c, at + [c.segment]);
    ChildEntriesInclude(t.children, at, i, p);
  }

  lemma ExactIsEntry(t: Trie, at: seq<string>)
    ensures t.exact != [] ==> at in Entries(t, at, PathOnly)
  {
    if t.exact != [] {
      assert PathOnly(at, t.exact[0]) in PlaceAll(at, t.exact, PathOnly);
    }
  }

  /** If every path goes on with `s`, the node has no leaf of its own and `s` is its only child. */
  lemma OnlyChild(t: Trie, at: seq<string>, s: string)
    requires Grown(t, at) && CountTrieLeaves(t) > 0 && AllThrough(t, at, [s])
    ensures t.exact == [] && |t.children| == 1 && t.children[0].segment == s
  {
    assert |t.children| >= 2 ==> t.children[0].segment != t.children[1].segment;
    ExactIsEntry(t, at);
    assert !(at + [s] <= at);
    forall i | 0 <= i < |t.children| ensures t.children[i].segment == s {
      var p := PathThroughChild(t, at, i);
      assert p[|at|] == (at + [s])[|at|] == (at + [t.children[i].segment])[|at|];
    }
  }

  lemma {:induction false} FollowLaw<O>(t: Trie, at: seq<string>, prefix: seq<string>, note: Note<O>)
    requires Grown(t, at) && CountTrieLeaves(t) > 0 && AllThrough(t, at, prefix)
    ensures var r := Follow(t, prefix);
            && r.Some?
            && Grown(r.value, at + prefix)
            && CountTrieLeaves(r.value) > 0
            && Entries(r.value, at + prefix, note) == Entries(t, at, note)
    decreases |prefix|
  {
    if prefix == [] {
      assert at + prefix == at;
    } else {
      var s := prefix[0];
      ThroughOne(t, at, prefix);
      OnlyChild(t, at, s);
      var child := t.children[0];
      OnlyChildIsGrown(t, at);
      SingleChildEntries(t, at, note);
      SingleChildEntries(t, at, PathOnly);
      assert FindSegment(t.children, s) == 0;
      assert at + [s] + prefix[1..] == at + prefix;
      hide Grown, CountTrieLeaves, Entries;
      FollowLaw(child, at + [s], prefix[1..], note);
    }
  }

  lemma ThroughOne(t: Trie, at: seq<string>, prefix: seq<string>)
    requires prefix != [] && AllThrough(t, at, prefix)
    ensures AllThrough(t, at, [prefix[0]])
  {
    hide Entries;
    forall p | p in Entries(t, at, PathOnly) ensures at + [prefix[0]] <= p {
      assert at + prefix <= p && (at + prefix)[|at|] == prefix[0];
    }
  }

  /** The start node of recorded paths branches: it has a leaf of its own or two children. */
  lemma StartBranches<O>(root: Trie, paths: seq<seq<string>>, note: Note<O>)
    requires Grown(root, []) && paths != [] && Entries(root, [], PathOnly) == multiset(paths)
    ensures var p := CommonPrefix(paths);
            var start := StartNode(root, p);
            && Grown(start, p)
            && CountTrieLeaves(start) > 0
            && Branching(start)
            && Entries(start, p, note) == Entries(root, [], note)
  {
    var p := CommonPrefix(paths);
    CommonPrefixLaw(paths);
    CountIsSize(root, [], PathOnly);
    assert paths[0] in multiset(paths);
    forall q | q in Entries(root, [], PathOnly) ensures [] + p <= q {
      assert q in paths;
    }
    assert [] + p == p;
    FollowLaw(root, [], p, note);
    FollowLaw(root, [], p, PathOnly);
    var start := StartNode(root, p);
    if start.exact == [] && |start.children| == 1 {
      var s := start.children[0].segment;
      SingleChildEntries(start, p, PathOnly);
      EntriesExtend(start.children[0], p + [s]);
      forall i | 0 <= i < |paths| ensures p + [s] <= paths[i] {
        assert paths[i] in multiset(paths);
      }
    }
    assert start.exact == [] && start.children == [] ==> CountTrieLeaves(start) == 0;
  }
}
