/** The lease file of a running instance: its heartbeat, its release, and the listings of its peers. */
module StatusLease {
  import opened Options
  import opened Sorting

  const LEASE_TTL: nat := 7000
  const CLOCK_SKEW: nat := 60000
  const SCHEMA_VERSION: nat := 1
  const MAX_RECORD_BYTES: nat := 256 * 1024
  const MAX_U64: nat := 0xFFFF_FFFF_FFFF_FFFF

  /** Last seen no more than seven seconds ago and no more than a minute ahead; 64-bit sums saturate. */
  predicate IsFresh(lastSeen: nat, now: nat) {
    && lastSeen <= (if now + CLOCK_SKEW <= MAX_U64 then now + CLOCK_SKEW else MAX_U64)
    && (if now >= lastSeen then now - lastSeen else 0) <= LEASE_TTL
  }

  // ------------------------------------------------------------------ listing the directory

  datatype Record = Record(version: nat, lastSeen: nat, instance: string, text: string)

  datatype Content = Unreadable | Malformed | Status(record: Record)

  datatype File =
    | Temporary(abandoned: bool)
    | Other
    | Lease(size: nat, content: Content)

  /** Records that nobody will bring back to life. Unreadable ones and unknown versions are left alone. */
  predicate IsStale(f: File, now: nat) {
    match f
    case Temporary(abandoned) => abandoned
    case Other => false
    case Lease(size, content) =>
      || size > MAX_RECORD_BYTES
      || content.Malformed?
      || (content.Status? && content.record.version == SCHEMA_VERSION && !IsFresh(content.record.lastSeen, now))
  }

  predicate IsListed(f: File, now: nat) {
    && f.Lease? && f.size <= MAX_RECORD_BYTES && f.content.Status? && f.content.record.version == SCHEMA_VERSION
    && IsFresh(f.content.record.lastSeen, now)
  }

  /** Times of 64 bits are fresh from seven seconds ago up to a minute ahead, both ends included. */
  lemma FreshLaw(lastSeen: nat, now: nat)
    requires lastSeen <= 18446744073709551615 && now <= 18446744073709551615
    ensures IsFresh(lastSeen, now) <==> now - 7000 <= lastSeen <= now + 60000
  {
  }

  datatype Fate = Removed | Shown | LeftAlone

  /** Temporary files go when abandoned; leases when too large, malformed, or of version 1 and not fresh. */
  ghost function FateOf(f: File, now: nat): Fate {
    match f
    case Temporary(abandoned) => if abandoned then Removed else LeftAlone
    case Other => LeftAlone
    case Lease(size, content) =>
      if size > 262144 then Removed
      else
        match content
        case Unreadable => LeftAlone
        case Malformed => Removed
        case Status(record) =>
          if record.version != 1 then LeftAlone
          else if record.lastSeen < now - 7000 || record.lastSeen > now + 60000 then Removed
          else Shown
  }

  lemma FateLaw(f: File, now: nat)
    requires now <= 18446744073709551615
    requires f.Lease? && f.content.Status? ==> f.content.record.lastSeen <= 18446744073709551615
    ensures IsStale(f, now) <==> FateOf(f, now) == Removed
    ensures IsListed(f, now) <==> FateOf(f, now) == Shown
  {
    hide IsFresh;
    if f.Lease? && f.content.Status? {
      FreshLaw(f.content.record.lastSeen, now);
    }
  }

  /** The fresh records, each with the path of its file. */
  function FreshRecords(files: map<string, File>, now: nat): set<(string, Record)> {
    set path | path in files && IsListed(files[path], now) :: (path, files[path].content.record)
  }

  predicate Precedes(a: string, b: string) {
    if a == [] || b == [] then |a| < |b|
    else a[0] < b[0] || (a[0] == b[0] && Precedes(a[1..], b[1..]))
  }

  /** `a` ends where `b` goes on, or has the smaller character where they first differ, after `n` characters in common. */
  ghost predicate DiffersAfter(a: string, b: string, n: nat) {
    && n <= |a| && n < |b| && a[..n] == b[..n]
    && (n < |a| ==> a[n] < b[n])
  }

  lemma {:induction false} PrecedesLaw(a: string, b: string)
    ensures Precedes(a, b) <==> exists n: nat :: DiffersAfter(a, b, n)
  {
    if a == [] || b == [] {
      assert a == [] && b != [] ==> DiffersAfter(a, b, 0);
    } else {
      PrecedesLaw(a[1..], b[1..]);
      if a[0] < b[0] {
        assert DiffersAfter(a, b, 0);
      } else if Precedes(a, b) {
        var n: nat :| DiffersAfter(a[1..], b[1..], n);
        assert a[..n + 1] == [a[0]] + a[1..][..n] && b[..n + 1] == [b[0]] + b[1..][..n];
        assert DiffersAfter(a, b, n + 1);
      }
      if exists n: nat :: DiffersAfter(a, b, n) {
        var n: nat :| DiffersAfter(a, b, n);
        if n > 0 {
          assert a[0] == a[..n][0] == b[..n][0] == b[0];
          assert a[1..][..n - 1] == a[..n][1..] && b[1..][..n - 1] == b[..n][1..];
          assert DiffersAfter(a[1..], b[1..], n - 1);
        }
      }
    }
  }

  predicate InstanceBefore(a: (string, Record), b: (string, Record)) {
    Precedes(a.1.instance, b.1.instance)
  }

  lemma {:induction false} PrecedesIsAsymmetric(a: string, b: string)
    ensures !(Precedes(a, b) && Precedes(b, a))
  {
    if a != [] && b != [] { PrecedesIsAsymmetric(a[1..], b[1..]); }
  }

  lemma {:induction false} NotPrecedesIsTransitive(a: string, b: string, c: string)
    requires !Precedes(b, a) && !Precedes(c, b)
    ensures !Precedes(c, a)
  {
    if a != [] && b != [] && c != [] && a[0] == b[0] == c[0] { NotPrecedesIsTransitive(a[1..], b[1..], c[1..]); }
  }

  lemma InstancesAreOrdered()
    ensures IsWeakOrder(InstanceBefore)
  {
    hide Precedes;
    forall x: (string, Record), y: (string, Record) | InstanceBefore(x, y) ensures !InstanceBefore(y, x) {
      PrecedesIsAsymmetric(x.1.instance, y.1.instance);
    }
    forall x: (string, Record), y: (string, Record), z: (string, Record) | !InstanceBefore(y, x) && !InstanceBefore(z, y)
      ensures !InstanceBefore(z, x)
    {
      NotPrecedesIsTransitive(x.1.instance, y.1.instance, z.1.instance);
    }
  }

  class Directory {
    var files: map<string, File>

    /** `stuck` are the files that cannot be removed; such failures are ignored. */
    method RemoveStale(path: string, stuck: set<string>)
      modifies this
      ensures files == if path in stuck then old(files) else old(files) - {path}
    {
      if path !in stuck {
        files := files - {path};
      }
    }

    /** What becomes of one entry: a stale file is removed, a fresh record is listed. */
    method Visit(path: string, file: File, now: nat, stuck: set<string>) returns (found: seq<(string, Record)>)
      modifies this
      ensures files == old(files) - (if IsStale(file, now) && path !in stuck then {path} else {})
      ensures !IsStale(file, now) && IsListed(file, now) ==> found == [(path, file.content.record)]
      ensures IsStale(file, now) || !IsListed(file, now) ==> found == []
    {
      found := [];
      if IsStale(file, now) {
        RemoveStale(path, stuck);
      } else if IsListed(file, now) {
        found := [(path, file.content.record)];
      }
    }

    /** The fresh records, each once, by instance id; none of them is removed. */
    method List(now: nat, stuck: set<string>) returns (listed: seq<(string, Record)>)
      modifies this
      ensures files == Remaining(old(files), old(files), now, stuck)
      ensures multiset(listed) == multiset(FreshRecords(old(files), now)) && IsInOrder(listed, InstanceBefore)
      ensures FreshRecords(files, now) == FreshRecords(old(files), now)
    {
      hide ArePartsOf, Precedes, IsFresh, IsStale, IsListed, FreshRecords, Remaining, StableSort, IsWeakOrder, IsInOrder;
      listed := [];
      var entries := files;
      ghost var all := files;
      ghost var seen := map[];
      NothingSeen(all, now, stuck);
      while entries != map[]
        invariant ArePartsOf(entries, seen, all)
        invariant files == Remaining(all, seen, now, stuck)
        invariant multiset(listed) == multiset(FreshRecords(seen, now))
        decreases |entries|
      {
        var path :| path in entries;
        var file := entries[path];
        VisitOne(entries, seen, all, path);
        entries := entries - {path};
        SeenOneMore(all, seen, path, now, stuck);
        seen := seen[path := file];
        var found := Visit(path, file, now, stuck);
        listed := listed + found;
      }
      AllSeen(seen, all);
      FreshAreKept(all, now, stuck);
      InstancesAreOrdered();
      SortedIsInOrder(listed, InstanceBefore);
      listed := StableSort(listed, InstanceBefore);
    }
  }

  /** What is left when the entries in `seen` have been visited: the stale ones that can be removed are gone. */
  function Remaining(all: map<string, File>, seen: map<string, File>, now: nat, stuck: set<string>): map<string, File> {
    all - ((set path | path in seen && IsStale(seen[path], now)) - stuck)
  }

  /** The entries still to visit and those visited make up all. */
  ghost predicate ArePartsOf(entries: map<string, File>, seen: map<string, File>, all: map<string, File>) {
    entries.Keys !! seen.Keys && all == seen + entries
  }

  lemma VisitOne(entries: map<string, File>, seen: map<string, File>, all: map<string, File>, path: string)
    requires ArePartsOf(entries, seen, all) && path in entries
    ensures path in all && path !in seen && all[path] == entries[path]
    ensures ArePartsOf(entries - {path}, seen[path := entries[path]], all)
  {
    assert all == seen[path := entries[path]] + (entries - {path});
  }

  lemma AllSeen(seen: map<string, File>, all: map<string, File>)
    requires ArePartsOf(map[], seen, all)
    ensures seen == all
  {
  }

  lemma NothingSeen(all: map<string, File>, now: nat, stuck: set<string>)
    ensures ArePartsOf(all, map[], all)
    ensures Remaining(all, map[], now, stuck) == all && FreshRecords(map[], now) == {}
  {
  }

  lemma SeenOneMore(all: map<string, File>, seen: map<string, File>, path: string, now: nat, stuck: set<string>)
    requires path !in seen && path in all
    ensures var file, more := all[path], seen[path := all[path]];
            && Remaining(all, more, now, stuck)
               == Remaining(all, seen, now, stuck) - (if IsStale(file, now) && path !in stuck then {path} else {})
            && (IsListed(file, now) ==> file.Lease? && file.content.Status? && !IsStale(file, now))
            && multiset(FreshRecords(more, now)) == multiset(FreshRecords(seen, now))
               + if IsListed(file, now) then multiset{(path, file.content.record)} else multiset{}
  {
    hide IsFresh;
    var file := all[path];
    ListedIsNotStale(file, now);
    var more := seen[path := file];
    var one := if IsListed(file, now) then {(path, file.content.record)} else {};
    forall entry ensures entry in FreshRecords(more, now) <==> entry in FreshRecords(seen, now) + one {
      assert entry in FreshRecords(seen, now) ==> entry.0 in more;
      assert entry in one ==> entry.0 in more;
    }
    assert FreshRecords(more, now) == FreshRecords(seen, now) + one;
    assert IsListed(file, now) ==> (path, file.content.record) !in FreshRecords(seen, now);
  }

  /** What is listed is never removed. */
  lemma ListedIsNotStale(f: File, now: nat)
    ensures !(IsListed(f, now) && IsStale(f, now))
  {
  }

  lemma FreshAreKept(files: map<string, File>, now: nat, stuck: set<string>)
    ensures FreshRecords(Remaining(files, files, now, stuck), now) == FreshRecords(files, now)
  {
    hide IsFresh, IsListed, IsStale;
    forall path | path in files ensures !(IsListed(files[path], now) && IsStale(files[path], now)) {
      ListedIsNotStale(files[path], now);
    }
    var kept := Remaining(files, files, now, stuck);
    forall entry | entry in FreshRecords(files, now) ensures entry in FreshRecords(kept, now) {
      assert entry.0 in kept;
    }
  }

  // ------------------------------------------------------------------ the lease of one instance

  /** Who holds the lock on the `released` flag. A publisher has read the flag or not; a release has got so far. */
  datatype Lock =
    | Free
    | Publishing(lastSeen: nat, checked: bool)
    | Releasing(marked: bool, removed: bool)

  /** `queued` are publications handed to the blocking threads; `returned` counts the releases that are over. */
  datatype State = State(
    file: Option<nat>, released: bool, lock: Lock, queued: multiset<nat>, inRelease: bool, returned: nat)

  datatype Event =
    | Tick(lastSeen: nat)
    | PublisherLocks(lastSeen: nat)
    | PublisherChecks
    | PublisherWrites(outcome: Option<nat>)
    | ReleaseBegins
    | ReleaseLocks
    | ReleaseMarks
    | ReleaseRemoves(succeeds: bool)
    | ReleaseReturns
    | PeerRemoves(now: nat)

  const START := State(None, false, Free, multiset{}, false, 0)

  ghost predicate Next(s: State, event: Event, s': State) {
    match event
    // The heartbeat is aborted when a release begins, but may be past the point where that stops it.
    case Tick(lastSeen) => s' == s.(queued := s.queued + multiset{lastSeen})
    case PublisherLocks(lastSeen) =>
      && s.lock.Free? && lastSeen in s.queued
      && s' == s.(lock := Publishing(lastSeen, false), queued := s.queued - multiset{lastSeen})
    case PublisherChecks =>
      && s.lock.Publishing? && !s.lock.checked
      && s' == s.(lock := if s.released then Free else Publishing(s.lock.lastSeen, true))
    case PublisherWrites(outcome) =>
      // A publication that fails leaves the old file, or on Windows none.
      && s.lock.Publishing? && s.lock.checked
      && (outcome == Some(s.lock.lastSeen) || outcome == s.file || outcome == None)
      && s' == s.(file := outcome, lock := Free)
    case ReleaseBegins => !s.inRelease && s' == s.(inRelease := true)
    case ReleaseLocks => s.inRelease && s.lock.Free? && s' == s.(lock := Releasing(false, false))
    case ReleaseMarks => s.lock == Releasing(false, false) && s' == s.(released := true, lock := Releasing(true, false))
    case ReleaseRemoves(succeeds) =>
      // A file that is already gone counts as removed; any other failure is ignored.
      && s.lock == Releasing(true, false)
      && s' == s.(file := if succeeds then None else s.file, lock := Releasing(true, true))
    case ReleaseReturns =>
      s.lock == Releasing(true, true) && s' == s.(lock := Free, inRelease := false, returned := s.returned + 1)
    case PeerRemoves(now) => s.file.Some? && !IsFresh(s.file.value, now) && s' == s.(file := None)
  }

  /** States of which each comes from the one before by its event. */
  ghost predicate IsPath(states: seq<State>, events: seq<Event>) {
    && |states| == |events| + 1
    && forall i :: 0 <= i < |events| ==> Next(states[i], events[i], states[i + 1])
  }

  ghost predicate IsRun(states: seq<State>, events: seq<Event>) {
    IsPath(states, events) && states[0] == START
  }

  /** The lock is what keeps the flag from changing between a publisher's look at it and its write. */
  ghost predicate Invariant(s: State) {
    && (s.lock.Publishing? && s.lock.checked ==> !s.released)
    && (s.lock.Releasing? ==> s.inRelease && (s.lock.marked ==> s.released))
    && (s.returned > 0 ==> s.released)
  }

  lemma InvariantIsKept(s: State, event: Event, s': State)
    requires Invariant(s) && Next(s, event, s')
    ensures Invariant(s')
    ensures s.released ==> s'.released && (s'.file == s.file || s'.file == None)
    ensures s'.returned >= s.returned
  {
  }

  lemma {:induction false} InvariantHolds(states: seq<State>, events: seq<Event>, i: nat)
    requires IsRun(states, events) && i < |states|
    ensures Invariant(states[i])
  {
    if i > 0 {
      InvariantHolds(states, events, i - 1);
      InvariantIsKept(states[i - 1], events[i - 1], states[i]);
    }
  }

  /** From the moment the flag is set, the file is never written: it stays as it is until it is removed. */
  lemma {:induction false} ReleasedIsNeverWritten(states: seq<State>, events: seq<Event>, i: nat, j: nat)
    requires IsRun(states, events) && i <= j < |states| && states[i].released
    ensures states[j].released && (states[j].file == states[i].file || states[j].file == None)
    decreases j
  {
    hide Next, Invariant;
    if j > i {
      ReleasedIsNeverWritten(states, events, i, j - 1);
      InvariantHolds(states, events, j - 1);
      InvariantIsKept(states[j - 1], events[j - 1], states[j]);
    }
  }

  /**
   The lease is absent ever after a removal exactly when the removal succeeds or finds no file, whatever
   publications, listings and further releases follow.
   */
  lemma AbsentAfterRelease(states: seq<State>, events: seq<Event>, i: nat)
    requires IsRun(states, events) && i < |events| && events[i].ReleaseRemoves?
    ensures (forall j :: i < j < |states| ==> states[j].file == None) <==> events[i].succeeds || states[i].file == None
    ensures forall j :: i < j < |states| ==> states[j].released
  {
    InvariantHolds(states, events, i);
    assert Next(states[i], events[i], states[i + 1]);
    forall j | i < j < |states| ensures states[j].released && (states[i + 1].file == None ==> states[j].file == None) {
      ReleasedIsNeverWritten(states, events, i + 1, j);
    }
  }

  // ------------------------------------------------------------------ the lease, one call at a time

  /** What becomes of a publication: the record is not written, or not renamed into place, or is. */
  datatype Outcome = Unwritten | Unrenamed | Renamed

  /** The lease file and the flag that its owner and the publishing threads share; each method holds the lock throughout. */
  class Lease {
    var file: Option<nat>
    var released: bool
    ghost var releases: nat

    ghost function View(): State
      reads this
    {
      State(file, released, Free, multiset{}, false, releases)
    }

    constructor ()
      ensures View() == START
    {
      file, released, releases := None, false, 0;
    }

    /** On Windows the old file is removed before the new one is renamed. */
    method Publish(lastSeen: nat, outcome: Outcome, onWindows: bool)
      modifies this`file
      ensures file == if released || outcome.Unwritten? then old(file)
                      else if outcome.Renamed? then Some(lastSeen)
                      else if onWindows then None else old(file)
    {
      if released {
        return;
      }
      if outcome.Unwritten? {
        return;
      }
      if onWindows {
        file := None;
      }
      if outcome.Renamed? {
        file := Some(lastSeen);
      }
    }

    method Release(succeeds: bool)
      modifies this
      ensures released && file == (if succeeds then None else old(file)) && releases == old(releases) + 1
    {
      released := true;
      if succeeds {
        file := None;
      }
      releases := releases + 1;
    }
  }

  function PublishSteps(released: bool, lastSeen: nat, outcome: Option<nat>): seq<Event> {
    [Tick(lastSeen), PublisherLocks(lastSeen), PublisherChecks] + if released then [] else [PublisherWrites(outcome)]
  }

  function ReleaseSteps(succeeds: bool): seq<Event> {
    [ReleaseBegins, ReleaseLocks, ReleaseMarks, ReleaseRemoves(succeeds), ReleaseReturns]
  }

  datatype Request = ToPublish(lastSeen: nat, outcome: Outcome, onWindows: bool) | ToRelease(succeeds: bool)

  /** Each call of the lease has the effect of its steps when nothing comes between them. */
  method CallsAreStepsTaken(lease: Lease, request: Request) returns (ghost states: seq<State>, ghost events: seq<Event>)
    modifies lease
    ensures IsPath(states, events) && states[0] == old(lease.View()) && states[|events|] == lease.View()
    ensures request.ToPublish? ==> events == PublishSteps(old(lease.released), request.lastSeen, lease.file)
    ensures request.ToRelease? ==> events == ReleaseSteps(request.succeeds)
  {
    ghost var s := lease.View();
    match request
    case ToPublish(lastSeen, outcome, onWindows) =>
      lease.Publish(lastSeen, outcome, onWindows);
      states, events := PublishedAlone(s, lastSeen, lease.file);
    case ToRelease(succeeds) =>
      lease.Release(succeeds);
      states, events := ReleasedAlone(s, succeeds);
  }

  /** The steps of one publication. */
  lemma PublishedAlone(s: State, lastSeen: nat, outcome: Option<nat>) returns (states: seq<State>, events: seq<Event>)
    requires s.lock.Free? && s.queued == multiset{} && (outcome == Some(lastSeen) || outcome == s.file || outcome == None)
    requires s.released ==> outcome == s.file
    ensures IsPath(states, events) && states[0] == s && states[|events|] == s.(file := outcome)
    ensures events == PublishSteps(s.released, lastSeen, outcome)
  {
    var a := s.(queued := multiset{lastSeen});
    var b := s.(lock := Publishing(lastSeen, false));
    var c := s.(lock := if s.released then Free else Publishing(lastSeen, true));
    states, events := [s, a, b, c], [Tick(lastSeen), PublisherLocks(lastSeen), PublisherChecks];
    if !s.released {
      states, events := states + [s.(file := outcome)], events + [PublisherWrites(outcome)];
    }
  }

  /** The steps of one release. */
  lemma ReleasedAlone(s: State, succeeds: bool) returns (states: seq<State>, events: seq<Event>)
    requires s.lock.Free? && !s.inRelease
    ensures IsPath(states, events) && states[0] == s
    ensures states[|events|] == s.(file := if succeeds then None else s.file, released := true, returned := s.returned + 1)
    ensures events == ReleaseSteps(succeeds)
  {
    var a := s.(inRelease := true);
    var b := a.(lock := Releasing(false, false));
    var c := b.(released := true, lock := Releasing(true, false));
    var d := c.(file := if succeeds then None else s.file, lock := Releasing(true, true));
    states := [s, a, b, c, d, d.(lock := Free, inRelease := false, returned := s.returned + 1)];
    events := ReleaseSteps(succeeds);
  }

  lemma JoinPaths(states: seq<State>, events: seq<Event>, more: seq<State>, steps: seq<Event>)
    requires IsPath(states, events) && IsPath(more, steps) && states[|events|] == more[0]
    ensures var all := states + more[1..];
            IsPath(all, events + steps) && all[0] == states[0] && all[|events| + |steps|] == more[|steps|]
  {
    hide Next;
    var all, both := states + more[1..], events + steps;
    assert forall k :: 0 <= k <= |steps| ==> all[|events| + k] == more[k];
    forall i | 0 <= i < |both| ensures Next(all[i], both[i], all[i + 1]) {
      if i < |events| {
        assert Next(states[i], events[i], states[i + 1]);
      } else {
        var k := i - |events|;
        assert all[|events| + k] == more[k] && all[|events| + (k + 1)] == more[k + 1];
        assert Next(more[k], steps[k], more[k + 1]);
      }
    }
  }

  /** Any calls, one after the other, make a run; once a release has removed the file, no publication brings it back. */
  method CallsMakeRuns(requests: seq<Request>) returns (lease: Lease, ghost states: seq<State>, ghost events: seq<Event>)
    ensures fresh(lease) && IsRun(states, events) && states[|events|] == lease.View()
    ensures ToRelease(true) in requests ==> lease.released && lease.file == None
  {
    hide Next, PublishSteps;
    lease := new Lease();
    states, events := [START], [];
    for n := 0 to |requests|
      invariant fresh(lease) && IsRun(states, events) && states[|events|] == lease.View()
      invariant ToRelease(true) in requests[..n] ==> ReleaseRemoves(true) in events
    {
      ghost var more, steps := CallsAreStepsTaken(lease, requests[n]);
      assert requests[n] == ToRelease(true) ==> steps[3] == ReleaseRemoves(true);
      JoinPaths(states, events, more, steps);
      states, events := states + more[1..], events + steps;
    }
    assert requests[..|requests|] == requests;
    if ReleaseRemoves(true) in events {
      ghost var i :| 0 <= i < |events| && events[i] == ReleaseRemoves(true);
      AbsentAfterRelease(states, events, i);
    }
  }

  /** A removal that fails goes unnoticed: the release returns and the lease is still there. */
  lemma FailedRemovalLeavesTheLease() returns (states: seq<State>, events: seq<Event>)
    ensures IsRun(states, events)
    ensures var s := states[|events|]; s.returned == 1 && s.file == Some(1000) && s.lock == Free && !s.inRelease
  {
    hide Next;
    states, events := PublishedAlone(START, 1000, Some(1000));
    var more, steps := ReleasedAlone(states[|events|], false);
    JoinPaths(states, events, more, steps);
    states, events := states + more[1..], events + steps;
  }
}
