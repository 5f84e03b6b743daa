/** The collector routes of the consumers: started, stopped, replaced by a new configuration, or ending by themselves. */
module CollectorRoutes {
  import opened Options
  import opened ConfigMigration
  import opened ConfigMigrationLaws
  import opened RouteDelivery
  import opened SavedConsumers

  datatype Saved = Saved(consumers: seq<Consumer>, publishers: seq<Publisher>)

  // ------------------------------------------------------------------ the shared state and its critical sections

  /** What a route was started with: the consumer as it was read, and where its output resolved to. */
  datatype Running = Running(consumer: Consumer, target: Target)

  /** `runs` records every route ever started, by handle; `live` are those that have not ended. */
  datatype State = State(config: Saved, handles: map<string, nat>, live: set<nat>, runs: seq<Running>)

  predicate IsLive(s: State, key: string) {
    key in s.handles && s.handles[key] in s.live
  }

  /** Under the handles lock: starts a consumer unless its route is running. */
  function Started(s: State, consumer: Consumer, publishers: seq<Publisher>, comesUp: bool): State {
    var key := RuntimeKey(consumer);
    if consumer.endpoint.IsNull() || IsLive(s, key) then s
    else
      match Resolve(consumer, publishers)
      case Err(_) => s
      case Ok(target) =>
        if !comesUp then s
        else s.(handles := s.handles[key := |s.runs|], live := s.live + {|s.runs|}, runs := s.runs + [Running(consumer, target)])
  }

  function Stopped(s: State, key: string): State {
    if key in s.handles then s.(handles := s.handles - {key}, live := s.live - {s.handles[key]}) else s
  }

  /** Whether an update from `was` to `new` stops the route of `key`. */
  predicate MustStop(key: string, was: seq<Consumer>, next: seq<Consumer>) {
    var i, j := FindKey(was, key), FindKey(next, key);
    i == |was| || j == |next| || was[i] != next[j]
  }

  /** Under the handles lock: stops the routes of consumers that changed or are gone. */
  function StoppedChanged(s: State, was: seq<Consumer>, next: seq<Consumer>): State {
    var keys := set key | key in s.handles && MustStop(key, was, next);
    s.(handles := s.handles - keys, live := s.live - (set key | key in keys :: s.handles[key]))
  }

  ghost predicate AllResolve(config: Saved) {
    forall i :: 0 <= i < |config.consumers| ==> Resolve(config.consumers[i], config.publishers).Ok?
  }

  // ------------------------------------------------------------------ every live route is tracked

  /** Each live handle is in the table under the key of the consumer it runs. */
  ghost predicate IsTracked(s: State) {
    && (forall h :: h in s.live ==> h < |s.runs| && s.handles.Keys >= {RuntimeKey(s.runs[h].consumer)})
    && (forall h :: h in s.live ==> s.handles[RuntimeKey(s.runs[h].consumer)] == h)
    && (forall key :: key in s.handles ==> s.handles[key] < |s.runs| && RuntimeKey(s.runs[s.handles[key]].consumer) == key)
  }

  lemma StartedKeepsTracking(s: State, consumer: Consumer, publishers: seq<Publisher>, comesUp: bool)
    requires IsTracked(s)
    ensures IsTracked(Started(s, consumer, publishers, comesUp))
  {
    hide RuntimeKey, Resolve;
  }

  lemma StoppedKeepsTracking(s: State, key: string)
    requires IsTracked(s)
    ensures IsTracked(Stopped(s, key))
  {
    hide RuntimeKey;
  }

  lemma StoppedChangedKeepsTracking(s: State, was: seq<Consumer>, next: seq<Consumer>)
    requires IsTracked(s)
    ensures IsTracked(StoppedChanged(s, was, next))
  {
    hide RuntimeKey, MustStop;
  }

  /** Where a call is between reading the configuration and taking the handles lock. */
  datatype Call =
    | ToStart(consumer: Consumer, publishers: seq<Publisher>)
    | ToStop(key: string)
    | ToReplace(was: Saved, next: Saved)
    | ToSave(next: Saved)

  datatype World = World(state: State, calls: map<int, Call>)

  datatype Event =
    | ReadForStart(call: int, lookup: string)
    | Start(call: int, comesUp: bool)
    | ReadForStop(call: int, lookup: string)
    | Stop(call: int)
    | ReadForUpdate(call: int, next: Saved)
    | StopChanged(call: int)
    | Save(call: int, succeeds: bool)
    | Completes(handle: nat)

  function Begun(w: World, id: int, call: Call): World {
    w.(calls := w.calls[id := call])
  }

  ghost predicate Next(w: World, event: Event, w': World) {
    var s := w.state;
    match event
    case ReadForStart(id, lookup) =>
      var i := FindMatch(s.config.consumers, lookup);
      id !in w.calls && i < |s.config.consumers| && w' == Begun(w, id, ToStart(s.config.consumers[i], s.config.publishers))
    case Start(id, comesUp) =>
      && id in w.calls && w.calls[id].ToStart?
      && w' == World(Started(s, w.calls[id].consumer, w.calls[id].publishers, comesUp), w.calls - {id})
    case ReadForStop(id, lookup) =>
      var i := FindMatch(s.config.consumers, lookup);
      && id !in w.calls
      && w' == Begun(w, id, ToStop(if i < |s.config.consumers| then RuntimeKey(s.config.consumers[i]) else lookup))
    case Stop(id) => id in w.calls && w.calls[id].ToStop? && w' == World(Stopped(s, w.calls[id].key), w.calls - {id})
    case ReadForUpdate(id, next) =>
      var normal := Saved(NormalConsumers(next.consumers), next.publishers);
      id !in w.calls && AllResolve(normal) && w' == Begun(w, id, ToReplace(s.config, normal))
    case StopChanged(id) =>
      && id in w.calls && w.calls[id].ToReplace?
      && var c := w.calls[id];
         w' == Begun(w.(state := StoppedChanged(s, c.was.consumers, c.next.consumers)), id, ToSave(c.next))
    case Save(id, succeeds) =>
      && id in w.calls && w.calls[id].ToSave?
      && w' == World(if succeeds then s.(config := w.calls[id].next) else s, w.calls - {id})
    case Completes(h) => w' == w.(state := s.(live := s.live - {h}))
  }

  ghost predicate IsRun(worlds: seq<World>, events: seq<Event>) {
    && |worlds| == |events| + 1 && IsTracked(worlds[0].state)
    && forall i :: 0 <= i < |events| ==> Next(worlds[i], events[i], worlds[i + 1])
  }

  lemma TrackingIsKept(w: World, event: Event, w': World)
    requires IsTracked(w.state) && Next(w, event, w')
    ensures IsTracked(w'.state)
  {
    hide IsTracked, Started, Stopped, StoppedChanged;
    match event
    case Start(id, comesUp) => StartedKeepsTracking(w.state, w.calls[id].consumer, w.calls[id].publishers, comesUp);
    case Stop(id) => StoppedKeepsTracking(w.state, w.calls[id].key);
    case StopChanged(id) => StoppedChangedKeepsTracking(w.state, w.calls[id].was.consumers, w.calls[id].next.consumers);
    case Save(id, succeeds) => TrackingIgnoresConfig(w.state, w'.state);
    case Completes(h) => CompletionKeepsTracking(w.state, h);
    case _ =>
  }

  lemma TrackingIgnoresConfig(s: State, s': State)
    requires IsTracked(s) && s' == s.(config := s'.config)
    ensures IsTracked(s')
  {
  }

  lemma CompletionKeepsTracking(s: State, h: nat)
    requires IsTracked(s)
    ensures IsTracked(s.(live := s.live - {h}))
  {
  }

  lemma {:induction false} RunsStayTracked(worlds: seq<World>, events: seq<Event>, i: nat)
    requires IsRun(worlds, events) && i < |worlds|
    ensures IsTracked(worlds[i].state)
  {
    hide IsTracked, Next;
    if i > 0 {
      RunsStayTracked(worlds, events, i - 1);
      TrackingIsKept(worlds[i - 1], events[i - 1], worlds[i]);
    }
  }

  /** However the calls interleave, a consumer key has at most one live route, and its handle is in the table. */
  lemma OneLiveRoutePerKey(worlds: seq<World>, events: seq<Event>, i: nat, g: nat, h: nat)
    requires IsRun(worlds, events) && i < |worlds| && g in worlds[i].state.live && h in worlds[i].state.live
    ensures var s := worlds[i].state;
            && g < |s.runs| && h < |s.runs|
            && (RuntimeKey(s.runs[g].consumer) == RuntimeKey(s.runs[h].consumer) ==> g == h)
            && var key := RuntimeKey(s.runs[g].consumer); key in s.handles && s.handles[key] == g
  {
    hide RuntimeKey;
    RunsStayTracked(worlds, events, i);
  }

  // ------------------------------------------------------------------ one call at a time

  /** The first consumer with this key is `c`. */
  predicate IsSavedAs(cs: seq<Consumer>, key: string, c: Consumer) {
    var i := FindKey(cs, key);
    i < |cs| && cs[i] == c
  }

  /** Every live route in the table runs the consumer that is saved under its key. */
  ghost predicate RunsWhatIsSaved(s: State) {
    forall key :: IsLive(s, key) && s.handles[key] < |s.runs| ==>
      IsSavedAs(s.config.consumers, key, s.runs[s.handles[key]].consumer)
  }

  /** Its output is where the saved consumer resolves to among the saved publishers. */
  ghost predicate DeliversWhereSaved(s: State) {
    forall key :: IsLive(s, key) && s.handles[key] < |s.runs| ==>
      var run := s.runs[s.handles[key]];
      Resolve(run.consumer, s.config.publishers) == Ok(run.target)
  }

  lemma UniqueKeyIsFound(cs: seq<Consumer>, i: nat)
    requires HasUniqueKeys(cs) && i < |cs|
    ensures FindKey(cs, RuntimeKey(cs[i])) == i
  {
    hide RuntimeKey;
    FindKeyLaw(cs, RuntimeKey(cs[i]));
  }

  /** Starting a consumer as it is saved. */
  lemma StartRunsWhatIsSaved(s: State, i: nat, comesUp: bool)
    requires IsTracked(s) && RunsWhatIsSaved(s) && HasUniqueKeys(s.config.consumers) && i < |s.config.consumers|
    ensures var s' := Started(s, s.config.consumers[i], s.config.publishers, comesUp);
            && IsTracked(s') && RunsWhatIsSaved(s') && s'.config == s.config
            && (DeliversWhereSaved(s) ==> DeliversWhereSaved(s'))
  {
    hide RuntimeKey, Resolve, FindKey, HasUniqueKeys;
    StartedKeepsTracking(s, s.config.consumers[i], s.config.publishers, comesUp);
    UniqueKeyIsFound(s.config.consumers, i);
  }

  /** A start brings up this consumer unless it has no endpoint, runs already or does not resolve; other keys stay. */
  lemma StartTouchesOneKey(s: State, c: Consumer, publishers: seq<Publisher>, comesUp: bool)
    requires IsTracked(s)
    ensures var s', key, resolved := Started(s, c, publishers, comesUp), RuntimeKey(c), Resolve(c, publishers);
            if c.endpoint.kind != "null" && !IsLive(s, key) && resolved.Ok? && comesUp then
              && IsLive(s', key) && s'.handles[key] == |s.runs|
              && s'.runs == s.runs + [Running(c, resolved.value)] && s'.config == s.config
              && (forall k :: k != key ==> (IsLive(s', k) <==> IsLive(s, k)))
              && (forall k :: k != key && IsLive(s, k) ==> s'.handles[k] == s.handles[k])
            else s' == s
  {
    hide RuntimeKey, Resolve;
  }

  lemma StopTouchesOneKey(s: State, key: string)
    requires IsTracked(s)
    ensures var s' := Stopped(s, key);
            && key !in s'.handles && !IsLive(s', key) && s'.runs == s.runs && s'.config == s.config
            && (key in s.handles ==> s.handles[key] !in s'.live)
            && (forall k :: k != key ==> (IsLive(s', k) <==> IsLive(s, k)))
            && (forall k :: k != key && k in s.handles ==> k in s'.handles && s'.handles[k] == s.handles[k])
  {
    hide RuntimeKey;
    forall k | k != key && IsLive(s, k) && key in s.handles ensures s.handles[k] != s.handles[key] {
      assert RuntimeKey(s.runs[s.handles[k]].consumer) == k;
    }
  }

  lemma StopRunsWhatIsSaved(s: State, key: string)
    requires IsTracked(s) && RunsWhatIsSaved(s)
    ensures var s' := Stopped(s, key);
            && IsTracked(s') && RunsWhatIsSaved(s') && (DeliversWhereSaved(s) ==> DeliversWhereSaved(s'))
            && s'.config == s.config && !IsLive(s', key)
  {
    hide RuntimeKey, Resolve, FindKey;
    StoppedKeepsTracking(s, key);
  }

  lemma CompletionRunsWhatIsSaved(s: State, h: nat)
    requires IsTracked(s) && RunsWhatIsSaved(s)
    ensures var s' := s.(live := s.live - {h});
            IsTracked(s') && RunsWhatIsSaved(s') && (DeliversWhereSaved(s) ==> DeliversWhereSaved(s'))
  {
    hide RuntimeKey, Resolve, FindKey;
    CompletionKeepsTracking(s, h);
  }

  /** The state after an update, whether or not the new configuration could be saved. */
  function Updated(s: State, next: Saved, succeeds: bool): State {
    var stopped := StoppedChanged(s, s.config.consumers, next.consumers);
    if succeeds then stopped.(config := next) else stopped
  }

  /** What an update does to one key: its route goes on if the consumer is saved unchanged. */
  lemma UpdateKeeps(s: State, next: Saved, succeeds: bool, key: string)
    requires IsTracked(s)
    ensures IsLive(Updated(s, next, succeeds), key) <==>
            IsLive(s, key) && !MustStop(key, s.config.consumers, next.consumers)
    ensures key in Updated(s, next, succeeds).handles ==>
              key in s.handles && Updated(s, next, succeeds).handles[key] == s.handles[key]
  {
    hide RuntimeKey, MustStop;
    var s' := Updated(s, next, succeeds);
    var keys := set k | k in s.handles && MustStop(k, s.config.consumers, next.consumers);
    if IsLive(s, key) && key !in keys {
      forall k | k in keys ensures s.handles[k] != s.handles[key] {
        assert RuntimeKey(s.runs[s.handles[k]].consumer) == k;
      }
    }
  }

  ghost predicate IsFirstWithKey(cs: seq<Consumer>, key: string, i: nat) {
    i < |cs| && RuntimeKey(cs[i]) == key && forall j :: 0 <= j < i ==> RuntimeKey(cs[j]) != key
  }

  /** After an update a route lives on exactly if the first consumer with its key is the same as before. */
  lemma ChangedRoutesStop(s: State, next: Saved, succeeds: bool, key: string)
    requires IsTracked(s)
    ensures var cs, ds := s.config.consumers, next.consumers;
            IsLive(Updated(s, next, succeeds), key) <==>
            IsLive(s, key) &&
            exists i: nat, j: nat :: IsFirstWithKey(cs, key, i) && IsFirstWithKey(ds, key, j) && cs[i] == ds[j]
  {
    hide RuntimeKey, FindKey, IsTracked, Updated;
    UpdateKeeps(s, next, succeeds, key);
    FirstWithKeyIsFound(s.config.consumers, key);
    FirstWithKeyIsFound(next.consumers, key);
  }

  lemma FirstWithKeyIsFound(cs: seq<Consumer>, key: string)
    ensures forall i: nat :: IsFirstWithKey(cs, key, i) <==> i == FindKey(cs, key) && i < |cs|
  {
    hide RuntimeKey, FindKey;
    FindKeyLaw(cs, key);
    forall i: nat ensures IsFirstWithKey(cs, key, i) <==> i == FindKey(cs, key) && i < |cs| {
      if IsFirstWithKey(cs, key, i) && i != FindKey(cs, key) {
        assert i < |cs| && RuntimeKey(cs[i]) == key;
      }
    }
  }

  lemma UpdateKeepsTracking(s: State, next: Saved, succeeds: bool)
    requires IsTracked(s)
    ensures IsTracked(Updated(s, next, succeeds))
  {
    hide RuntimeKey, StoppedChanged, IsTracked;
    StoppedChangedKeepsTracking(s, s.config.consumers, next.consumers);
    TrackingIgnoresConfig(StoppedChanged(s, s.config.consumers, next.consumers), Updated(s, next, succeeds));
  }

  /** An update leaves no route running a consumer that differs from the one saved. */
  lemma UpdateRunsWhatIsSaved(s: State, next: Saved, succeeds: bool)
    requires IsTracked(s) && RunsWhatIsSaved(s)
    ensures var s' := Updated(s, next, succeeds); IsTracked(s') && RunsWhatIsSaved(s')
  {
    hide RuntimeKey, FindKey, StoppedChanged, IsTracked;
    var s' := Updated(s, next, succeeds);
    UpdateKeepsTracking(s, next, succeeds);
    forall key | IsLive(s', key) && s'.handles[key] < |s'.runs|
      ensures IsSavedAs(s'.config.consumers, key, s'.runs[s'.handles[key]].consumer)
    {
      UpdateKeeps(s, next, succeeds, key);
      SameRuns(s, next.consumers);
    }
  }

  lemma SameRuns(s: State, next: seq<Consumer>)
    ensures StoppedChanged(s, s.config.consumers, next).runs == s.runs
    ensures StoppedChanged(s, s.config.consumers, next).config == s.config
  {
  }

  /** The output of a route that goes on resolves among the new publishers as it did among those before. */
  ghost predicate KeepsTargets(s: State, next: Saved) {
    forall key :: IsLive(s, key) && s.handles[key] < |s.runs| && !MustStop(key, s.config.consumers, next.consumers) ==>
      var c := s.runs[s.handles[key]].consumer;
      Resolve(c, next.publishers) == Resolve(c, s.config.publishers)
  }

  /**
   Only consumers are compared, not publishers: after a saved update the routes deliver where the new
   configuration says exactly when no route that goes on has its output resolved anew.
   */
  lemma UpdateDeliversWhereSaved(s: State, next: Saved)
    requires IsTracked(s) && RunsWhatIsSaved(s) && DeliversWhereSaved(s)
    ensures DeliversWhereSaved(Updated(s, next, true)) <==> KeepsTargets(s, next)
  {
    hide RuntimeKey, FindKey, StoppedChanged, Resolve, MustStop, RunsWhatIsSaved;
    var s' := Updated(s, next, true);
    SameRuns(s, next.consumers);
    forall key ensures IsLive(s', key) <==> IsLive(s, key) && !MustStop(key, s.config.consumers, next.consumers)
      ensures IsLive(s', key) ==> s'.handles[key] == s.handles[key]
    {
      UpdateKeeps(s, next, true, key);
    }
    if DeliversWhereSaved(s') {
      forall key | IsLive(s, key) && s.handles[key] < |s.runs| && !MustStop(key, s.config.consumers, next.consumers)
        ensures var c := s.runs[s.handles[key]].consumer;
                Resolve(c, next.publishers) == Resolve(c, s.config.publishers)
      {
        assert IsLive(s', key);
      }
    }
  }

  // ------------------------------------------------------------------ calls as their steps

  lemma StepsAreDetermined(w: World, event: Event, a: World, b: World)
    requires Next(w, event, a) && Next(w, event, b)
    ensures a == b
  {
    hide Started, Stopped, StoppedChanged, AllResolve, NormalConsumers, FindMatch, RuntimeKey;
  }

  /** A start with nothing in between: the first consumer with that key or name, with the publishers there are now. */
  lemma StartIsItsSteps(s: State, lookup: string, comesUp: bool, i: nat) returns (u: World, v: World)
    requires IsFirstMatch(s.config.consumers, lookup, i) && i < |s.config.consumers|
    ensures Next(World(s, map[]), ReadForStart(0, lookup), u) && Next(u, Start(0, comesUp), v)
    ensures v == World(Started(s, s.config.consumers[i], s.config.publishers, comesUp), map[])
  {
    hide Started, FindMatch, IsFirstMatch;
    FindMatchLaw(s.config.consumers, lookup, i);
    var call := ToStart(s.config.consumers[i], s.config.publishers);
    u := World(s, map[0 := call]);
    v := World(Started(s, s.config.consumers[i], s.config.publishers, comesUp), map[]);
    assert map[0 := call] - {0} == map[];
  }

  /** A stop with nothing in between: of the route of the first consumer with that key or name, or else of the key itself. */
  lemma StopIsItsSteps(s: State, lookup: string, i: nat) returns (u: World, v: World)
    requires IsFirstMatch(s.config.consumers, lookup, i)
    ensures Next(World(s, map[]), ReadForStop(0, lookup), u) && Next(u, Stop(0), v)
    ensures v == World(Stopped(s, if i < |s.config.consumers| then RuntimeKey(s.config.consumers[i]) else lookup), map[])
  {
    hide Stopped, FindMatch, IsFirstMatch, RuntimeKey;
    FindMatchLaw(s.config.consumers, lookup, i);
    var key := if i < |s.config.consumers| then RuntimeKey(s.config.consumers[i]) else lookup;
    u := World(s, map[0 := ToStop(key)]);
    v := World(Stopped(s, key), map[]);
    assert map[0 := ToStop(key)] - {0} == map[];
  }

  /** An update with nothing in between. */
  lemma UpdateIsItsSteps(s: State, requested: Saved, saves: bool) returns (u: World, v: World, w: World)
    requires AllResolve(Saved(NormalConsumers(requested.consumers), requested.publishers))
    ensures Next(World(s, map[]), ReadForUpdate(0, requested), u) && Next(u, StopChanged(0), v) && Next(v, Save(0, saves), w)
    ensures w == World(Updated(s, Saved(NormalConsumers(requested.consumers), requested.publishers), saves), map[])
  {
    hide StoppedChanged, AllResolve, NormalConsumers;
    var next := Saved(NormalConsumers(requested.consumers), requested.publishers);
    u := World(s, map[0 := ToReplace(s.config, next)]);
    v := World(StoppedChanged(s, s.config.consumers, next.consumers), map[0 := ToSave(next)]);
    w := World(Updated(s, next, saves), map[]);
    assert map[0 := ToSave(next)] - {0} == map[];
  }

  // ------------------------------------------------------------------ exactly when the calls keep that

  /** Whether a start brings a route up. */
  predicate Starts(s: State, consumer: Consumer, publishers: seq<Publisher>, comesUp: bool) {
    !consumer.endpoint.IsNull() && !IsLive(s, RuntimeKey(consumer)) && Resolve(consumer, publishers).Ok? && comesUp
  }

  /** A start, with a consumer that may have been read long ago, keeps the agreement exactly if that is the one saved now. */
  lemma StartKeepsExactly(s: State, c: Consumer, publishers: seq<Publisher>, comesUp: bool)
    requires IsTracked(s) && RunsWhatIsSaved(s)
    ensures RunsWhatIsSaved(Started(s, c, publishers, comesUp)) <==>
            (Starts(s, c, publishers, comesUp) ==> IsSavedAs(s.config.consumers, RuntimeKey(c), c))
  {
    hide RuntimeKey, Resolve, FindKey;
    var s', key := Started(s, c, publishers, comesUp), RuntimeKey(c);
    if Starts(s, c, publishers, comesUp) {
      assert IsLive(s', key) && s'.runs[s'.handles[key]].consumer == c;
      forall k | IsLive(s', k) && s'.handles[k] < |s'.runs| && k != key
        ensures IsLive(s, k) && s'.runs[s'.handles[k]] == s.runs[s.handles[k]]
      {
      }
    } else {
      assert s' == s;
    }
  }

  /** A start that reads the configuration as it is now brings up nothing, or the consumer saved under its key. */
  predicate StartsWhatIsSaved(s: State, c: Consumer, comesUp: bool) {
    Starts(s, c, s.config.publishers, comesUp) ==> IsSavedAs(s.config.consumers, RuntimeKey(c), c)
  }

  /** No route that is live now has another consumer saved under its key by `next`. */
  ghost predicate IsReadyFor(s: State, next: seq<Consumer>) {
    forall key :: IsLive(s, key) ==> !MustStop(key, s.config.consumers, next)
  }

  /** Saving keeps the agreement exactly if every changed route has ended by then. */
  lemma SaveKeepsExactly(s: State, next: Saved)
    requires IsTracked(s) && RunsWhatIsSaved(s)
    ensures RunsWhatIsSaved(s.(config := next)) <==> IsReadyFor(s, next.consumers)
  {
    hide RuntimeKey, FindKey;
    var s' := s.(config := next);
    forall key | IsLive(s, key)
      ensures !MustStop(key, s.config.consumers, next.consumers) <==>
              IsSavedAs(next.consumers, key, s.runs[s.handles[key]].consumer)
    {
      assert IsSavedAs(s.config.consumers, key, s.runs[s.handles[key]].consumer);
    }
    if RunsWhatIsSaved(s') {
      forall key | IsLive(s, key) ensures !MustStop(key, s.config.consumers, next.consumers) {
        assert IsLive(s', key);
      }
    }
  }

  /** What a step must meet for the live routes to run what is saved. */
  ghost predicate KeepsSaved(w: World, event: Event) {
    match event
    case Start(id, comesUp) =>
      id in w.calls && w.calls[id].ToStart? && Starts(w.state, w.calls[id].consumer, w.calls[id].publishers, comesUp) ==>
        IsSavedAs(w.state.config.consumers, RuntimeKey(w.calls[id].consumer), w.calls[id].consumer)
    case Save(id, succeeds) =>
      id in w.calls && w.calls[id].ToSave? && succeeds ==> IsReadyFor(w.state, w.calls[id].next.consumers)
    case _ => true
  }

  lemma StepKeepsExactly(w: World, event: Event, w': World)
    requires IsTracked(w.state) && RunsWhatIsSaved(w.state) && Next(w, event, w')
    ensures RunsWhatIsSaved(w'.state) <==> KeepsSaved(w, event)
  {
    hide IsTracked, RunsWhatIsSaved, Started, Starts, Stopped, StoppedChanged, IsSavedAs, RuntimeKey, IsReadyFor;
    match event
    case Start(id, comesUp) => StartKeepsExactly(w.state, w.calls[id].consumer, w.calls[id].publishers, comesUp);
    case Stop(id) => StopRunsWhatIsSaved(w.state, w.calls[id].key);
    case StopChanged(id) => FewerRunWhatIsSaved(w.state, w.calls[id].was.consumers, w.calls[id].next.consumers);
    case Save(id, succeeds) => SaveKeepsExactly(w.state, w.calls[id].next);
    case Completes(h) => CompletionRunsWhatIsSaved(w.state, h);
    case _ =>
  }

  lemma FewerRunWhatIsSaved(s: State, was: seq<Consumer>, next: seq<Consumer>)
    requires RunsWhatIsSaved(s)
    ensures RunsWhatIsSaved(StoppedChanged(s, was, next))
  {
    hide RuntimeKey, FindKey, MustStop;
  }

  /**
   However the calls interleave, every live route runs what is saved in all states of a run exactly when
   each start brings up the consumer saved at that moment, and each save finds no changed route live.
   */
  lemma {:induction false} RunsAgreeExactly(worlds: seq<World>, events: seq<Event>)
    requires IsRun(worlds, events) && RunsWhatIsSaved(worlds[0].state)
    ensures (forall i :: 0 <= i < |worlds| ==> RunsWhatIsSaved(worlds[i].state)) <==>
            (forall i :: 0 <= i < |events| ==> KeepsSaved(worlds[i], events[i]))
  {
    hide IsTracked, RunsWhatIsSaved, KeepsSaved, Next;
    if forall i :: 0 <= i < |worlds| ==> RunsWhatIsSaved(worlds[i].state) {
      forall i | 0 <= i < |events| ensures KeepsSaved(worlds[i], events[i]) {
        RunsStayTracked(worlds, events, i);
        StepKeepsExactly(worlds[i], events[i], worlds[i + 1]);
      }
    }
    if forall i :: 0 <= i < |events| ==> KeepsSaved(worlds[i], events[i]) {
      forall i | 0 <= i < |worlds| ensures RunsWhatIsSaved(worlds[i].state) {
        RunsAgreeUpTo(worlds, events, i);
      }
    }
  }

  lemma {:induction false} RunsAgreeUpTo(worlds: seq<World>, events: seq<Event>, i: nat)
    requires IsRun(worlds, events) && RunsWhatIsSaved(worlds[0].state) && i < |worlds|
    requires forall j :: 0 <= j < |events| ==> KeepsSaved(worlds[j], events[j])
    ensures RunsWhatIsSaved(worlds[i].state)
  {
    hide IsTracked, RunsWhatIsSaved, KeepsSaved, Next;
    if i > 0 {
      RunsAgreeUpTo(worlds, events, i - 1);
      RunsStayTracked(worlds, events, i - 1);
      StepKeepsExactly(worlds[i - 1], events[i - 1], worlds[i]);
    }
  }

  /** A consumer named `c` that listens in memory. */
  function Listener(output: Output, options: RouteOptions): Consumer {
    Consumer("c", "c", true, Endpoint("memory", "in"), "", None, output, Capture(false, 1), options)
  }

  lemma ListenerKey(output: Output, options: RouteOptions)
    ensures RuntimeKey(Listener(output, options)) == "c"
  {
    hide Trimmed;
    EndsAreClean("c");
  }

  lemma ResolvesByName(output: Output, options: RouteOptions, p: Publisher)
    requires output == ToPublisher("p", None) && p.name == "p"
    ensures Resolve(Listener(output, options), [p]) == Ok(Deliver(p.endpoint))
  {
    hide Trimmed;
    EndsAreClean("p");
    assert IsMeant([p][0], "p", None);
    assert FirstMeant([p], "p", None) == 0;
  }

  /** Moving a publisher to another endpoint leaves an unchanged consumer delivering to the endpoint it had before. */
  lemma PublisherChangeGoesUnnoticed() returns (s: State, next: Saved)
    ensures IsTracked(s) && RunsWhatIsSaved(s) && DeliversWhereSaved(s)
    ensures next.consumers == s.config.consumers && HasUniqueKeys(next.consumers)
    ensures !DeliversWhereSaved(Updated(s, next, true))
  {
    var output, options := ToPublisher("p", None), RouteOptions("");
    var c := Listener(output, options);
    var before, after := Endpoint("memory", "before"), Endpoint("memory", "after");
    var p, q := NewPublisher("x", "p", before), NewPublisher("x", "p", after);
    ListenerKey(output, options);
    ResolvesByName(output, options, p);
    ResolvesByName(output, options, q);
    hide RuntimeKey, Resolve, Listener;
    s := State(Saved([c], [p]), map["c" := 0], {0}, [Running(c, Deliver(before))]);
    next := Saved([c], [q]);
    assert FindKey([c], "c") == 0;
    assert IsTracked(s);
    UpdateDeliversWhereSaved(s, next);
    assert IsLive(s, "c") && !MustStop("c", [c], [c]);
  }

  /** A start that read the configuration before an update can bring up the consumer as it was, whatever changed in it. */
  lemma StartCanOutliveAnUpdate(c: Consumer, d: Consumer, ps: seq<Publisher>, target: Target)
    returns (worlds: seq<World>, events: seq<Event>)
    requires RuntimeKey(c) == RuntimeKey(d) && c != d && !c.endpoint.IsNull() && NormalConsumer(d) == d
    requires Resolve(c, ps) == Ok(target) && Resolve(d, ps).Ok?
    ensures IsRun(worlds, events) && RunsWhatIsSaved(worlds[0].state) && worlds[0].state.config == Saved([c], ps)
    ensures var w := worlds[|events|];
            w.calls == map[] && w.state.config == Saved([d], ps) && !RunsWhatIsSaved(w.state)
  {
    hide RuntimeKey, Resolve, NormalConsumer, Started;
    var key, start := RuntimeKey(c), ToStart(c, ps);
    var s := State(Saved([c], ps), map[], {}, []);
    var a, b := World(s, map[]), World(s, map[0 := start]);
    assert Next(a, ReadForStart(0, key), b) by { FirstMatches(c, key); }
    var e, f, g := UpdateMeanwhile(s, start, d, ps);
    var i := World(Started(g.state, c, ps, true), map[]);
    assert Next(g, Start(0, true), i) by { assert map[0 := start] - {0} == map[]; }
    LateStartRunsAnother(g.state, c, d, ps, target);
    assert IsTracked(s);
    hide Next, IsTracked, RunsWhatIsSaved;
    worlds := [a, b, e, f, g, i];
    events := [ReadForStart(0, key), ReadForUpdate(1, Saved([d], ps)), StopChanged(1), Save(1, true), Start(0, true)];
  }

  /** A whole update to a single consumer, while another call waits and no route is there. */
  lemma UpdateMeanwhile(s: State, waiting: Call, d: Consumer, ps: seq<Publisher>) returns (e: World, f: World, g: World)
    requires s.handles == map[] && NormalConsumer(d) == d && Resolve(d, ps).Ok?
    ensures Next(World(s, map[0 := waiting]), ReadForUpdate(1, Saved([d], ps)), e)
    ensures Next(e, StopChanged(1), f) && Next(f, Save(1, true), g)
    ensures g == World(s.(config := Saved([d], ps)), map[0 := waiting])
  {
    hide NormalConsumer, Resolve;
    var next := Saved([d], ps);
    var calls := map[0 := waiting, 1 := ToSave(next)];
    e, f := World(s, map[0 := waiting, 1 := ToReplace(s.config, next)]), World(s, calls);
    g := World(s.(config := next), map[0 := waiting]);
    OneNormalConsumer(d, ps);
    NothingToStop(s, s.config.consumers, next.consumers);
    assert calls - {1} == map[0 := waiting];
  }

  lemma LateStartRunsAnother(s: State, c: Consumer, d: Consumer, ps: seq<Publisher>, target: Target)
    requires s == State(Saved([d], ps), map[], {}, [])
    requires RuntimeKey(c) == RuntimeKey(d) && c != d && !c.endpoint.IsNull() && Resolve(c, ps) == Ok(target)
    ensures var s' := Started(s, c, ps, true); s'.config == s.config && !RunsWhatIsSaved(s')
  {
    hide RuntimeKey, Resolve;
    var key, s' := RuntimeKey(c), Started(s, c, ps, true);
    assert IsLive(s', key) && FindKey([d], key) == 0;
  }

  lemma FirstMatches(c: Consumer, key: string)
    requires key == RuntimeKey(c)
    ensures FindMatch([c], key) == 0
  {
    hide RuntimeKey;
  }

  lemma OneNormalConsumer(d: Consumer, ps: seq<Publisher>)
    requires NormalConsumer(d) == d && Resolve(d, ps).Ok?
    ensures NormalConsumers([d]) == [d] && AllResolve(Saved([d], ps))
  {
    hide NormalConsumer, Resolve;
  }

  lemma NothingToStop(s: State, was: seq<Consumer>, next: seq<Consumer>)
    requires s.handles == map[]
    ensures StoppedChanged(s, was, next) == s
  {
  }

  // ------------------------------------------------------------------ the application object, one call at a time

  class Collectors {
    var config: Saved
    var handles: map<string, nat>
    var live: set<nat>
    var runs: seq<Running>

    function View(): State
      reads this
    {
      State(config, handles, live, runs)
    }

    ghost predicate Valid()
      reads this
    {
      IsTracked(View())
    }

    constructor (config: Saved)
      ensures Valid() && View() == State(config, map[], {}, []) && RunsWhatIsSaved(View())
    {
      this.config, handles, live, runs := config, map[], {}, [];
    }

    /** `comesUp` says whether the route starts. */
    method StartConsumer(lookup: string, comesUp: bool) returns (found: bool)
      requires Valid()
      modifies this
      ensures Valid()
      ensures var cs := old(config).consumers;
              found <==> exists j :: 0 <= j < |cs| && (RuntimeKey(cs[j]) == lookup || cs[j].name == lookup)
      ensures var i := FindMatch(old(config).consumers, lookup);
              && (found <==> i < |old(config).consumers|)
              && View() == (if found then Started(old(View()), old(config).consumers[i], old(config).publishers, comesUp)
                            else old(View()))
              && (RunsWhatIsSaved(old(View())) && found ==>
                    (RunsWhatIsSaved(View()) <==> StartsWhatIsSaved(old(View()), old(config).consumers[i], comesUp)))
    {
      hide RuntimeKey, Resolve, FindMatch, IsTracked, RunsWhatIsSaved, IsSavedAs;
      var i := FindMatch(config.consumers, lookup);
      FindsIfThere(config.consumers, lookup);
      if i == |config.consumers| {
        return false;
      }
      found := true;
      var consumer := config.consumers[i];
      StartedKeepsTracking(View(), consumer, config.publishers, comesUp);
      if RunsWhatIsSaved(View()) {
        StartKeepsExactly(View(), consumer, config.publishers, comesUp);
      }
      var key := RuntimeKey(consumer);
      if consumer.endpoint.IsNull() || (key in handles && handles[key] in live) {
        return;
      }
      var resolved := Resolve(consumer, config.publishers);
      if resolved.Ok? && comesUp {
        var handle := |runs|;
        runs := runs + [Running(consumer, resolved.value)];
        live := live + {handle};
        handles := handles[key := handle];
      }
    }

    method StopConsumer(lookup: string) returns (stopped: bool)
      requires Valid()
      modifies this
      ensures Valid()
      ensures var i := FindMatch(old(config).consumers, lookup);
              var key := if i < |old(config).consumers| then RuntimeKey(old(config).consumers[i]) else lookup;
              (stopped <==> key in old(handles)) && View() == Stopped(old(View()), key)
      ensures var cs := old(config).consumers;
              forall j: nat :: IsFirstMatch(cs, lookup, j) ==>
                (stopped <==> (if j < |cs| then RuntimeKey(cs[j]) else lookup) in old(handles))
      ensures RunsWhatIsSaved(old(View())) ==> RunsWhatIsSaved(View())
    {
      hide RuntimeKey, FindMatch, IsFirstMatch, IsTracked, RunsWhatIsSaved;
      FindMatchIsFirst(config.consumers, lookup);
      var i := FindMatch(config.consumers, lookup);
      var key := if i < |config.consumers| then RuntimeKey(config.consumers[i]) else lookup;
      StoppedKeepsTracking(View(), key);
      if RunsWhatIsSaved(View()) {
        StopRunsWhatIsSaved(View(), key);
      }
      stopped := key in handles;
      if stopped {
        var handle := handles[key];
        handles := handles - {key};
        live := live - {handle};
      }
    }

    method Complete(handle: nat)
      requires Valid()
      modifies this`live
      ensures Valid() && live == old(live) - {handle}
      ensures RunsWhatIsSaved(old(View())) ==> RunsWhatIsSaved(View())
    {
      hide RunsWhatIsSaved;
      CompletionKeepsTracking(View(), handle);
      if RunsWhatIsSaved(View()) {
        CompletionRunsWhatIsSaved(View(), handle);
      }
      live := live - {handle};
    }

    /** The keys to stop are gathered first; then each is taken out of the table and its route stopped. */
    method StopChanged(next: seq<Consumer>)
      modifies this`handles, this`live
      ensures View() == StoppedChanged(old(View()), config.consumers, next)
    {
      hide RuntimeKey, MustStop, FindKey;
      ghost var was := handles;
      ghost var keys := set key | key in handles && MustStop(key, config.consumers, next);
      var unseen, toRemove := handles.Keys, {};
      while unseen != {}
        invariant unseen <= handles.Keys && toRemove == keys - unseen
      {
        var key :| key in unseen;
        unseen := unseen - {key};
        if MustStop(key, config.consumers, next) {
          toRemove := toRemove + {key};
        }
      }
      assert toRemove == keys;
      while toRemove != {}
        invariant toRemove <= keys && handles == was - (keys - toRemove)
        invariant live == old(live) - (set key | key in keys - toRemove :: was[key])
      {
        var key :| key in toRemove;
        var handle := handles[key];
        assert keys - (toRemove - {key}) == keys - toRemove + {key};
        toRemove := toRemove - {key};
        handles := handles - {key};
        live := live - {handle};
      }
    }

    /** Refused, with nothing changed, when an output does not resolve; otherwise `saves` says whether saving works. */
    method UpdateConfig(requested: Saved, saves: bool) returns (saved: bool)
      requires Valid()
      modifies this
      ensures Valid()
      ensures var next := Saved(NormalConsumers(requested.consumers), requested.publishers);
              && (saved <==> AllResolve(next) && saves)
              && View() == if AllResolve(next) then Updated(old(View()), next, saves) else old(View())
      ensures RunsWhatIsSaved(old(View())) ==> RunsWhatIsSaved(View())
    {
      hide RuntimeKey, Resolve, FindKey, IsTracked, RunsWhatIsSaved, NormalConsumers, NormalConsumer, StoppedChanged;
      var consumers := NormalConsumers(requested.consumers);
      ghost var next := Saved(consumers, requested.publishers);
      for i := 0 to |consumers|
        invariant forall j :: 0 <= j < i ==> Resolve(consumers[j], requested.publishers).Ok?
        invariant View() == old(View())
      {
        var resolved := Resolve(consumers[i], requested.publishers);
        if resolved.Err? {
          assert Resolve(next.consumers[i], next.publishers).Err?;
          return false;
        }
      }
      assert AllResolve(next);
      UpdateKeepsTracking(View(), next, saves);
      if RunsWhatIsSaved(View()) {
        UpdateRunsWhatIsSaved(View(), next, saves);
      }
      SameRuns(View(), consumers);
      StopChanged(consumers);
      if !saves {
        return false;
      }
      config := Saved(consumers, requested.publishers);
      saved := true;
    }
  }
}
