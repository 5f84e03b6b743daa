/** Message counters by key and their samples, and the locks that keep the three maps together. */
module RouteMetrics {
  import opened Options
  import opened Throughput

  /**
   The shared maps. A counter is an atomic number that its holders may keep incrementing after it has
   left the map, so the map holds identities and `counts` the numbers.
   */
  datatype Registry = Registry(
    counters: map<string, nat>, counts: map<nat, nat>, samples: map<string, Sample>, starts: map<string, real>)

  const EMPTY := Registry(map[], map[], map[], map[])

  /** Identities are handed out in order. */
  function NewCounter(r: Registry): nat {
    |r.counts|
  }

  ghost predicate HasOrderedCounters(r: Registry) {
    && (forall id: nat :: id in r.counts <==> id < |r.counts|)
    && (forall key :: key in r.counters ==> r.counters[key] in r.counts)
    && (forall a, b :: a in r.counters && b in r.counters && r.counters[a] == r.counters[b] ==> a == b)
  }

  function WithCounter(r: Registry, key: string): Registry {
    if key in r.counters then r
    else r.(counters := r.counters[key := NewCounter(r)], counts := r.counts[NewCounter(r) := 0])
  }

  function WithStart(r: Registry, key: string, now: real): Registry {
    if key in r.starts then r else r.(starts := r.starts[key := now])
  }

  function SampleOf(r: Registry, key: string, now: real, decay: real -> real): Sample
    requires key in r.counters && r.counters[key] in r.counts
  {
    var previous := if key in r.samples then Some(r.samples[key]) else None;
    NextSample(previous, r.counts[r.counters[key]] as real, now, decay)
  }

  predicate HasSameSample(r: Registry, was: Registry, key: string) {
    (key in r.samples <==> key in was.samples) && (key in r.samples ==> r.samples[key] == was.samples[key])
  }

  lemma SampleDepends(r: Registry, was: Registry, key: string, now: real, decay: real -> real)
    requires key in r.counters && r.counters[key] in r.counts
    requires r == was.(samples := r.samples) && HasSameSample(r, was, key)
    ensures SampleOf(r, key, now, decay) == SampleOf(was, key, now, decay)
  {
  }

  /** The samples of `was` after all but the `pending` counters have been read. */
  ghost predicate IsPartlySampled(r: Registry, was: Registry, pending: set<string>, now: real, decay: real -> real)
  {
    && r == was.(samples := r.samples) && HasOrderedCounters(was) && pending <= was.counters.Keys
    && (forall key :: key in pending ==> HasSameSample(r, was, key))
    && (forall key :: key in was.counters && key !in pending ==>
          key in r.samples && r.samples[key] == SampleOf(was, key, now, decay))
  }

  lemma NotYetSampled(was: Registry, now: real, decay: real -> real)
    requires HasOrderedCounters(was)
    ensures IsPartlySampled(was, was, was.counters.Keys, now, decay)
  {
  }

  lemma PartlySampledStep(r: Registry, was: Registry, pending: set<string>, key: string, now: real, decay: real -> real)
    requires IsPartlySampled(r, was, pending, now, decay) && key in pending
    requires key in r.counters && r.counters[key] in r.counts
    ensures IsPartlySampled(r.(samples := r.samples[key := SampleOf(r, key, now, decay)]), was, pending - {key}, now, decay)
  {
    SampleDepends(r, was, key, now, decay);
    hide SampleOf;
  }

  lemma WhollySampled(r: Registry, was: Registry, now: real, decay: real -> real)
    requires IsPartlySampled(r, was, {}, now, decay)
    ensures r.counters == was.counters && was.counters.Keys <= r.samples.Keys
    ensures forall key :: key in was.counters ==> was.counters[key] in was.counts && r.samples[key] == SampleOf(was, key, now, decay)
  {
    hide SampleOf;
  }

  function WithSample(r: Registry, key: string, now: real, decay: real -> real): Registry
    requires key in r.counters && r.counters[key] in r.counts
  {
    r.(samples := r.samples[key := SampleOf(r, key, now, decay)])
  }

  /** Sampling a key moves the rate it reports towards that of the messages counted since, and leaves other keys alone. */
  lemma SampledRate(r: Registry, key: string, now: real, rate: real, decay: real -> real, other: string)
    requires key in r.counters && r.counters[key] in r.counts && key in r.samples && key != other
    requires var s := r.samples[key];
             && Sequence(r, key) as real >= s.total && now > s.observedAt
             && rate * (now - s.observedAt) == Sequence(r, key) as real - s.total
    ensures var next := WithSample(r, key, now, decay);
            && Rate(next, key) - rate == (Rate(r, key) - rate) * decay((now - r.samples[key].observedAt) / 0.5)
            && Rate(next, other) == Rate(r, other)
  {
    hide NextSample;
    RateLaw(r.samples[key], Observation(Sequence(r, key) as real, now), rate, decay);
  }

  function Incremented(r: Registry, id: nat): Registry
    requires id in r.counts
  {
    r.(counts := r.counts[id := r.counts[id] + 1])
  }

  function Forgotten(r: Registry, key: string): Registry {
    r.(counters := r.counters - {key}, samples := r.samples - {key}, starts := r.starts - {key})
  }

  function Sequence(r: Registry, key: string): nat {
    if key in r.counters && r.counters[key] in r.counts then r.counts[r.counters[key]] else 0
  }

  function Rate(r: Registry, key: string): real {
    if key in r.samples then r.samples[key].rate else 0.0
  }

  /** No sample without a counter, and a start for each counter. */
  predicate HasMatchingKeys(r: Registry) {
    r.samples.Keys <= r.counters.Keys == r.starts.Keys
  }

  /** A sample never reports more than has been counted. */
  ghost predicate HasSoundSamples(r: Registry) {
    forall key :: key in r.samples && key in r.counters && r.counters[key] in r.counts ==>
      0.0 <= r.samples[key].total <= r.counts[r.counters[key]] as real
  }

  // ------------------------------------------------------------------ the object, one call at a time

  class Metrics {
    var counters: map<string, nat>
    var counts: map<nat, nat>
    var samples: map<string, Sample>
    var starts: map<string, real>

    function View(): Registry
      reads this
    {
      Registry(counters, counts, samples, starts)
    }

    ghost predicate Valid()
      reads this
    {
      HasOrderedCounters(View()) && HasMatchingKeys(View()) && HasSoundSamples(View())
    }

    constructor ()
      ensures Valid() && View() == EMPTY
    {
      counters, counts, samples, starts := map[], map[], map[], map[];
    }

    method CounterFor(key: string, now: real) returns (id: nat)
      requires Valid()
      modifies this
      ensures Valid() && View() == WithStart(WithCounter(old(View()), key), key, now)
      ensures key in counters && counters[key] == id
    {
      ghost var before := View();
      if key !in counters {
        id := |counts|;
        counts := counts[id := 0];
        counters := counters[key := id];
      } else {
        id := counters[key];
      }
      if key !in starts {
        starts := starts[key := now];
      }
      RegisteringKeeps(before, key, now);
    }

    method Increment(id: nat)
      requires Valid() && id in counts
      modifies this
      ensures Valid() && View() == Incremented(old(View()), id)
    {
      ghost var before := View();
      counts := counts[id := counts[id] + 1];
      IncrementKeeps(before, id);
    }

    method Forget(key: string)
      requires Valid()
      modifies this
      ensures Valid() && View() == Forgotten(old(View()), key)
    {
      counters := counters - {key};
      samples := samples - {key};
      starts := starts - {key};
    }

    method SampleKey(key: string, now: real, decay: real -> real)
      requires Valid() && key in counters
      modifies this`samples
      ensures Valid() && samples == old(samples)[key := SampleOf(old(View()), key, now, decay)]
    {
      SampleKeeps(View(), key, now, decay);
      var previous := if key in samples then Some(samples[key]) else None;
      samples := samples[key := NextSample(previous, counts[counters[key]] as real, now, decay)];
    }

    /** One tick of the background sampler: every counter is read once, in any order. */
    method SampleAll(now: real, decay: real -> real)
      requires Valid()
      modifies this`samples
      ensures Valid() && samples.Keys == counters.Keys
      ensures forall key :: key in counters ==> samples[key] == SampleOf(old(View()), key, now, decay)
    {
      hide SampleOf, HasSoundSamples, HasOrderedCounters, HasMatchingKeys, IsPartlySampled;
      ghost var was := View();
      var pending := counters.Keys;
      NotYetSampled(was, now, decay);
      while pending != {}
        invariant pending <= counters.Keys && Valid()
        invariant IsPartlySampled(View(), was, pending, now, decay)
        decreases |pending|
      {
        var key :| key in pending;
        CounterIsCounted(View(), key);
        PartlySampledStep(View(), was, pending, key, now, decay);
        SampleKey(key, now, decay);
        pending := pending - {key};
      }
      WhollySampled(View(), was, now, decay);
      SampledAreCounted(View());
    }

    method GetTiming(key: string) returns (timing: Option<Timing>)
      requires Valid()
      ensures timing.Some? <==> key in samples
      ensures key in samples ==> key in starts && timing == Some(TimingOf(samples[key], starts[key]))
      ensures timing == TimingSeen(View(), View(), key)
    {
      if key !in samples || key !in starts {
        return None;
      }
      timing := Some(TimingOf(samples[key], starts[key]));
    }
  }

  lemma CounterIsCounted(r: Registry, key: string)
    requires HasOrderedCounters(r) && key in r.counters
    ensures r.counters[key] in r.counts
  {
  }

  lemma SampledAreCounted(r: Registry)
    requires HasMatchingKeys(r)
    ensures r.samples.Keys <= r.counters.Keys
  {
  }

  lemma RegisteringKeeps(r: Registry, key: string, now: real)
    requires HasOrderedCounters(r) && HasMatchingKeys(r) && HasSoundSamples(r)
    ensures var r' := WithStart(WithCounter(r, key), key, now);
            HasOrderedCounters(r') && HasMatchingKeys(r') && HasSoundSamples(r')
  {
    CounterKeeps(r, key);
  }

  lemma CounterKeeps(r: Registry, key: string)
    requires HasOrderedCounters(r)
    ensures HasOrderedCounters(WithCounter(r, key))
    ensures r.samples.Keys <= r.counters.Keys && HasSoundSamples(r) ==> HasSoundSamples(WithCounter(r, key))
  {
    if key !in r.counters {
      assert NewCounter(r) !in r.counts;
      CountersStayOrdered(r, key);
    }
  }

  lemma CountersStayOrdered(r: Registry, key: string)
    requires HasOrderedCounters(r) && key !in r.counters
    ensures HasOrderedCounters(WithCounter(r, key))
  {
    var id, r' := NewCounter(r), WithCounter(r, key);
    assert id !in r.counts && r'.counts.Keys == r.counts.Keys + {id};
    assert |r'.counts| == |r'.counts.Keys| == |r.counts.Keys| + 1;
  }

  /** Taking the key out of any of the maps, or adding a start, keeps what holds of the others. */
  lemma RemovingKeeps(r: Registry, key: string, starts: map<string, real>)
    requires HasOrderedCounters(r) && HasSoundSamples(r)
    ensures var r' := r.(counters := r.counters - {key}); HasOrderedCounters(r') && HasSoundSamples(r')
    ensures var r' := r.(samples := r.samples - {key}); HasOrderedCounters(r') && HasSoundSamples(r')
    ensures var r' := r.(starts := starts); HasOrderedCounters(r') && HasSoundSamples(r')
  {
  }

  lemma IncrementKeeps(r: Registry, id: nat)
    requires HasOrderedCounters(r) && HasSoundSamples(r) && id in r.counts
    ensures HasOrderedCounters(Incremented(r, id)) && HasSoundSamples(Incremented(r, id))
  {
    assert Incremented(r, id).counts.Keys == r.counts.Keys;
  }

  lemma SampleKeeps(r: Registry, key: string, now: real, decay: real -> real)
    requires HasOrderedCounters(r) && HasSoundSamples(r) && key in r.counters
    ensures HasOrderedCounters(WithSample(r, key, now, decay)) && HasSoundSamples(WithSample(r, key, now, decay))
  {
  }

  // ------------------------------------------------------------------ between the locks

  /** What holder of the counters lock there is, and how far it has come. */
  datatype Lock =
    | Free
    | Registering(key: string, now: real)
    | CounterAdded(key: string, now: real)
    | Forgetting(key: string)
    | CounterGone(key: string)
    | SampleGone(key: string)
    | Sampling(now: real, pending: set<string>)

  predicate IsWriting(lock: Lock) {
    !lock.Free? && !lock.Sampling?
  }

  datatype State = State(registry: Registry, lock: Lock)

  datatype Event =
    | LockToRegister(key: string, now: real)
    | AddCounter
    | AddStart
    | LockToForget(key: string)
    | RemoveCounter
    | RemoveSample
    | RemoveStart
    | LockToSample(now: real)
    | SampleOne(key: string)
    | EndSampling
    | Count(id: nat)

  ghost predicate Next(s: State, event: Event, s': State, decay: real -> real) {
    var r := s.registry;
    match event
    case LockToRegister(key, now) => s.lock.Free? && s' == s.(lock := Registering(key, now))
    case AddCounter =>
      s.lock.Registering? && s' == State(WithCounter(r, s.lock.key), CounterAdded(s.lock.key, s.lock.now))
    case AddStart => s.lock.CounterAdded? && s' == State(WithStart(r, s.lock.key, s.lock.now), Free)
    case LockToForget(key) => s.lock.Free? && s' == s.(lock := Forgetting(key))
    case RemoveCounter =>
      s.lock.Forgetting? && s' == State(r.(counters := r.counters - {s.lock.key}), CounterGone(s.lock.key))
    case RemoveSample =>
      s.lock.CounterGone? && s' == State(r.(samples := r.samples - {s.lock.key}), SampleGone(s.lock.key))
    case RemoveStart => s.lock.SampleGone? && s' == State(r.(starts := r.starts - {s.lock.key}), Free)
    case LockToSample(now) => s.lock.Free? && s' == s.(lock := Sampling(now, r.counters.Keys))
    case SampleOne(key) =>
      && s.lock.Sampling? && key in s.lock.pending && key in r.counters && r.counters[key] in r.counts
      && s' == State(WithSample(r, key, s.lock.now, decay), Sampling(s.lock.now, s.lock.pending - {key}))
    case EndSampling => s.lock.Sampling? && s.lock.pending == {} && s' == s.(lock := Free)
    case Count(id) => id in r.counts && s' == s.(registry := Incremented(r, id))
  }

  ghost predicate IsRun(states: seq<State>, events: seq<Event>, decay: real -> real) {
    && |states| == |events| + 1
    && states[0] == State(EMPTY, Free)
    && forall i :: 0 <= i < |events| ==> Next(states[i], events[i], states[i + 1], decay)
  }

  /** The maps belong together, up to the key that the writer is in the middle of. */
  ghost predicate KeysMatchInHand(s: State) {
    var r := s.registry;
    match s.lock
    case CounterAdded(key, _) =>
      r.samples.Keys <= r.starts.Keys && r.counters.Keys == r.starts.Keys + {key}
    case CounterGone(key) =>
      key !in r.counters && r.starts.Keys - {key} == r.counters.Keys && r.samples.Keys <= r.starts.Keys
    case SampleGone(key) =>
      key !in r.counters && r.starts.Keys - {key} == r.counters.Keys && r.samples.Keys <= r.counters.Keys
    case Sampling(_, pending) => HasMatchingKeys(r) && pending <= r.counters.Keys
    case _ => HasMatchingKeys(r)
  }

  ghost predicate Invariant(s: State) {
    HasOrderedCounters(s.registry) && HasSoundSamples(s.registry) && KeysMatchInHand(s)
  }

  lemma RegisteringKeepsKeys(s: State, event: Event, s': State, decay: real -> real)
    requires KeysMatchInHand(s) && Next(s, event, s', decay)
    requires event.LockToRegister? || event.AddCounter? || event.AddStart?
    ensures KeysMatchInHand(s')
  {
  }

  lemma ForgettingKeepsKeys(s: State, event: Event, s': State, decay: real -> real)
    requires KeysMatchInHand(s) && Next(s, event, s', decay)
    requires event.LockToForget? || event.RemoveCounter? || event.RemoveSample? || event.RemoveStart?
    ensures KeysMatchInHand(s')
  {
  }

  lemma SamplingKeepsKeys(s: State, event: Event, s': State, decay: real -> real)
    requires KeysMatchInHand(s) && Next(s, event, s', decay)
    requires event.LockToSample? || event.SampleOne? || event.EndSampling? || event.Count?
    ensures KeysMatchInHand(s')
  {
    hide SampleOf;
  }

  lemma KeysAreKept(s: State, event: Event, s': State, decay: real -> real)
    requires KeysMatchInHand(s) && Next(s, event, s', decay)
    ensures KeysMatchInHand(s')
  {
    hide KeysMatchInHand, Next;
    if event.LockToRegister? || event.AddCounter? || event.AddStart? {
      RegisteringKeepsKeys(s, event, s', decay);
    } else if event.LockToSample? || event.SampleOne? || event.EndSampling? || event.Count? {
      SamplingKeepsKeys(s, event, s', decay);
    } else {
      ForgettingKeepsKeys(s, event, s', decay);
    }
  }

  lemma CountsAreKept(s: State, event: Event, s': State, decay: real -> real)
    requires Invariant(s) && Next(s, event, s', decay)
    ensures HasOrderedCounters(s'.registry) && HasSoundSamples(s'.registry)
  {
    var r, key := s.registry, if IsWriting(s.lock) then s.lock.key else "";
    match event
    case AddCounter =>
      CounterKeeps(r, key);
    case SampleOne(sampled) => SampleKeeps(r, sampled, s.lock.now, decay);
    case Count(id) => IncrementKeeps(r, id);
    case _ =>
      hide HasOrderedCounters, HasSoundSamples;
      RemovingKeeps(r, key, s'.registry.starts);
  }

  lemma InvariantIsKept(s: State, event: Event, s': State, decay: real -> real)
    requires Invariant(s) && Next(s, event, s', decay)
    ensures Invariant(s')
  {
    KeysAreKept(s, event, s', decay);
    CountsAreKept(s, event, s', decay);
  }

  lemma {:induction false} InvariantHolds(states: seq<State>, events: seq<Event>, decay: real -> real, i: nat)
    requires IsRun(states, events, decay) && i < |states|
    ensures Invariant(states[i])
  {
    if i > 0 {
      InvariantHolds(states, events, decay, i - 1);
      hide Invariant;
      InvariantIsKept(states[i - 1], events[i - 1], states[i], decay);
    }
  }

  /** Whenever no writer holds the lock, the sampled keys have counters and the counters are those started. */
  lemma KeysMatchBetweenWriters(states: seq<State>, events: seq<Event>, decay: real -> real, i: nat)
    requires IsRun(states, events, decay) && i < |states|
    ensures !IsWriting(states[i].lock) ==> HasMatchingKeys(states[i].registry)
    ensures HasSoundSamples(states[i].registry)
  {
    InvariantHolds(states, events, decay, i);
  }

  /** From `i` to `j` no counter is added for `key`. */
  ghost predicate IsNotRegistered(states: seq<State>, events: seq<Event>, key: string, i: nat, j: nat)
    requires |states| == |events| + 1 && i <= j < |states|
  {
    forall n :: i <= n < j && events[n].AddCounter? ==> states[n].lock.Registering? && states[n].lock.key != key
  }

  lemma GoneStep(s: State, event: Event, s': State, key: string, decay: real -> real)
    requires Invariant(s) && Next(s, event, s', decay)
    requires IsGone(s, key)
    requires event.AddCounter? ==> s.lock.Registering? && s.lock.key != key
    ensures IsGone(s', key)
  {
  }

  predicate IsGone(s: State, key: string) {
    key !in s.registry.counters && key !in s.registry.samples
  }

  lemma GoneAtRemoval(s: State, s': State, key: string, decay: real -> real)
    requires Invariant(s) && Next(s, RemoveSample, s', decay) && s'.lock == SampleGone(key)
    ensures IsGone(s', key)
  {
  }

  lemma GoneReportsNothing(s: State, key: string)
    requires IsGone(s, key)
    ensures Sequence(s.registry, key) == 0 && Rate(s.registry, key) == 0.0
  {
  }

  /** A forgotten key is never sampled again, whatever the sampler was doing, until it is registered anew. */
  lemma {:induction false} ForgottenKeyIsNotSampled(states: seq<State>, events: seq<Event>, decay: real -> real, key: string,
                                                    i: nat, j: nat)
    requires IsRun(states, events, decay) && i <= j < |states|
    requires i > 0 && events[i - 1].RemoveSample? && states[i].lock == SampleGone(key)
    requires IsNotRegistered(states, events, key, i, j)
    ensures IsGone(states[j], key)
    ensures Sequence(states[j].registry, key) == 0 && Rate(states[j].registry, key) == 0.0
    decreases j
  {
    hide Invariant, Next, IsGone, Sequence, Rate;
    if j > i {
      ForgottenKeyIsNotSampled(states, events, decay, key, i, j - 1);
      InvariantHolds(states, events, decay, j - 1);
      GoneStep(states[j - 1], events[j - 1], states[j], key, decay);
    } else {
      InvariantHolds(states, events, decay, i - 1);
      GoneAtRemoval(states[i - 1], states[i], key, decay);
    }
    GoneReportsNothing(states[j], key);
  }

  /** A key registered anew has a counter nobody held before, at zero, and no rate; its first sample has rate zero. */
  lemma NewKeyStartsAtZero(states: seq<State>, events: seq<Event>, decay: real -> real, i: nat)
    requires IsRun(states, events, decay) && i < |events| && events[i].AddCounter?
    requires states[i].lock.Registering? && states[i].lock.key !in states[i].registry.counters
    ensures var key, r := states[i].lock.key, states[i + 1].registry;
            && key in r.counters && Sequence(r, key) == 0 && key !in r.samples && Rate(r, key) == 0.0
            && r.counters[key] !in states[i].registry.counts
            && r.counters[key] in r.counts
            && forall now: real :: Rate(WithSample(r, key, now, decay), key) == 0.0
  {
    InvariantHolds(states, events, decay, i);
    assert Next(states[i], events[i], states[i + 1], decay);
  }

  /** Holders of another counter, such as an earlier one of the same key, do not move a key's count. */
  lemma OtherCountersDoNotCount(s: State, id: nat, s': State, key: string, decay: real -> real)
    requires Invariant(s) && Next(s, Count(id), s', decay)
    ensures Sequence(s'.registry, key) ==
            Sequence(s.registry, key) + if key in s.registry.counters && s.registry.counters[key] == id then 1 else 0
  {
  }

  /** The steps under one lock, taken together, are the calls of the object. */
  lemma StepsMakeCalls(s: State, a: State, b: State, c: State, d: State, key: string, now: real, decay: real -> real)
    requires s.lock.Free?
    ensures Next(s, LockToRegister(key, now), a, decay) && Next(a, AddCounter, b, decay) && Next(b, AddStart, c, decay) ==>
              c == State(WithStart(WithCounter(s.registry, key), key, now), Free)
    ensures && Next(s, LockToForget(key), a, decay) && Next(a, RemoveCounter, b, decay)
            && Next(b, RemoveSample, c, decay) && Next(c, RemoveStart, d, decay) ==>
              d == State(Forgotten(s.registry, key), Free)
  {
  }

  // ------------------------------------------------------------------ a timing, read in two steps

  /** What a reader reports that saw the sample of `key` in one registry and its start in a later one. */
  function TimingSeen(first: Registry, later: Registry, key: string): Option<Timing> {
    if key in first.samples && key in later.starts then Some(TimingOf(first.samples[key], later.starts[key])) else None
  }

  predicate HasTime(event: Event) {
    event.LockToRegister? || event.LockToSample?
  }

  /** Times are read from one clock: a registration comes no earlier than what happened before it. */
  predicate IsTimed(events: seq<Event>) {
    forall m, n :: 0 <= m < n < |events| && HasTime(events[m]) && events[n].LockToRegister? ==> events[m].now <= events[n].now
  }

  ghost predicate IsTimeBefore(events: seq<Event>, i: nat, time: real)
    requires i <= |events|
  {
    exists n :: 0 <= n < i && HasTime(events[n]) && events[n].now == time
  }

  /** Samples changed at times that some earlier step read. */
  ghost predicate SamplesAreTimed(s: State, events: seq<Event>, i: nat)
    requires i <= |events|
  {
    && (forall key :: key in s.registry.samples ==> IsTimeBefore(events, i, s.registry.samples[key].lastChangeAt))
    && (s.lock.Sampling? ==> IsTimeBefore(events, i, s.lock.now))
  }

  lemma TimeStaysBefore(events: seq<Event>, i: nat, time: real)
    requires i < |events| && IsTimeBefore(events, i, time)
    ensures IsTimeBefore(events, i + 1, time)
  {
    var n :| 0 <= n < i && HasTime(events[n]) && events[n].now == time;
    assert n < i + 1;
  }

  /** A step leaves each sample as it was, or takes one that changed now or when the one before did. */
  lemma SampleTimes(s: State, event: Event, s': State, decay: real -> real, key: string)
    requires Next(s, event, s', decay) && key in s'.registry.samples
    ensures var time := s'.registry.samples[key].lastChangeAt;
            || (key in s.registry.samples && time == s.registry.samples[key].lastChangeAt)
            || (s.lock.Sampling? && time == s.lock.now)
  {
  }

  lemma SamplingTime(s: State, event: Event, s': State, decay: real -> real)
    requires Next(s, event, s', decay) && s'.lock.Sampling?
    ensures (s.lock.Sampling? && s'.lock.now == s.lock.now) || (event.LockToSample? && s'.lock.now == event.now)
  {
  }

  lemma {:induction false} SamplesStayTimed(states: seq<State>, events: seq<Event>, decay: real -> real, i: nat)
    requires IsRun(states, events, decay) && i < |states|
    ensures SamplesAreTimed(states[i], events, i)
  {
    hide Next, IsTimeBefore;
    if i > 0 {
      SamplesStayTimed(states, events, decay, i - 1);
      var s, event, s' := states[i - 1], events[i - 1], states[i];
      forall time | IsTimeBefore(events, i - 1, time) ensures IsTimeBefore(events, i, time) {
        TimeStaysBefore(events, i - 1, time);
      }
      forall key | key in s'.registry.samples ensures IsTimeBefore(events, i, s'.registry.samples[key].lastChangeAt) {
        SampleTimes(s, event, s', decay, key);
      }
      if s'.lock.Sampling? {
        SamplingTime(s, event, s', decay);
        if event.LockToSample? {
          JustRead(events, i - 1);
        }
      }
    }
  }

  lemma JustRead(events: seq<Event>, i: nat)
    requires i < |events| && HasTime(events[i])
    ensures IsTimeBefore(events, i + 1, events[i].now)
  {
  }

  predicate IsRegistering(lock: Lock, key: string) {
    (lock.Registering? || lock.CounterAdded?) && lock.key == key
  }

  /** The start of `key` is the one it had, or no earlier than `since`; so is the one about to be added. */
  ghost predicate StartIsKeptOrLater(s: State, key: string, was: real, since: real) {
    && (key in s.registry.starts ==> s.registry.starts[key] == was || s.registry.starts[key] >= since)
    && (IsRegistering(s.lock, key) ==> key in s.registry.starts || s.lock.now >= since)
  }

  lemma StartStep(s: State, event: Event, s': State, decay: real -> real, key: string, was: real, since: real)
    requires Next(s, event, s', decay) && StartIsKeptOrLater(s, key, was, since)
    requires event.LockToRegister? ==> event.now >= since
    ensures StartIsKeptOrLater(s', key, was, since)
  {
  }

  lemma {:induction false} StartsStay(states: seq<State>, events: seq<Event>, decay: real -> real, key: string,
                                      was: real, since: real, i: nat, j: nat)
    requires IsRun(states, events, decay) && IsTimed(events) && i <= j < |states|
    requires IsTimeBefore(events, i, since) && StartIsKeptOrLater(states[i], key, was, since)
    ensures StartIsKeptOrLater(states[j], key, was, since)
    decreases j
  {
    hide Next, StartIsKeptOrLater;
    if j > i {
      StartsStay(states, events, decay, key, was, since, i, j - 1);
      var n :| 0 <= n < i && HasTime(events[n]) && events[n].now == since;
      StartStep(states[j - 1], events[j - 1], states[j], decay, key, was, since);
    }
  }

  lemma SampledIsStarted(s: State, key: string)
    requires Invariant(s) && key in s.registry.samples
    ensures key in s.registry.starts
  {
  }

  lemma KeptStep(s: State, event: Event, s': State, decay: real -> real, key: string)
    requires Next(s, event, s', decay) && key in s.registry.starts
    requires event.RemoveStart? ==> s.lock.SampleGone? && s.lock.key != key
    ensures key in s'.registry.starts && s'.registry.starts[key] == s.registry.starts[key]
  {
  }

  /** The start of `key` is removed between `i` and `j`. */
  ghost predicate IsForgotten(states: seq<State>, events: seq<Event>, key: string, i: nat, j: nat)
    requires |states| == |events| + 1 && i <= j < |states|
  {
    exists n :: i <= n < j && events[n].RemoveStart? && states[n].lock == SampleGone(key)
  }

  lemma {:induction false} KeptStart(states: seq<State>, events: seq<Event>, decay: real -> real, key: string, i: nat, j: nat)
    requires IsRun(states, events, decay) && i <= j < |states| && key in states[i].registry.starts
    requires !IsForgotten(states, events, key, i, j)
    ensures key in states[j].registry.starts && states[j].registry.starts[key] == states[i].registry.starts[key]
    decreases j
  {
    if j > i {
      KeptStart(states, events, decay, key, i, j - 1);
      var event := events[j - 1];
      assert event.RemoveStart? ==> Next(states[j - 1], event, states[j], decay) && states[j - 1].lock.SampleGone?;
      hide Next;
      KeptStep(states[j - 1], event, states[j], decay, key);
    }
  }

  lemma StartIsRemoved(s: State, event: Event, s': State, decay: real -> real, key: string)
    requires Next(s, event, s', decay) && event.RemoveStart? && s.lock == SampleGone(key)
    ensures key !in s'.registry.starts && s'.lock.Free?
  {
  }

  /** A key that is not forgotten in between is reported as it was, whatever the clock. */
  lemma TimingOfAKeptKey(states: seq<State>, events: seq<Event>, decay: real -> real, key: string, i: nat, j: nat)
    requires IsRun(states, events, decay) && i <= j < |states| && key in states[i].registry.samples
    requires !IsForgotten(states, events, key, i, j)
    ensures TimingSeen(states[i].registry, states[j].registry, key)
         == TimingSeen(states[i].registry, states[i].registry, key) != None
  {
    InvariantHolds(states, events, decay, i);
    SampledIsStarted(states[i], key);
    hide Next, Invariant, IsForgotten;
    KeptStart(states, events, decay, key, i, j);
  }

  /** After a removal only a start that is no earlier than `since` can have come. */
  lemma StartAfterRemoval(states: seq<State>, events: seq<Event>, decay: real -> real, key: string, since: real, i: nat, j: nat)
    requires IsRun(states, events, decay) && IsTimed(events) && i <= j < |states|
    requires IsTimeBefore(events, i, since) && IsForgotten(states, events, key, i, j)
    ensures key in states[j].registry.starts ==> states[j].registry.starts[key] >= since
  {
    var n :| i <= n < j && events[n].RemoveStart? && states[n].lock == SampleGone(key);
    StartIsRemoved(states[n], events[n], states[n + 1], decay, key);
    assert IsTimeBefore(events, n + 1, since) by {
      var m :| 0 <= m < i && HasTime(events[m]) && events[m].now == since;
      assert m < n + 1;
    }
    hide Next;
    StartsStay(states, events, decay, key, since, since, n + 1, j);
  }

  /** The count of a sample with no time elapsed. */
  function Stalled(sample: Sample): Timing {
    Timing(Max(sample.total, 0.0).Floor, 0.0, 0.0)
  }

  /**
   A reader that sees a sample and later a start reports the timing of the moment when it saw the sample
   if the key was not forgotten in between; nothing if it was; and, if it was and then registered anew,
   the old count with no time elapsed.
   */
  lemma TimingOfTwoReads(states: seq<State>, events: seq<Event>, decay: real -> real, key: string, i: nat, j: nat)
    requires IsRun(states, events, decay) && IsTimed(events) && i <= j < |states| && key in states[i].registry.samples
    ensures var r, r' := states[i].registry, states[j].registry;
            && key in r.starts
            && TimingSeen(r, r', key) ==
               if !IsForgotten(states, events, key, i, j) then Some(TimingOf(r.samples[key], r.starts[key]))
               else if key in r'.starts then Some(Stalled(r.samples[key]))
               else None
  {
    InvariantHolds(states, events, decay, i);
    SampledIsStarted(states[i], key);
    SamplesStayTimed(states, events, decay, i);
    hide Next, Invariant, IsForgotten;
    var since := states[i].registry.samples[key].lastChangeAt;
    if IsForgotten(states, events, key, i, j) {
      StartAfterRemoval(states, events, decay, key, since, i, j);
    } else {
      TimingOfAKeptKey(states, events, decay, key, i, j);
    }
  }

  /**
   So the timing is that of the first read exactly when the key is not forgotten in between, or has its
   start again and no time had elapsed anyway.
   */
  lemma TimingIsOfTheFirstReadExactly(states: seq<State>, events: seq<Event>, decay: real -> real, key: string, i: nat, j: nat)
    requires IsRun(states, events, decay) && IsTimed(events) && i <= j < |states| && key in states[i].registry.samples
    ensures var r, r' := states[i].registry, states[j].registry;
            && key in r.starts
            && var hadElapsed := r.samples[key].lastChangeAt > r.starts[key];
               && (TimingSeen(r, r', key) == TimingSeen(r, r, key) <==>
                   !IsForgotten(states, events, key, i, j) || (key in r'.starts && !hadElapsed))
               && (hadElapsed ==>
                     (TimingSeen(r, r', key) == TimingSeen(r, r, key) <==> !IsForgotten(states, events, key, i, j)))
  {
    hide IsRun, IsForgotten, IsTimed;
    TimingOfTwoReads(states, events, decay, key, i, j);
  }

  // ------------------------------------------------------------------ a run in which the two reads are mixed

  lemma RegisteredAlone(r: Registry, key: string, now: real, decay: real -> real) returns (a: State, b: State, c: State)
    ensures Next(State(r, Free), LockToRegister(key, now), a, decay) && Next(a, AddCounter, b, decay) && Next(b, AddStart, c, decay)
    ensures c == State(WithStart(WithCounter(r, key), key, now), Free)
  {
    a := State(r, Registering(key, now));
    b := State(WithCounter(r, key), CounterAdded(key, now));
    c := State(WithStart(WithCounter(r, key), key, now), Free);
  }

  lemma SampledAlone(r: Registry, key: string, now: real, decay: real -> real) returns (a: State, b: State, c: State)
    requires r.counters.Keys == {key} && r.counters[key] in r.counts
    ensures Next(State(r, Free), LockToSample(now), a, decay) && Next(a, SampleOne(key), b, decay) && Next(b, EndSampling, c, decay)
    ensures c == State(WithSample(r, key, now, decay), Free)
  {
    a := State(r, Sampling(now, {key}));
    b := State(WithSample(r, key, now, decay), Sampling(now, {key} - {key}));
    c := State(WithSample(r, key, now, decay), Free);
  }

  lemma ForgottenAlone(r: Registry, key: string, decay: real -> real) returns (a: State, b: State, c: State, d: State)
    ensures Next(State(r, Free), LockToForget(key), a, decay) && Next(a, RemoveCounter, b, decay)
    ensures Next(b, RemoveSample, c, decay) && Next(c, RemoveStart, d, decay)
    ensures d == State(Forgotten(r, key), Free)
  {
    a := State(r, Forgetting(key));
    b := State(r.(counters := r.counters - {key}), CounterGone(key));
    c := State(b.registry.(samples := r.samples - {key}), SampleGone(key));
    d := State(Forgotten(r, key), Free);
  }

  /** One message counted for a key that was registered at time zero. */
  function CountedOnce(key: string): Registry {
    Registry(map[key := 0], map[0 := 1], map[], map[key := 0.0])
  }

  lemma FirstMessage(key: string, c: State, decay: real -> real)
    requires c == State(WithStart(WithCounter(EMPTY, key), key, 0.0), Free)
    ensures Next(c, Count(0), State(CountedOnce(key), Free), decay)
  {
    assert c.registry.counts == map[0 := 0];
  }

  lemma FirstSample(key: string, decay: real -> real)
    ensures WithSample(CountedOnce(key), key, 1.0, decay) == CountedOnce(key).(samples := map[key := Sample(1.0, 1.0, 0.0, 1.0)])
  {
  }

  lemma RegisteredAgain(r: Registry, key: string, now: real)
    ensures var r' := WithStart(WithCounter(Forgotten(r, key), key), key, now);
            key in r'.starts && r'.starts[key] == now
  {
  }

  /**
   One message a second after the start, and a first read; then the key is forgotten and registered anew
   before the second read: the reader is told one message in no time.
   */
  lemma MixedTiming(key: string, decay: real -> real) returns (states: seq<State>, events: seq<Event>)
    ensures IsRun(states, events, decay) && IsTimed(events) && |events| == 14
    ensures TimingSeen(states[7].registry, states[7].registry, key) == Some(Timing(1, 1.0, 1.0))
    ensures TimingSeen(states[7].registry, states[14].registry, key) == Some(Timing(1, 0.0, 0.0))
  {
    hide Next, WithStart, WithCounter, WithSample, Forgotten;
    var r := CountedOnce(key);
    var a, b, c := RegisteredAlone(EMPTY, key, 0.0, decay);
    FirstMessage(key, c, decay);
    var d, e, f := SampledAlone(r, key, 1.0, decay);
    FirstSample(key, decay);
    var g, h, k, l := ForgottenAlone(f.registry, key, decay);
    var m, n, o := RegisteredAlone(l.registry, key, 2.0, decay);
    RegisteredAgain(f.registry, key, 2.0);
    states := [State(EMPTY, Free), a, b, c, State(r, Free), d, e, f, g, h, k, l, m, n, o];
    events := [LockToRegister(key, 0.0), AddCounter, AddStart, Count(0), LockToSample(1.0), SampleOne(key), EndSampling,
               LockToForget(key), RemoveCounter, RemoveSample, RemoveStart, LockToRegister(key, 2.0), AddCounter, AddStart];
  }
}
