/** Starting and stopping named routes, as steps between which other calls may run. */
module RouteLifecycle {
  import opened Options

  /** How far a start or a stop has come. */
  datatype Flight =
    | Reserved(name: string)
    | Counted(name: string)
    | Failed(name: string)
    | Uncounted(name: string)
    | Running(name: string, handle: nat)
    | Locked(name: string, handle: nat)
    | Unreserved(name: string, handle: nat)
    | Stopping(name: string, handle: nat)
    | Stopped(name: string, handle: nat)

  /** Starts that have put their name into `starting`. */
  predicate HoldsName(f: Flight) {
    f.Reserved? || f.Counted? || f.Failed? || f.Uncounted? || f.Running? || f.Locked?
  }

  predicate IsStart(f: Flight) {
    HoldsName(f) || f.Unreserved?
  }

  predicate HoldsHandle(f: Flight) {
    f.Running? || f.Locked? || f.Unreserved? || f.Stopping? || f.Stopped?
  }

  /** Whether the start keeps the lock on `routes`. */
  predicate HoldsLock(f: Flight) {
    f.Locked? || f.Unreserved?
  }

  /**
   `live` are the handles whose routes have not ended; `counted` the names that have a message counter;
   handles below `handles` have been given out.
   */
  datatype State = State(
    routes: map<string, nat>, starting: set<string>, lockedBy: Option<int>,
    flights: map<int, Flight>, live: set<nat>, counted: set<string>, handles: nat)

  datatype Event =
    | Reserve(call: int, name: string)
    | AddCounter(call: int)
    | RunSucceeds(call: int)
    | RunFails(call: int)
    | ForgetFailed(call: int)
    | Release(call: int)
    | LockRoutes(call: int)
    | Unreserve(call: int)
    | Insert(call: int)
    | Remove(call: int, name: string)
    | StopReturns(call: int)
    | ForgetStopped(call: int)
    | Completes(handle: nat)

  const START := State(map[], {}, None, map[], {}, {}, 0)

  predicate IsTaken(s: State, name: string) {
    name in s.routes || name in s.starting
  }

  function Moved(s: State, call: int, f: Flight): State {
    s.(flights := s.flights[call := f])
  }

  function Ended(s: State, call: int): State {
    s.(flights := s.flights - {call})
  }

  /** The state after a step, or nothing if the step cannot be taken now. */
  function Step(s: State, event: Event): Option<State> {
    match event
    case Reserve(call, name) =>
      if call in s.flights || s.lockedBy.Some? || IsTaken(s, name) then None
      else Some(Moved(s, call, Reserved(name)).(starting := s.starting + {name}))
    case Remove(call, name) =>
      if call in s.flights || s.lockedBy.Some? || name !in s.routes then None
      else Some(Moved(s, call, Stopping(name, s.routes[name])).(routes := s.routes - {name}))
    case Completes(handle) => Some(s.(live := s.live - {handle}))
    case _ => if event.call in s.flights then Advance(s, event, s.flights[event.call]) else None
  }

  /** The next step of a call under way. */
  function Advance(s: State, event: Event, f: Flight): Option<State>
    requires !event.Reserve? && !event.Remove? && !event.Completes?
  {
    match event
    case AddCounter(call) =>
      if f.Reserved? then Some(Moved(s, call, Counted(f.name)).(counted := s.counted + {f.name})) else None
    case RunSucceeds(call) =>
      if f.Counted? then
        Some(Moved(s, call, Running(f.name, s.handles)).(live := s.live + {s.handles}, handles := s.handles + 1))
      else None
    case RunFails(call) => if f.Counted? then Some(Moved(s, call, Failed(f.name))) else None
    case ForgetFailed(call) =>
      if f.Failed? then Some(Moved(s, call, Uncounted(f.name)).(counted := s.counted - {f.name})) else None
    case Release(call) => if f.Uncounted? then Some(Ended(s, call).(starting := s.starting - {f.name})) else None
    case LockRoutes(call) =>
      if f.Running? && s.lockedBy.None? then Some(Moved(s, call, Locked(f.name, f.handle)).(lockedBy := Some(call))) else None
    case Unreserve(call) =>
      if f.Locked? then Some(Moved(s, call, Unreserved(f.name, f.handle)).(starting := s.starting - {f.name})) else None
    case Insert(call) =>
      if f.Unreserved? then Some(Ended(s, call).(routes := s.routes[f.name := f.handle], lockedBy := None)) else None
    case StopReturns(call) =>
      if f.Stopping? then Some(Moved(s, call, Stopped(f.name, f.handle)).(live := s.live - {f.handle})) else None
    case ForgetStopped(call) =>
      if f.Stopped? then Some(Ended(s, call).(counted := s.counted - {f.name})) else None
  }

  /** States of which each comes from the one before by its event. */
  ghost predicate IsPath(states: seq<State>, events: seq<Event>) {
    && |states| == |events| + 1
    && forall i :: 0 <= i < |events| ==> Step(states[i], events[i]) == Some(states[i + 1])
  }

  ghost predicate IsRun(states: seq<State>, events: seq<Event>) {
    IsPath(states, events) && states[0] == START
  }

  // ------------------------------------------------------------------ what every step keeps

  ghost predicate HoldersAreReserved(s: State) {
    forall c :: c in s.flights && HoldsName(s.flights[c]) ==> s.flights[c].name in s.starting
  }

  ghost predicate StartsAreOffTable(s: State) {
    forall c :: c in s.flights && IsStart(s.flights[c]) ==> s.flights[c].name !in s.routes
  }

  ghost predicate UnreservedAreFree(s: State) {
    forall c :: c in s.flights && s.flights[c].Unreserved? ==> s.flights[c].name !in s.starting
  }

  /** Names of starts are not in the table, and are reserved until just before the insert. */
  ghost predicate NamesAreReserved(s: State) {
    HoldersAreReserved(s) && StartsAreOffTable(s) && UnreservedAreFree(s)
  }

  ghost predicate StartsAreDistinct(s: State) {
    forall c, d :: c in s.flights && d in s.flights && c != d && IsStart(s.flights[c]) && IsStart(s.flights[d]) ==>
      s.flights[c].name != s.flights[d].name
  }

  ghost predicate NamesAreHeld(s: State) {
    NamesAreReserved(s) && StartsAreDistinct(s)
  }

  /** Every reserved name is held by a start under way. */
  ghost predicate NamesHaveHolders(s: State) {
    forall name :: name in s.starting ==> exists c :: c in s.flights && HoldsName(s.flights[c]) && s.flights[c].name == name
  }

  ghost predicate LockIsHeld(s: State) {
    forall c :: c in s.flights && HoldsLock(s.flights[c]) <==> s.lockedBy == Some(c)
  }

  datatype Place = InTable(name: string) | InFlight(call: int)

  predicate Holds(s: State, p: Place, handle: nat) {
    match p
    case InTable(name) => name in s.routes && s.routes[name] == handle
    case InFlight(call) => call in s.flights && HoldsHandle(s.flights[call]) && s.flights[call].handle == handle
  }

  /** A handle is in one place at most, and was given out. */
  ghost predicate HandlesAreOwned(s: State) {
    && (forall p: Place, q: Place, h: nat :: Holds(s, p, h) && Holds(s, q, h) ==> p == q)
    && (forall p: Place, h: nat :: Holds(s, p, h) ==> h < s.handles)
  }

  /** A live route is somewhere, and not with a stop that has returned. */
  ghost predicate LiveIsOwned(s: State) {
    && (forall h :: h in s.live ==> exists p :: Holds(s, p, h))
    && (forall h :: h in s.live ==> h < s.handles)
    && (forall c :: c in s.flights && s.flights[c].Stopped? ==> s.flights[c].handle !in s.live)
  }

  ghost predicate Invariant(s: State) {
    NamesAreHeld(s) && NamesHaveHolders(s) && LockIsHeld(s) && HandlesAreOwned(s) && LiveIsOwned(s)
  }

  lemma LockIsKept(s: State, event: Event, s': State)
    requires LockIsHeld(s) && Step(s, event) == Some(s')
    ensures LockIsHeld(s')
  {
  }

  /** A step changes the flight of its own call only. */
  lemma OtherFlightsStay(s: State, event: Event, s': State, c: int)
    requires Step(s, event) == Some(s') && (event.Completes? || c != event.call)
    ensures c in s'.flights <==> c in s.flights
    ensures c in s.flights ==> s'.flights[c] == s.flights[c]
  {
  }

  lemma HoldersStayReserved(s: State, event: Event, s': State)
    requires HoldersAreReserved(s) && StartsAreDistinct(s) && Step(s, event) == Some(s')
    ensures HoldersAreReserved(s')
  {
  }

  lemma StartsStayOffTable(s: State, event: Event, s': State)
    requires StartsAreOffTable(s) && StartsAreDistinct(s) && Step(s, event) == Some(s')
    ensures StartsAreOffTable(s')
  {
  }

  lemma UnreservedStayFree(s: State, event: Event, s': State)
    requires UnreservedAreFree(s) && StartsAreDistinct(s) && LockIsHeld(s) && Step(s, event) == Some(s')
    ensures UnreservedAreFree(s')
  {
  }

  lemma ReservedIsKept(s: State, event: Event, s': State)
    requires NamesAreHeld(s) && LockIsHeld(s) && Step(s, event) == Some(s')
    ensures NamesAreReserved(s')
  {
    hide Step, HoldersAreReserved, StartsAreOffTable, UnreservedAreFree, StartsAreDistinct, LockIsHeld;
    HoldersStayReserved(s, event, s');
    StartsStayOffTable(s, event, s');
    UnreservedStayFree(s, event, s');
  }

  lemma DistinctIsKept(s: State, event: Event, s': State)
    requires NamesAreHeld(s) && LockIsHeld(s) && Step(s, event) == Some(s')
    ensures StartsAreDistinct(s')
  {
  }

  lemma NamesAreKept(s: State, event: Event, s': State)
    requires NamesAreHeld(s) && LockIsHeld(s) && Step(s, event) == Some(s')
    ensures NamesAreHeld(s')
  {
    hide Step, LockIsHeld;
    ReservedIsKept(s, event, s');
    DistinctIsKept(s, event, s');
  }

  /** A start that keeps its name reserved is still under way. */
  lemma HolderGoesOn(s: State, event: Event, s': State)
    requires Step(s, event) == Some(s') && !event.Completes? && event.call in s.flights && HoldsName(s.flights[event.call])
    requires s.flights[event.call].name in s'.starting
    ensures event.call in s'.flights && HoldsName(s'.flights[event.call])
    ensures s'.flights[event.call].name == s.flights[event.call].name
  {
  }

  lemma NewNameIsHeld(s: State, event: Event, s': State, name: string)
    requires Step(s, event) == Some(s') && name in s'.starting && name !in s.starting
    ensures event.Reserve? && event.call in s'.flights && s'.flights[event.call] == Reserved(name)
  {
  }

  lemma HoldersAreKept(s: State, event: Event, s': State)
    requires NamesHaveHolders(s) && Step(s, event) == Some(s')
    ensures NamesHaveHolders(s')
  {
    hide Step;
    forall name | name in s'.starting
      ensures exists c :: c in s'.flights && HoldsName(s'.flights[c]) && s'.flights[c].name == name
    {
      if name in s.starting {
        var c :| c in s.flights && HoldsName(s.flights[c]) && s.flights[c].name == name;
        if event.Completes? || c != event.call {
          OtherFlightsStay(s, event, s', c);
        } else {
          HolderGoesOn(s, event, s');
        }
      } else {
        NewNameIsHeld(s, event, s', name);
      }
    }
  }

  /** Where the holder of a handle was before the step: inserting and removing move it, nothing else does. */
  function Origin(s: State, event: Event, p: Place): Place {
    match event
    case Insert(call) => if call in s.flights && p == InTable(s.flights[call].name) then InFlight(call) else p
    case Remove(call, name) => if p == InFlight(call) then InTable(name) else p
    case _ => p
  }

  function Destination(s: State, event: Event, p: Place): Place {
    match event
    case Insert(call) => if call in s.flights && p == InFlight(call) then InTable(s.flights[call].name) else p
    case Remove(call, name) => if p == InTable(name) then InFlight(call) else p
    case _ => p
  }

  lemma HolderCameFrom(s: State, event: Event, s': State, p: Place, h: nat)
    requires Step(s, event) == Some(s') && Holds(s', p, h)
    ensures Holds(s, Origin(s, event, p), h) || (event.RunSucceeds? && p == InFlight(event.call) && h == s.handles)
    ensures Destination(s, event, Origin(s, event, p)) == p
  {
  }

  lemma HolderGoesTo(s: State, event: Event, s': State, p: Place, h: nat)
    requires Step(s, event) == Some(s') && Holds(s, p, h) && NamesAreHeld(s)
    ensures Holds(s', Destination(s, event, p), h) || (event.ForgetStopped? && p == InFlight(event.call))
  {
  }

  lemma OwnersAreKept(s: State, event: Event, s': State)
    requires HandlesAreOwned(s) && NamesAreHeld(s) && Step(s, event) == Some(s')
    ensures HandlesAreOwned(s')
  {
    hide Step, NamesAreHeld, Holds;
    HandlesGrow(s, event, s');
    forall p: Place, h: nat | Holds(s', p, h) ensures h < s'.handles {
      HolderCameFrom(s, event, s', p, h);
    }
    forall p: Place, q: Place, h: nat | Holds(s', p, h) && Holds(s', q, h) ensures p == q {
      HolderCameFrom(s, event, s', p, h);
      HolderCameFrom(s, event, s', q, h);
    }
  }

  lemma HandlesGrow(s: State, event: Event, s': State)
    requires Step(s, event) == Some(s')
    ensures s'.handles == if event.RunSucceeds? then s.handles + 1 else s.handles
  {
  }

  /** Nothing comes to life but by a run that succeeds, and a stop that returns has ended its route. */
  lemma LiveChanges(s: State, event: Event, s': State)
    requires Step(s, event) == Some(s')
    ensures s'.live <= s.live + if event.RunSucceeds? then {s.handles} else {}
    ensures event.RunSucceeds? ==> Holds(s', InFlight(event.call), s.handles)
    ensures event.ForgetStopped? ==> event.call in s.flights && s.flights[event.call].Stopped?
    ensures forall c :: c in s'.flights && s'.flights[c].Stopped? ==>
              (c in s.flights && s.flights[c] == s'.flights[c]) || s'.flights[c].handle !in s'.live
    ensures event.RunSucceeds? ==> forall c :: c in s'.flights && s'.flights[c].Stopped? ==> c != event.call
  {
  }

  lemma LiveIsKept(s: State, event: Event, s': State)
    requires HandlesAreOwned(s) && LiveIsOwned(s) && NamesAreHeld(s) && Step(s, event) == Some(s')
    ensures LiveIsOwned(s')
  {
    hide Step, NamesAreHeld;
    HandlesGrow(s, event, s');
    LiveChanges(s, event, s');
    forall h | h in s'.live ensures exists p :: Holds(s', p, h) {
      if h in s.live {
        var p :| Holds(s, p, h);
        HolderGoesTo(s, event, s', p, h);
      }
    }
    forall c | c in s'.flights && s'.flights[c].Stopped? ensures s'.flights[c].handle !in s'.live {
      if c in s.flights && s.flights[c] == s'.flights[c] {
        assert Holds(s, InFlight(c), s.flights[c].handle);
      }
    }
  }

  lemma InvariantIsKept(s: State, event: Event, s': State)
    requires Invariant(s) && Step(s, event) == Some(s')
    ensures Invariant(s')
  {
    hide Step, NamesAreHeld, NamesHaveHolders, LockIsHeld, HandlesAreOwned, LiveIsOwned;
    LockIsKept(s, event, s');
    NamesAreKept(s, event, s');
    HoldersAreKept(s, event, s');
    OwnersAreKept(s, event, s');
    LiveIsKept(s, event, s');
  }

  lemma {:induction false} InvariantHolds(states: seq<State>, events: seq<Event>, i: nat)
    requires IsRun(states, events) && i < |states|
    ensures Invariant(states[i])
  {
    if i > 0 {
      InvariantHolds(states, events, i - 1);
      hide Invariant, Step;
      InvariantIsKept(states[i - 1], events[i - 1], states[i]);
    }
  }

  // ------------------------------------------------------------------ what that means for routes

  /** Two starts of one name. */
  predicate AreStartsOf(s: State, c: int, d: int) {
    && c in s.flights && d in s.flights && IsStart(s.flights[c]) && IsStart(s.flights[d])
    && s.flights[c].name == s.flights[d].name
  }

  /** A name is never both being started and in the table, and is being started by at most one call. */
  lemma NamesAreExclusive(states: seq<State>, events: seq<Event>, i: nat)
    requires IsRun(states, events) && i < |states|
    ensures var s := states[i];
            && s.starting !! s.routes.Keys
            && (forall c, d :: AreStartsOf(s, c, d) ==> c == d)
            && (forall name :: name in s.starting <==>
                  exists c :: c in s.flights && HoldsName(s.flights[c]) && s.flights[c].name == name)
  {
    InvariantHolds(states, events, i);
    var s := states[i];
    forall name | name in s.starting ensures name !in s.routes {
      var c :| c in s.flights && HoldsName(s.flights[c]) && s.flights[c].name == name;
    }
  }

  /** An insert never replaces a handle, and what it inserts is the route its own start brought up. */
  lemma InsertNeverOverwrites(states: seq<State>, events: seq<Event>, i: nat)
    requires IsRun(states, events) && i < |events| && events[i].Insert?
    ensures var s, s' := states[i], states[i + 1];
            && events[i].call in s.flights && s.flights[events[i].call].Unreserved?
            && var f := s.flights[events[i].call];
               f.name !in s.routes && s'.routes == s.routes[f.name := f.handle] && !IsTaken(s, f.name)
  {
    InvariantHolds(states, events, i);
    assert Step(states[i], events[i]) == Some(states[i + 1]);
  }

  /** Every route that has not ended is in the table, with its own start, or with exactly one stop. */
  lemma LiveRoutesAreOwnedOnce(states: seq<State>, events: seq<Event>, i: nat, h: nat)
    requires IsRun(states, events) && i < |states| && h in states[i].live
    ensures exists p :: Holds(states[i], p, h) && (forall q :: Holds(states[i], q, h) ==> q == p)
                        && (p.InFlight? ==> !states[i].flights[p.call].Stopped?)
  {
    InvariantHolds(states, events, i);
    var p :| Holds(states[i], p, h);
  }

  /** A start is refused exactly when the name is in the table or in the hands of another start. */
  lemma RefusedWhenTaken(states: seq<State>, events: seq<Event>, i: nat, call: int, name: string)
    requires IsRun(states, events) && i < |states| && call !in states[i].flights && states[i].lockedBy == None
    ensures Step(states[i], Reserve(call, name)) == None <==>
            name in states[i].routes ||
            exists c :: c in states[i].flights && IsStart(states[i].flights[c]) && states[i].flights[c].name == name
  {
    InvariantHolds(states, events, i);
    NamesAreExclusive(states, events, i);
    var s := states[i];
    forall c | c in s.flights && IsStart(s.flights[c]) ensures s.flights[c].name in s.starting {
      assert HoldsLock(s.flights[c]) ==> s.lockedBy == Some(c);
    }
  }

  // ------------------------------------------------------------------ the message counters

  predicate IsStop(f: Flight) {
    f.Stopping? || f.Stopped?
  }

  /** Starts whose route may already be running. */
  predicate NeedsCounter(f: Flight) {
    f.Counted? || f.Failed? || f.Running? || f.Locked? || f.Unreserved?
  }

  /** Nobody starts a name while a stop of it is under way. */
  predicate IsPatient(s: State, event: Event) {
    event.Reserve? ==> forall c :: c in s.flights && IsStop(s.flights[c]) ==> s.flights[c].name != event.name
  }

  ghost predicate AreCounted(s: State) {
    && (forall name :: name in s.routes ==> name in s.counted)
    && (forall c :: c in s.flights && NeedsCounter(s.flights[c]) ==> s.flights[c].name in s.counted)
  }

  /** A name with a stop under way is out of the table and not being started. */
  ghost predicate StopsAreAlone(s: State) {
    StopsAreOffTable(s) && StopsAreDistinct(s)
  }

  ghost predicate StopsAreOffTable(s: State) {
    forall c :: c in s.flights && IsStop(s.flights[c]) ==> s.flights[c].name !in s.routes
  }

  ghost predicate StopsAreDistinct(s: State) {
    forall c, d :: c in s.flights && IsStop(s.flights[c]) && d in s.flights && d != c ==> s.flights[d].name != s.flights[c].name
  }

  lemma StopsStayOffTable(s: State, event: Event, s': State)
    requires StopsAreAlone(s) && Step(s, event) == Some(s')
    ensures StopsAreOffTable(s')
  {
  }

  lemma StopsStayDistinct(s: State, event: Event, s': State)
    requires StartsAreOffTable(s) && StopsAreAlone(s) && Step(s, event) == Some(s') && IsPatient(s, event)
    ensures StopsAreDistinct(s')
  {
  }

  lemma StopsStayAlone(s: State, event: Event, s': State)
    requires Invariant(s) && StopsAreAlone(s) && Step(s, event) == Some(s') && IsPatient(s, event)
    ensures StopsAreAlone(s')
  {
    hide Step, HandlesAreOwned, LiveIsOwned, LockIsHeld, NamesHaveHolders, StartsAreOffTable, StopsAreOffTable, StopsAreDistinct,
         IsPatient;
    StopsStayOffTable(s, event, s');
    StopsStayDistinct(s, event, s');
  }

  lemma CountersAreKept(s: State, event: Event, s': State)
    requires Invariant(s) && StopsAreAlone(s) && AreCounted(s) && Step(s, event) == Some(s')
    ensures AreCounted(s')
  {
    hide HandlesAreOwned, LiveIsOwned, LockIsHeld, NamesHaveHolders;
  }

  ghost predicate IsPatientRun(states: seq<State>, events: seq<Event>)
    requires |states| == |events| + 1
  {
    forall i :: 0 <= i < |events| ==> IsPatient(states[i], events[i])
  }

  /** If no name is started again before its stop returns, every route in the table has its message counter. */
  lemma {:induction false} PatientRunsKeepCounters(states: seq<State>, events: seq<Event>, i: nat)
    requires IsRun(states, events) && IsPatientRun(states, events) && i < |states|
    ensures StopsAreAlone(states[i]) && AreCounted(states[i])
  {
    if i > 0 {
      hide Invariant, Step, StopsAreAlone, AreCounted, IsPatient;
      PatientRunsKeepCounters(states, events, i - 1);
      InvariantHolds(states, events, i - 1);
      StopsStayAlone(states[i - 1], events[i - 1], states[i]);
      CountersAreKept(states[i - 1], events[i - 1], states[i]);
    }
  }

  /** Otherwise the earlier stop takes the counter away from the route that has taken its name. */
  lemma RestartDuringStopLosesTheCounter() returns (states: seq<State>, events: seq<Event>)
    ensures IsRun(states, events)
    ensures var s := states[|events|]; s.flights == map[] && "r" in s.routes && s.routes["r"] in s.live && "r" !in s.counted
  {
    var n := "r";
    events := [
      Reserve(0, n), AddCounter(0), RunSucceeds(0), LockRoutes(0), Unreserve(0), Insert(0),
      Remove(1, n),
      Reserve(2, n), AddCounter(2), RunSucceeds(2), LockRoutes(2), Unreserve(2), Insert(2),
      StopReturns(1), ForgetStopped(1)];
    hide Step;
    var s1, s2, s3, s4, s5, s6 := StartedAlone(START, 0, n);
    var s7 := StopBegins(s6, 1, n);
    var t1, t2, t3, t4, t5, t6 := StartedAlone(s7, 2, n);
    var t7, t8 := StopEnds(t6, 1);
    states := [START, s1, s2, s3, s4, s5, s6, s7, t1, t2, t3, t4, t5, t6, t7, t8];
    assert t8.flights == map[] && t8.routes[n] == 1 && 1 in t8.live;
  }

  lemma StopBegins(s: State, call: int, name: string) returns (s1: State)
    requires call !in s.flights && s.lockedBy == None && name in s.routes
    ensures Step(s, Remove(call, name)) == Some(s1)
    ensures s1 == s.(routes := s.routes - {name}, flights := s.flights[call := Stopping(name, s.routes[name])])
  {
    s1 := Step(s, Remove(call, name)).value;
  }

  lemma StopEnds(s: State, call: int) returns (s1: State, s2: State)
    requires call in s.flights && s.flights[call].Stopping?
    ensures Step(s, StopReturns(call)) == Some(s1) && Step(s1, ForgetStopped(call)) == Some(s2)
    ensures var f := s.flights[call];
            s2 == s.(flights := s.flights - {call}, live := s.live - {f.handle}, counted := s.counted - {f.name})
  {
    s1 := Step(s, StopReturns(call)).value;
    s2 := Step(s1, ForgetStopped(call)).value;
    assert s.flights[call := s1.flights[call]] - {call} == s.flights - {call};
  }

  lemma StopForgets(s: State, call: int) returns (s1: State)
    requires call in s.flights && s.flights[call].Stopped?
    ensures Step(s, ForgetStopped(call)) == Some(s1)
    ensures s1 == s.(flights := s.flights - {call}, counted := s.counted - {s.flights[call].name})
  {
    s1 := Step(s, ForgetStopped(call)).value;
  }

  /** The first half of a start: its route runs, and the name is still reserved. */
  lemma StartRuns(s: State, call: int, name: string) returns (s1: State, s2: State, s3: State)
    requires call !in s.flights && s.lockedBy == None && !IsTaken(s, name)
    ensures Step(s, Reserve(call, name)) == Some(s1) && Step(s1, AddCounter(call)) == Some(s2)
    ensures Step(s2, RunSucceeds(call)) == Some(s3)
    ensures s3 == s.(flights := s.flights[call := Running(name, s.handles)], starting := s.starting + {name},
                     counted := s.counted + {name}, live := s.live + {s.handles}, handles := s.handles + 1)
  {
    s1 := Step(s, Reserve(call, name)).value;
    s2 := Step(s1, AddCounter(call)).value;
    s3 := Step(s2, RunSucceeds(call)).value;
  }

  /** The second half: under the lock the name is freed and the handle put into the table. */
  lemma StartInserts(s: State, call: int) returns (s1: State, s2: State, s3: State)
    requires call in s.flights && s.flights[call].Running? && s.lockedBy == None
    ensures Step(s, LockRoutes(call)) == Some(s1) && Step(s1, Unreserve(call)) == Some(s2) && Step(s2, Insert(call)) == Some(s3)
    ensures var f := s.flights[call];
            s3 == s.(flights := s.flights - {call}, starting := s.starting - {f.name}, routes := s.routes[f.name := f.handle])
  {
    s1 := Step(s, LockRoutes(call)).value;
    s2 := Step(s1, Unreserve(call)).value;
    s3 := Step(s2, Insert(call)).value;
    assert s.flights[call := s2.flights[call]] - {call} == s.flights - {call};
  }

  /** A start that no other call comes between. */
  lemma StartedAlone(s: State, call: int, name: string)
    returns (s1: State, s2: State, s3: State, s4: State, s5: State, s6: State)
    requires call !in s.flights && s.lockedBy == None && !IsTaken(s, name)
    ensures Step(s, Reserve(call, name)) == Some(s1) && Step(s1, AddCounter(call)) == Some(s2)
    ensures Step(s2, RunSucceeds(call)) == Some(s3) && Step(s3, LockRoutes(call)) == Some(s4)
    ensures Step(s4, Unreserve(call)) == Some(s5) && Step(s5, Insert(call)) == Some(s6)
    ensures s6 == s.(routes := s.routes[name := s.handles], counted := s.counted + {name}, live := s.live + {s.handles},
                     handles := s.handles + 1)
  {
    hide Step;
    s1, s2, s3 := StartRuns(s, call, name);
    s4, s5, s6 := StartInserts(s3, call);
    assert s.starting + {name} - {name} == s.starting;
    assert s3.flights - {call} == s.flights;
  }

  lemma FailedAlone(s: State, call: int, name: string)
    returns (s1: State, s2: State, s3: State, s4: State, s5: State)
    requires call !in s.flights && s.lockedBy == None && !IsTaken(s, name)
    ensures Step(s, Reserve(call, name)) == Some(s1) && Step(s1, AddCounter(call)) == Some(s2)
    ensures Step(s2, RunFails(call)) == Some(s3) && Step(s3, ForgetFailed(call)) == Some(s4)
    ensures Step(s4, Release(call)) == Some(s5)
    ensures s5 == s.(counted := s.counted - {name})
  {
    s1 := Step(s, Reserve(call, name)).value;
    s2 := Step(s1, AddCounter(call)).value;
    s3 := Step(s2, RunFails(call)).value;
    s4 := Step(s3, ForgetFailed(call)).value;
    s5 := Step(s4, Release(call)).value;
    assert s.starting + {name} - {name} == s.starting;
    assert s.counted + {name} - {name} == s.counted - {name};
    assert s.flights[call := s4.flights[call]] - {call} == s.flights;
  }

  lemma StoppedAlone(s: State, call: int, name: string)
    returns (s1: State, s2: State, s3: State)
    requires call !in s.flights && s.lockedBy == None && name in s.routes
    ensures Step(s, Remove(call, name)) == Some(s1) && Step(s1, StopReturns(call)) == Some(s2)
    ensures Step(s2, ForgetStopped(call)) == Some(s3)
    ensures s3 == s.(routes := s.routes - {name}, live := s.live - {s.routes[name]}, counted := s.counted - {name})
  {
    hide Step;
    s1 := StopBegins(s, call, name);
    s2, s3 := StopEnds(s1, call);
    assert s1.flights - {call} == s.flights;
  }

  // ------------------------------------------------------------------ exactly when a counter can be lost

  ghost predicate IsBeingStopped(s: State, name: string) {
    exists c :: c in s.flights && IsStop(s.flights[c]) && s.flights[c].name == name
  }

  predicate StartsOrStops(event: Event, name: string) {
    (event.Reserve? || event.Remove?) && event.name == name
  }

  /** What may follow `s` while nobody else starts or stops `name`. */
  ghost predicate IsSequel(states: seq<State>, events: seq<Event>, s: State, name: string) {
    IsPath(states, events) && states[0] == s && forall i :: 0 <= i < |events| ==> !StartsOrStops(events[i], name)
  }

  /** A live route in the table without a message counter. */
  predicate IsUncounted(s: State, name: string) {
    name in s.routes && s.routes[name] in s.live && name !in s.counted
  }

  ghost predicate CanLoseCounter(s: State, name: string) {
    exists states, events :: IsSequel(states, events, s, name) && IsUncounted(states[|events|], name)
  }

  /** Nobody but `call` has to do with `name`, and it is not a stop. */
  ghost predicate IsOnlyStarted(s: State, call: int, name: string) {
    IsAloneWith(s, call, name) && IsCounted(s, name)
  }

  ghost predicate IsAloneWith(s: State, call: int, name: string) {
    forall c :: c in s.flights && s.flights[c].name == name ==> c == call && !IsStop(s.flights[c])
  }

  ghost predicate IsCounted(s: State, name: string) {
    && (forall c :: c in s.flights && s.flights[c].name == name && NeedsCounter(s.flights[c]) ==> name in s.counted)
    && (name in s.routes ==> name in s.counted)
  }

  lemma AloneIsKept(s: State, event: Event, s': State, call: int, name: string)
    requires IsAloneWith(s, call, name) && Step(s, event) == Some(s') && !StartsOrStops(event, name)
    ensures IsAloneWith(s', call, name)
  {
  }

  lemma CountedIsKept(s: State, event: Event, s': State, call: int, name: string)
    requires StartsAreOffTable(s) && IsOnlyStarted(s, call, name) && Step(s, event) == Some(s') && !StartsOrStops(event, name)
    ensures IsCounted(s', name)
  {
  }

  lemma OnlyStartedIsKept(s: State, event: Event, s': State, call: int, name: string)
    requires Invariant(s) && IsOnlyStarted(s, call, name) && Step(s, event) == Some(s') && !StartsOrStops(event, name)
    ensures IsOnlyStarted(s', call, name)
  {
    hide Step, HandlesAreOwned, LiveIsOwned, LockIsHeld, NamesHaveHolders, StartsAreOffTable, IsAloneWith, IsCounted;
    AloneIsKept(s, event, s', call, name);
    CountedIsKept(s, event, s', call, name);
  }

  lemma {:induction false} SequelKeepsCounter(
      states: seq<State>, events: seq<Event>, s: State, call: int, name: string, i: nat)
    requires Invariant(s) && IsOnlyStarted(s, call, name) && IsSequel(states, events, s, name) && i < |states|
    ensures Invariant(states[i]) && IsOnlyStarted(states[i], call, name)
  {
    if i > 0 {
      hide Invariant, Step, IsOnlyStarted;
      SequelKeepsCounter(states, events, s, call, name, i - 1);
      InvariantIsKept(states[i - 1], events[i - 1], states[i]);
      OnlyStartedIsKept(states[i - 1], events[i - 1], states[i], call, name);
    }
  }

  lemma ReservedIsOnlyStarted(s: State, call: int, name: string, s': State)
    requires Invariant(s) && Step(s, Reserve(call, name)) == Some(s') && !IsBeingStopped(s, name)
    ensures IsOnlyStarted(s', call, name)
  {
    hide HandlesAreOwned, LiveIsOwned, NamesHaveHolders;
    forall c | c in s.flights ensures s.flights[c].name != name {
      assert IsStop(s.flights[c]) || IsStart(s.flights[c]);
    }
  }

  /** The stop that is under way ends after the start has finished. */
  lemma StopTakesTheCounter(s: State, call: int, name: string, s': State, c: int)
    requires Invariant(s) && Step(s, Reserve(call, name)) == Some(s')
    requires c in s.flights && IsStop(s.flights[c]) && s.flights[c].name == name
    ensures CanLoseCounter(s', name)
  {
    hide Step, NamesAreHeld, NamesHaveHolders, LockIsHeld, LiveIsOwned;
    assert call !in s.flights && s.lockedBy == None && !IsTaken(s, name) by { ReserveIsFree(s, call, name); }
    assert Holds(s, InFlight(c), s.flights[c].handle);
    var s1, s2, s3, s4, s5, s6 := StartedAlone(s, call, name);
    var states := [s1, s2, s3, s4, s5, s6];
    var events := [AddCounter(call), RunSucceeds(call), LockRoutes(call), Unreserve(call), Insert(call)];
    if s.flights[c].Stopping? {
      var s7, s8 := StopEnds(s6, c);
      states, events := states + [s7, s8], events + [StopReturns(c), ForgetStopped(c)];
    } else {
      var s7 := StopForgets(s6, c);
      states, events := states + [s7], events + [ForgetStopped(c)];
    }
    assert IsSequel(states, events, s', name) && IsUncounted(states[|events|], name);
  }

  lemma ReserveIsFree(s: State, call: int, name: string)
    requires Step(s, Reserve(call, name)).Some?
    ensures call !in s.flights && s.lockedBy == None && !IsTaken(s, name)
  {
  }

  /**
   A start that gets its name can end up in the table without its message counter, with nobody else
   starting or stopping that name, exactly when a stop of the name was still under way.
   */
  lemma CounterIsLostExactly(states: seq<State>, events: seq<Event>, i: nat, call: int, name: string, s': State)
    requires IsRun(states, events) && i < |states| && Step(states[i], Reserve(call, name)) == Some(s')
    ensures CanLoseCounter(s', name) <==> IsBeingStopped(states[i], name)
  {
    hide Step, Invariant, IsOnlyStarted;
    var s := states[i];
    InvariantHolds(states, events, i);
    if IsBeingStopped(s, name) {
      var c :| c in s.flights && IsStop(s.flights[c]) && s.flights[c].name == name;
      StopTakesTheCounter(s, call, name, s', c);
    } else {
      InvariantIsKept(s, Reserve(call, name), s');
      ReservedIsOnlyStarted(s, call, name, s');
      forall more, steps | IsSequel(more, steps, s', name) ensures !IsUncounted(more[|steps|], name) {
        SequelNeverUncounted(more, steps, s', call, name);
      }
    }
  }

  lemma SequelNeverUncounted(states: seq<State>, events: seq<Event>, s: State, call: int, name: string)
    requires Invariant(s) && IsOnlyStarted(s, call, name) && IsSequel(states, events, s, name)
    ensures !IsUncounted(states[|events|], name)
  {
    hide Step, Invariant;
    SequelKeepsCounter(states, events, s, call, name, |events|);
  }

  // ------------------------------------------------------------------ the server, one call at a time

  datatype StartResult = Started(handle: nat) | AlreadyExists | StartFailed

  class BridgeServer {
    var routes: map<string, nat>
    var starting: set<string>
    var live: set<nat>
    var counted: set<string>
    var handles: nat

    function View(): State
      reads this
    {
      State(routes, starting, None, map[], live, counted, handles)
    }

    constructor ()
      ensures View() == START
    {
      routes, starting, live, counted, handles := map[], {}, {}, {}, 0;
    }

    method Reserve(name: string) returns (reserved: bool)
      modifies this`starting
      ensures reserved <==> !IsTaken(old(View()), name)
      ensures starting == if reserved then old(starting) + {name} else old(starting)
    {
      if name in routes || name in starting {
        return false;
      }
      starting := starting + {name};
      reserved := true;
    }

    /** `runs` says whether the route comes up. The new state is that of the steps of a start nobody interrupts. */
    method StartRoute(name: string, runs: bool) returns (result: StartResult)
      modifies this
      ensures IsTaken(old(View()), name) ==> result == AlreadyExists && View() == old(View())
      ensures !IsTaken(old(View()), name) && !runs ==>
                result == StartFailed && View() == old(View()).(counted := old(counted) - {name})
      ensures !IsTaken(old(View()), name) && runs ==>
                && result == Started(old(handles))
                && View() == old(View()).(routes := old(routes)[name := old(handles)], counted := old(counted) + {name},
                                          live := old(live) + {old(handles)}, handles := old(handles) + 1)
    {
      var reserved := Reserve(name);
      if !reserved {
        return AlreadyExists;
      }
      counted := counted + {name};
      if !runs {
        counted := counted - {name};
        starting := starting - {name};
        return StartFailed;
      }
      var handle := handles;
      handles := handles + 1;
      live := live + {handle};
      starting := starting - {name};
      routes := routes[name := handle];
      result := Started(handle);
    }

    method StopRoute(name: string) returns (stopped: bool)
      modifies this
      ensures stopped <==> name in old(routes)
      ensures stopped ==> View() == old(View()).(routes := old(routes) - {name}, live := old(live) - {old(routes)[name]},
                                                 counted := old(counted) - {name})
      ensures !stopped ==> View() == old(View())
    {
      if name !in routes {
        return false;
      }
      var handle := routes[name];
      routes := routes - {name};
      live := live - {handle};
      counted := counted - {name};
      stopped := true;
    }
  }

  datatype Request = ToStart(name: string, runs: bool) | ToStop(name: string)

  /** A request that does nothing: a start of a name that is taken, a stop of one that is not in the table. */
  predicate IsIdle(s: State, request: Request) {
    match request
    case ToStart(name, _) => IsTaken(s, name)
    case ToStop(name) => name !in s.routes
  }

  /** Each call of the server has the effect of its steps when no other call comes between them. */
  method CallsAreStepsTaken(server: BridgeServer, request: Request)
    returns (ghost states: seq<State>, ghost events: seq<Event>)
    modifies server
    ensures IsPath(states, events) && states[0] == old(server.View()) && states[|events|] == server.View()
    ensures events == [] <==> IsIdle(old(server.View()), request)
    ensures forall i :: 0 <= i < |events| ==> (StartsOrStops(events[i], request.name) <==> i == 0)
  {
    hide Step;
    ghost var s := server.View();
    match request
    case ToStart(name, runs) =>
      var result := server.StartRoute(name, runs);
      if result.AlreadyExists? {
        states, events := [s], [];
      } else if result.Started? {
        ghost var s1, s2, s3, s4, s5, s6 := StartedAlone(s, 0, name);
        states := [s, s1, s2, s3, s4, s5, s6];
        events := [Event.Reserve(0, name), AddCounter(0), RunSucceeds(0), LockRoutes(0), Unreserve(0), Insert(0)];
      } else {
        ghost var s1, s2, s3, s4, s5 := FailedAlone(s, 0, name);
        states := [s, s1, s2, s3, s4, s5];
        events := [Event.Reserve(0, name), AddCounter(0), RunFails(0), ForgetFailed(0), Release(0)];
      }
    case ToStop(name) =>
      var stopped := server.StopRoute(name);
      if stopped {
        ghost var s1, s2, s3 := StoppedAlone(s, 0, name);
        states, events := [s, s1, s2, s3], [Remove(0, name), StopReturns(0), ForgetStopped(0)];
      } else {
        states, events := [s], [];
      }
  }
}
