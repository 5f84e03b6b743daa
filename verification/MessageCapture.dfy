/** The buffer of the most recent messages of a route, alone and under concurrent writers. */
module MessageCapture {
  import opened Options

  /** The last `n` elements, or all if there are fewer. */
  function LastOf<T>(s: seq<T>, n: nat): (r: seq<T>)
    ensures |r| == if |s| <= n then |s| else n
  {
    if |s| <= n then s else s[|s| - n..]
  }

  lemma LastOfMore<T>(s: seq<T>, x: T, n: nat)
    requires n > 0
    ensures LastOf(s + [x], n) == (if |LastOf(s, n)| < n then LastOf(s, n) else LastOf(s, n)[1..]) + [x]
  {
  }

  lemma LastOfLonger<T>(s: seq<T>, x: T, n: nat)
    requires n <= |s|
    ensures LastOf(s + [x], n + 1) == LastOf(s, n) + [x]
  {
  }

  lemma LastOfShorter<T>(s: seq<T>, n: nat)
    requires 0 < n <= |s|
    ensures LastOf(s, n)[1..] == LastOf(s, n - 1)
  {
  }

  function AtLeastOne(keepLast: nat): nat {
    if keepLast >= 1 then keepLast else 1
  }

  datatype Captured<M> = Captured(message: M, source: string, time: int)

  // ------------------------------------------------------------------ the bounded channel and its owner

  class Channel<T> {
    var queue: seq<T>
    const capacity: nat

    constructor (capacity: nat)
      ensures queue == [] && this.capacity == capacity
    {
      this.capacity := capacity;
      queue := [];
    }

    method TrySend(x: T) returns (sent: bool)
      modifies this
      ensures sent <==> |old(queue)| < capacity
      ensures queue == if sent then old(queue) + [x] else old(queue)
    {
      sent := |queue| < capacity;
      if sent {
        queue := queue + [x];
      }
    }

    method TryReceive() returns (x: Option<T>)
      modifies this
      ensures x == if old(queue) == [] then None else Some(old(queue)[0])
      ensures queue == if old(queue) == [] then [] else old(queue)[1..]
    {
      if queue == [] {
        return None;
      }
      x := Some(queue[0]);
      queue := queue[1..];
    }
  }

  class Capture<M> {
    const channel: Channel<Captured<M>>
    /** Everything pushed since the buffer was last drained. */
    ghost var pushed: seq<Captured<M>>

    ghost predicate Valid()
      reads this, channel
    {
      channel.capacity > 0 && channel.queue == LastOf(pushed, channel.capacity)
    }

    constructor (keepLast: nat)
      ensures Valid() && pushed == [] && fresh(channel) && channel.capacity == if keepLast == 0 then 1 else keepLast
    {
      channel := new Channel(AtLeastOne(keepLast));
      pushed := [];
    }

    /** Never blocks: a full buffer loses its oldest message. */
    method Push(source: string, time: int, message: M)
      requires Valid()
      modifies this, channel
      ensures Valid() && pushed == old(pushed) + [Captured(message, source, time)]
    {
      var captured := Captured(message, source, time);
      LastOfMore(pushed, captured, channel.capacity);
      pushed := pushed + [captured];
      var sent := channel.TrySend(captured);
      if !sent {
        var _ := channel.TryReceive();
        sent := channel.TrySend(captured);
      }
    }

    /** Takes everything out. */
    method Drain() returns (messages: seq<Captured<M>>)
      requires Valid()
      modifies this, channel
      ensures Valid() && pushed == [] && messages == LastOf(old(pushed), channel.capacity)
    {
      messages := [];
      var next := channel.TryReceive();
      while next.Some?
        invariant next == None ==> channel.queue == []
        invariant next.Some? ==> messages + [next.value] + channel.queue == old(channel.queue)
        invariant next == None ==> messages == old(channel.queue)
        modifies channel
        decreases |channel.queue|, next.Some?
      {
        messages := messages + [next.value];
        next := channel.TryReceive();
      }
      pushed := [];
    }
  }

  // ------------------------------------------------------------------ any sequence of operations

  datatype Operation<M> = Push(captured: Captured<M>) | Drain

  function Pushed<M>(operations: seq<Operation<M>>): seq<Captured<M>> {
    if operations == [] then []
    else
      var n := |operations| - 1;
      match operations[n]
      case Drain => []
      case Push(captured) => Pushed(operations[..n]) + [captured]
  }

  method RunAll<M>(keepLast: nat, operations: seq<Operation<M>>) returns (capture: Capture<M>)
    ensures fresh(capture) && fresh(capture.channel) && capture.Valid()
    ensures capture.channel.queue == LastOf(Pushed(operations), AtLeastOne(keepLast))
  {
    capture := new Capture(keepLast);
    assert operations[..0] == [];
    for i := 0 to |operations|
      invariant fresh(capture) && fresh(capture.channel) && capture.Valid()
      invariant capture.channel.capacity == AtLeastOne(keepLast) && capture.pushed == Pushed(operations[..i])
    {
      assert operations[..i + 1][..i] == operations[..i];
      match operations[i]
      case Push(captured) => capture.Push(captured.source, captured.time, captured.message);
      case Drain => var _ := capture.Drain();
    }
    assert operations[..|operations|] == operations;
  }

  // ------------------------------------------------------------------ concurrent writers

  /** Where a writer is: its first send failed, or it has made room and is about to send again. */
  datatype Phase<T> = Refused(message: T) | MadeRoom(message: T)

  /** The channel and its writers under way, between two atomic operations; where other messages went is kept too. */
  datatype State<T> = State(
    queue: seq<T>, writers: seq<Phase<T>>,
    started: multiset<T>, evicted: multiset<T>, lost: multiset<T>, received: multiset<T>)

  datatype Event<T> =
    | FirstSend(message: T)
    | MakeRoom(writer: nat)
    | SecondSend(writer: nat)
    | Receive

  ghost predicate Next<T>(s: State<T>, event: Event<T>, s': State<T>, capacity: nat) {
    match event
    case FirstSend(m) =>
      s' == (if |s.queue| < capacity then s.(queue := s.queue + [m]) else s.(writers := s.writers + [Refused(m)]))
            .(started := s.started + multiset{m})
    case MakeRoom(w) =>
      && w < |s.writers| && s.writers[w].Refused?
      && var made := s.writers[..w] + [MadeRoom(s.writers[w].message)] + s.writers[w + 1..];
         s' == if s.queue == [] then s.(writers := made)
               else s.(queue := s.queue[1..], writers := made, evicted := s.evicted + multiset{s.queue[0]})
    case SecondSend(w) =>
      && w < |s.writers| && s.writers[w].MadeRoom?
      && var m := s.writers[w].message;
         s' == (if |s.queue| < capacity then s.(queue := s.queue + [m]) else s.(lost := s.lost + multiset{m}))
               .(writers := s.writers[..w] + s.writers[w + 1..])
    case Receive =>
      s' == if s.queue == [] then s else s.(queue := s.queue[1..], received := s.received + multiset{s.queue[0]})
  }

  function Init<T>(): State<T> {
    State([], [], multiset{}, multiset{}, multiset{}, multiset{})
  }

  /** States of which each comes from the one before by its event. */
  ghost predicate IsPath<T>(states: seq<State<T>>, events: seq<Event<T>>, capacity: nat) {
    && |states| == |events| + 1
    && forall i :: 0 <= i < |events| ==> Next(states[i], events[i], states[i + 1], capacity)
  }

  ghost predicate IsRun<T>(states: seq<State<T>>, events: seq<Event<T>>, capacity: nat) {
    IsPath(states, events, capacity) && states[0] == Init()
  }

  /** How many writers owe the buffer a message. */
  function Owing<T>(writers: seq<Phase<T>>): nat {
    if writers == [] then 0 else (if writers[0].MadeRoom? then 1 else 0) + Owing(writers[1..])
  }

  /** The messages of the writers under way. */
  function InFlight<T>(writers: seq<Phase<T>>): multiset<T> {
    if writers == [] then multiset{} else multiset{writers[0].message} + InFlight(writers[1..])
  }

  lemma {:induction false} WritersByParts<T>(a: seq<Phase<T>>, c: seq<Phase<T>>)
    ensures Owing(a + c) == Owing(a) + Owing(c) && InFlight(a + c) == InFlight(a) + InFlight(c)
  {
    if a == [] {
      assert a + c == c;
    } else {
      assert (a + c)[0] == a[0] && (a + c)[1..] == a[1..] + c;
      WritersByParts(a[1..], c);
    }
  }

  lemma OneWriter<T>(w: Phase<T>)
    ensures Owing([w]) == (if w.MadeRoom? then 1 else 0) && InFlight([w]) == multiset{w.message}
  {
    assert [w][1..] == [];
  }

  lemma WritersAround<T>(a: seq<Phase<T>>, w: Phase<T>, c: seq<Phase<T>>)
    ensures Owing(a + [w] + c) == Owing(a) + (if w.MadeRoom? then 1 else 0) + Owing(c)
    ensures InFlight(a + [w] + c) == InFlight(a) + multiset{w.message} + InFlight(c)
  {
    WritersByParts(a + [w], c);
    WritersByParts(a, [w]);
    OneWriter(w);
  }

  /** Bounded, and refilled by the writers that owe a message. */
  predicate IsBounded<T>(s: State<T>, wasFull: bool, capacity: nat) {
    && |s.queue| <= capacity
    && (wasFull ==> |s.queue| + Owing(s.writers) >= capacity)
  }

  /** Every message that was started is somewhere. */
  predicate IsAccounted<T>(s: State<T>) {
    s.started == multiset(s.queue) + InFlight(s.writers) + s.evicted + s.lost + s.received
  }

  lemma FirstSendKeeps<T>(s: State<T>, m: T, s': State<T>, wasFull: bool, capacity: nat)
    requires Next(s, FirstSend(m), s', capacity)
    ensures IsBounded(s, wasFull, capacity) ==> IsBounded(s', wasFull || |s'.queue| == capacity, capacity)
    ensures IsAccounted(s) ==> IsAccounted(s')
  {
    hide Owing, InFlight;
    if |s.queue| < capacity {
      assert multiset(s.queue + [m]) == multiset(s.queue) + multiset{m};
    } else {
      WritersByParts(s.writers, [Refused(m)]);
      OneWriter(Refused(m));
    }
  }

  lemma MakeRoomKeeps<T>(s: State<T>, w: nat, s': State<T>, wasFull: bool, capacity: nat)
    requires Next(s, MakeRoom(w), s', capacity)
    ensures IsBounded(s, wasFull, capacity) ==> IsBounded(s', wasFull, capacity)
    ensures IsAccounted(s) ==> IsAccounted(s')
  {
    var a, c, m := s.writers[..w], s.writers[w + 1..], s.writers[w].message;
    assert s.writers == a + [Refused(m)] + c && s'.writers == a + [MadeRoom(m)] + c;
    assert Owing(s'.writers) == Owing(s.writers) + 1 && InFlight(s'.writers) == InFlight(s.writers) by {
      WritersAround(a, Refused(m), c);
      WritersAround(a, MadeRoom(m), c);
    }
    hide Owing, InFlight;
    assert multiset(s.queue) + s.evicted == multiset(s'.queue) + s'.evicted by {
      assert s.queue != [] ==> s.queue == [s.queue[0]] + s.queue[1..];
    }
    Moved(multiset(s.queue), s.evicted, multiset(s'.queue), s'.evicted, InFlight(s.writers), s.lost);
  }

  lemma Moved<T>(a: multiset<T>, b: multiset<T>, a': multiset<T>, b': multiset<T>, c: multiset<T>, d: multiset<T>)
    requires a + b == a' + b'
    ensures a + c + b + d == a' + c + b' + d
  {
    assert a + c + b + d == (a + b) + (c + d) && a' + c + b' + d == (a' + b') + (c + d);
  }

  lemma Landed<T>(a: multiset<T>, d: multiset<T>, a': multiset<T>, d': multiset<T>, b: multiset<T>, c: multiset<T>, m: multiset<T>)
    requires a + m + d == a' + d'
    ensures a + (c + m) + b + d == a' + c + b + d'
  {
    assert a + (c + m) + b + d == (a + m + d) + (b + c) && a' + c + b + d' == (a' + d') + (b + c);
  }

  /** The message sent last is in the queue or lost. */
  lemma SecondSendLands<T>(s: State<T>, w: nat, s': State<T>, capacity: nat)
    requires Next(s, SecondSend(w), s', capacity)
    ensures multiset(s.queue) + multiset{s.writers[w].message} + s.lost == multiset(s'.queue) + s'.lost
    ensures |s'.queue| == if |s.queue| < capacity then |s.queue| + 1 else |s.queue|
    ensures s' == s.(queue := s'.queue, lost := s'.lost, writers := s.writers[..w] + s.writers[w + 1..])
  {
    var m := s.writers[w].message;
    assert multiset(s.queue + [m]) == multiset(s.queue) + multiset{m};
  }

  lemma SecondSendKeeps<T>(s: State<T>, w: nat, s': State<T>, wasFull: bool, capacity: nat)
    requires Next(s, SecondSend(w), s', capacity)
    ensures IsBounded(s, wasFull, capacity) ==> IsBounded(s', wasFull, capacity)
    ensures IsAccounted(s) ==> IsAccounted(s')
  {
    var a, c, m := s.writers[..w], s.writers[w + 1..], s.writers[w].message;
    assert s.writers == a + [MadeRoom(m)] + c;
    SecondSendLands(s, w, s', capacity);
    hide Next;
    assert Owing(s.writers) == Owing(s'.writers) + 1 && InFlight(s.writers) == InFlight(s'.writers) + multiset{m} by {
      WritersAround(a, MadeRoom(m), c);
      WritersByParts(a, c);
    }
    hide Owing, InFlight;
    Landed(multiset(s.queue), s.lost, multiset(s'.queue), s'.lost, s.evicted, InFlight(s'.writers), multiset{m});
  }

  lemma ReceiveKeeps<T>(s: State<T>, s': State<T>, capacity: nat)
    requires Next(s, Receive, s', capacity)
    ensures |s'.queue| <= |s.queue| && (IsAccounted(s) ==> IsAccounted(s'))
  {
    hide InFlight;
    if s.queue != [] {
      assert s.queue == [s.queue[0]] + s.queue[1..];
      Moved(multiset(s.queue), s.received, multiset(s'.queue), s'.received, InFlight(s.writers) + s.evicted + s.lost, multiset{});
    }
  }

  ghost predicate Invariant<T>(s: State<T>, wasFull: bool, capacity: nat) {
    IsBounded(s, wasFull, capacity) && IsAccounted(s)
  }

  lemma InvariantIsKept<T>(s: State<T>, event: Event<T>, s': State<T>, wasFull: bool, capacity: nat)
    requires Invariant(s, wasFull, capacity) && Next(s, event, s', capacity)
    ensures Invariant(s', (wasFull && !event.Receive?) || |s'.queue| == capacity, capacity)
  {
    hide IsAccounted, Owing, Next;
    match event
    case FirstSend(m) => FirstSendKeeps(s, m, s', wasFull, capacity);
    case MakeRoom(w) => MakeRoomKeeps(s, w, s', wasFull, capacity);
    case SecondSend(w) => SecondSendKeeps(s, w, s', wasFull, capacity);
    case Receive => ReceiveKeeps(s, s', capacity);
  }

  predicate IsFull<T>(s: State<T>, capacity: nat) {
    |s.queue| == capacity
  }

  /** The buffer was full once, and nobody has read from it since. */
  ghost predicate WasFull<T>(states: seq<State<T>>, events: seq<Event<T>>, capacity: nat) {
    exists i :: 0 <= i < |states| && IsFull(states[i], capacity) && forall j :: i <= j < |events| ==> !events[j].Receive?
  }

  ghost predicate WasNeverFull<T>(states: seq<State<T>>, capacity: nat) {
    forall i :: 0 <= i < |states| ==> !IsFull(states[i], capacity)
  }

  lemma {:induction false} RunsKeep<T>(states: seq<State<T>>, events: seq<Event<T>>, capacity: nat)
    requires IsRun(states, events, capacity) && capacity > 0
    ensures Invariant(states[|events|], WasFull(states, events, capacity), capacity)
    decreases |events|
  {
    if events != [] {
      hide Invariant, Next;
      var n := |events| - 1;
      RunsKeep(states[..n + 1], events[..n], capacity);
      assert states[..n + 1][n] == states[n] && Next(states[n], events[n], states[n + 1], capacity);
      WasFullStep(states, events, n, capacity);
      InvariantIsKept(states[n], events[n], states[n + 1], WasFull(states[..n + 1], events[..n], capacity), capacity);
    }
  }

  lemma WasFullStep<T>(states: seq<State<T>>, events: seq<Event<T>>, n: nat, capacity: nat)
    requires |states| == n + 2 && |events| == n + 1
    ensures WasFull(states, events, capacity) <==>
            (WasFull(states[..n + 1], events[..n], capacity) && !events[n].Receive?) || |states[n + 1].queue| == capacity
  {
    var front, before := states[..n + 1], events[..n];
    assert forall i :: 0 <= i <= n ==> front[i] == states[i];
    assert IsFull(states[n + 1], capacity) <==> |states[n + 1].queue| == capacity;
    if WasFull(front, before, capacity) && !events[n].Receive? {
      var i :| 0 <= i < |front| && IsFull(front[i], capacity) && forall j :: i <= j < n ==> !before[j].Receive?;
      assert IsFull(states[i], capacity) && forall j :: i <= j <= n ==> j == n || events[j] == before[j];
    }
    if WasFull(states, events, capacity) && !IsFull(states[n + 1], capacity) {
      var i :| 0 <= i < |states| && IsFull(states[i], capacity) && forall j :: i <= j <= n ==> !events[j].Receive?;
      assert IsFull(front[i], capacity) && forall j :: i <= j < n ==> before[j] == events[j];
    }
  }

  /**
   However the writers and a reader interleave: the capacity is never exceeded; a buffer that was full and
   not read from since is full again whenever no writer is under way; before it is full, nothing is lost;
   and no message is made up, kept twice or forgotten unaccounted.
   */
  lemma BufferStaysBounded<T>(states: seq<State<T>>, events: seq<Event<T>>, capacity: nat)
    requires IsRun(states, events, capacity) && capacity > 0
    ensures var s := states[|events|];
            && |s.queue| <= capacity
            && (WasFull(states, events, capacity) && s.writers == [] ==> |s.queue| == capacity)
            && (WasNeverFull(states, capacity) ==> s.writers == [] && s.evicted == multiset{} && s.lost == multiset{})
            && s.started == multiset(s.queue) + InFlight(s.writers) + s.evicted + s.lost + s.received
  {
    RunsKeep(states, events, capacity);
    if WasNeverFull(states, capacity) {
      NothingLostBeforeFull(states, events, capacity);
    }
  }

  lemma {:induction false} NothingLostBeforeFull<T>(states: seq<State<T>>, events: seq<Event<T>>, capacity: nat)
    requires IsRun(states, events, capacity) && WasNeverFull(states, capacity) && capacity > 0
    ensures var s := states[|events|];
            s.writers == [] && s.evicted == multiset{} && s.lost == multiset{} && |s.queue| < capacity
    decreases |events|
  {
    if events != [] {
      var n := |events| - 1;
      NothingLostBeforeFull(states[..n + 1], events[..n], capacity);
      assert states[..n + 1][n] == states[n] && Next(states[n], events[n], states[n + 1], capacity);
      assert !IsFull(states[n + 1], capacity);
    }
  }

  // ------------------------------------------------------------------ which messages are kept

  /** No writer starts while another is under way. */
  ghost predicate IsOneAtATime<T>(states: seq<State<T>>, events: seq<Event<T>>)
    requires |states| == |events| + 1
  {
    forall i :: 0 <= i < |events| && events[i].FirstSend? ==> states[i].writers == []
  }

  predicate IsUnread<T>(events: seq<Event<T>>) {
    forall i :: 0 <= i < |events| ==> !events[i].Receive?
  }

  /** The messages sent, in the order in which their writers started. */
  function Sent<T>(events: seq<Event<T>>): seq<T> {
    if events == [] then []
    else
      var n := |events| - 1;
      if events[n].FirstSend? then Sent(events[..n]) + [events[n].message] else Sent(events[..n])
  }

  /** One writer at a time: what its send owes is what the buffer lacks. */
  predicate HoldsTheLast<T>(s: State<T>, sent: seq<T>, capacity: nat) {
    match |s.writers|
    case 0 => s.queue == LastOf(sent, capacity)
    case 1 =>
      && sent != [] && sent[|sent| - 1] == s.writers[0].message
      && var before := LastOf(sent[..|sent| - 1], capacity);
         |before| == capacity > 0 && s.queue == if s.writers[0].Refused? then before else before[1..]
    case _ => false
  }

  lemma HoldsTheLastStep<T>(s: State<T>, event: Event<T>, s': State<T>, sent: seq<T>, capacity: nat)
    requires capacity > 0 && Next(s, event, s', capacity) && HoldsTheLast(s, sent, capacity)
    requires (event.FirstSend? ==> s.writers == []) && !event.Receive?
    ensures HoldsTheLast(s', if event.FirstSend? then sent + [event.message] else sent, capacity)
  {
    hide LastOf;
    match event
    case FirstSend(m) =>
      LastOfMore(sent, m, capacity);
      assert (sent + [m])[..|sent|] == sent;
    case MakeRoom(w) =>
    case SecondSend(w) =>
      var n := |sent| - 1;
      LastOfMore(sent[..n], sent[n], capacity);
      assert sent[..n] + [sent[n]] == sent;
  }

  /** Written by one writer at a time and not read, the buffer holds exactly the last messages whenever none is under way. */
  lemma {:induction false} OneAtATimeKeepsTheLast<T>(states: seq<State<T>>, events: seq<Event<T>>, capacity: nat)
    requires IsRun(states, events, capacity) && capacity > 0 && IsOneAtATime(states, events) && IsUnread(events)
    ensures HoldsTheLast(states[|events|], Sent(events), capacity)
    ensures states[|events|].writers == [] ==> states[|events|].queue == LastOf(Sent(events), capacity)
    decreases |events|
  {
    if events != [] {
      hide HoldsTheLast, Next;
      var n := |events| - 1;
      OneAtATimeKeepsTheLast(states[..n + 1], events[..n], capacity);
      assert states[..n + 1][n] == states[n] && Next(states[n], events[n], states[n + 1], capacity);
      HoldsTheLastStep(states[n], events[n], states[n + 1], Sent(events[..n]), capacity);
    }
    assert HoldsTheLast(states[|events|], Sent(events), capacity) && states[|events|].writers == [] ==>
        states[|events|].queue == LastOf(Sent(events), capacity);
  }

  /** One writer at a time, whatever a reader takes in between: what is left is the end of what was sent. */
  predicate HoldsTheEnd<T(==)>(s: State<T>, sent: seq<T>, capacity: nat) {
    var n := |s.queue|;
    match |s.writers|
    case 0 => n <= capacity && s.queue == LastOf(sent, n)
    case 1 =>
      && n <= (if s.writers[0].Refused? then capacity else capacity - 1)
      && sent != [] && sent[|sent| - 1] == s.writers[0].message && s.queue == LastOf(sent[..|sent| - 1], n)
    case _ => false
  }

  lemma HoldsTheEndStep<T>(s: State<T>, event: Event<T>, s': State<T>, sent: seq<T>, capacity: nat)
    requires capacity > 0 && Next(s, event, s', capacity) && HoldsTheEnd(s, sent, capacity)
    requires event.FirstSend? ==> s.writers == []
    ensures HoldsTheEnd(s', if event.FirstSend? then sent + [event.message] else sent, capacity)
  {
    hide LastOf;
    var n := |s.queue|;
    match event
    case FirstSend(m) =>
      LastOfLonger(sent, m, n);
      assert (sent + [m])[..|sent|] == sent;
    case MakeRoom(w) =>
      if n > 0 { LastOfShorter(sent[..|sent| - 1], n); }
    case SecondSend(w) =>
      LastOfLonger(sent[..|sent| - 1], sent[|sent| - 1], n);
      assert sent[..|sent| - 1] + [sent[|sent| - 1]] == sent;
    case Receive =>
      if n > 0 { LastOfShorter(if s.writers == [] then sent else sent[..|sent| - 1], n); }
  }

  /** A reader beside one writer at a time leaves the last messages, in the order in which they were sent. */
  lemma {:induction false} ReaderLeavesTheEnd<T>(states: seq<State<T>>, events: seq<Event<T>>, capacity: nat)
    requires IsRun(states, events, capacity) && capacity > 0 && IsOneAtATime(states, events)
    ensures HoldsTheEnd(states[|events|], Sent(events), capacity)
    ensures states[|events|].writers == [] ==> states[|events|].queue == LastOf(Sent(events), |states[|events|].queue|)
    decreases |events|
  {
    if events != [] {
      hide HoldsTheEnd, Next;
      var n := |events| - 1;
      ReaderLeavesTheEnd(states[..n + 1], events[..n], capacity);
      assert states[..n + 1][n] == states[n] && Next(states[n], events[n], states[n + 1], capacity);
      HoldsTheEndStep(states[n], events[n], states[n + 1], Sent(events[..n]), capacity);
    }
    assert HoldsTheEnd(states[|events|], Sent(events), capacity) && states[|events|].writers == [] ==>
        states[|events|].queue == LastOf(Sent(events), |states[|events|].queue|);
  }

  /** What follows `s` until no writer is under way, if no other starts and nobody reads. */
  ghost predicate IsCompletion<T>(states: seq<State<T>>, events: seq<Event<T>>, s: State<T>, capacity: nat) {
    && IsPath(states, events, capacity) && states[0] == s && states[|events|].writers == []
    && forall i :: 0 <= i < |events| ==> !events[i].FirstSend? && !events[i].Receive?
  }

  /** In whatever order the writers under way go on, they leave the messages `q`. */
  ghost predicate AlwaysEndsWith<T(!new)>(s: State<T>, q: seq<T>, capacity: nat) {
    forall states: seq<State<T>>, events: seq<Event<T>> :: IsCompletion(states, events, s, capacity) ==> states[|events|].queue == q
  }

  predicate IsWriting<T>(event: Event<T>) {
    event.MakeRoom? || event.SecondSend?
  }

  lemma EndsNow<T(!new)>(s: State<T>, capacity: nat)
    requires s.writers == []
    ensures AlwaysEndsWith(s, s.queue, capacity) && IsCompletion([s], [], s, capacity)
  {
    forall states: seq<State<T>>, events: seq<Event<T>> | IsCompletion(states, events, s, capacity)
      ensures states[|events|].queue == s.queue
    {
      assert events != [] ==> Next(states[0], events[0], states[1], capacity);
    }
  }

  /** All that can come next leads to `q`, so everything does. */
  lemma EndsLater<T(!new)>(s: State<T>, q: seq<T>, capacity: nat)
    requires s.writers != []
    requires forall event, s' :: IsWriting(event) && Next(s, event, s', capacity) ==> AlwaysEndsWith(s', q, capacity)
    ensures AlwaysEndsWith(s, q, capacity)
  {
    forall states: seq<State<T>>, events: seq<Event<T>> | IsCompletion(states, events, s, capacity)
      ensures states[|events|].queue == q
    {
      assert IsWriting(events[0]) && Next(states[0], events[0], states[1], capacity);
      assert IsCompletion(states[1..], events[1..], states[1], capacity) by { hide Next; RestIsPath(states, events, capacity); }
      assert AlwaysEndsWith(states[1], q, capacity);
    }
  }

  lemma RestIsPath<T>(states: seq<State<T>>, events: seq<Event<T>>, capacity: nat)
    requires IsPath(states, events, capacity) && events != []
    ensures IsPath(states[1..], events[1..], capacity)
  {
    hide Next;
    forall i | 0 <= i < |events| - 1 ensures Next(states[1..][i], events[1..][i], states[1..][i + 1], capacity) {
      assert Next(states[i + 1], events[i + 1], states[i + 2], capacity);
    }
  }

  /** One writer that owes its message. */
  lemma OneOwes<T(!new)>(s: State<T>, x: T, capacity: nat)
    requires s.writers == [MadeRoom(x)]
    ensures AlwaysEndsWith(s, if |s.queue| < capacity then s.queue + [x] else s.queue, capacity)
  {
    var q := if |s.queue| < capacity then s.queue + [x] else s.queue;
    forall event, s' | IsWriting(event) && Next(s, event, s', capacity) ensures AlwaysEndsWith(s', q, capacity) {
      EndsNow(s', capacity);
    }
    hide AlwaysEndsWith, Next;
    EndsLater(s, q, capacity);
  }

  /** One writer that found the buffer full. */
  lemma OneRefused<T(!new)>(s: State<T>, x: T, capacity: nat)
    requires s.writers == [Refused(x)] && |s.queue| == capacity > 0
    ensures AlwaysEndsWith(s, s.queue[1..] + [x], capacity)
  {
    var q := s.queue[1..] + [x];
    forall event, s' | IsWriting(event) && Next(s, event, s', capacity) ensures AlwaysEndsWith(s', q, capacity) {
      hide AlwaysEndsWith;
      assert s'.writers == [MadeRoom(x)];
      OneOwes(s', x, capacity);
    }
    hide AlwaysEndsWith, Next;
    EndsLater(s, q, capacity);
  }

  /** Two writers of equal messages that both owe theirs. */
  lemma TwoOwe<T(!new)>(s: State<T>, x: T, capacity: nat)
    requires s.writers == [MadeRoom(x), MadeRoom(x)] && |s.queue| < capacity
    ensures AlwaysEndsWith(s, if |s.queue| + 1 < capacity then s.queue + [x, x] else s.queue + [x], capacity)
  {
    var q := if |s.queue| + 1 < capacity then s.queue + [x, x] else s.queue + [x];
    forall event, s' | IsWriting(event) && Next(s, event, s', capacity) ensures AlwaysEndsWith(s', q, capacity) {
      hide AlwaysEndsWith;
      assert s'.writers == [MadeRoom(x)] && s'.queue == s.queue + [x];
      assert s.queue + [x] + [x] == s.queue + [x, x];
      OneOwes(s', x, capacity);
    }
    hide AlwaysEndsWith, Next;
    EndsLater(s, q, capacity);
  }

  predicate IsMixed<T(==)>(writers: seq<Phase<T>>, x: T) {
    writers == [MadeRoom(x), Refused(x)] || writers == [Refused(x), MadeRoom(x)]
  }

  /** Two writers of equal messages, of which one has made room. */
  lemma OneOfTwoOwes<T(!new)>(s: State<T>, x: T, capacity: nat)
    requires IsMixed(s.writers, x) && |s.queue| + 1 == capacity
    ensures AlwaysEndsWith(s, (s.queue + [x])[1..] + [x], capacity)
  {
    var q := (s.queue + [x])[1..] + [x];
    forall event, s' | IsWriting(event) && Next(s, event, s', capacity) ensures AlwaysEndsWith(s', q, capacity) {
      hide AlwaysEndsWith;
      if event.SecondSend? {
        assert s'.writers == [Refused(x)] && s'.queue == s.queue + [x];
        OneRefused(s', x, capacity);
      } else {
        assert s'.writers == [MadeRoom(x), MadeRoom(x)];
        assert s.queue != [] ==> s'.queue + [x, x] == q;
        TwoOwe(s', x, capacity);
      }
    }
    hide AlwaysEndsWith, Next;
    EndsLater(s, q, capacity);
  }

  /** Two writers of equal messages. */
  lemma TwoRefused<T(!new)>(s: State<T>, x: T, capacity: nat)
    requires s.writers == [Refused(x), Refused(x)] && |s.queue| == capacity > 0
    ensures AlwaysEndsWith(s, (s.queue[1..] + [x])[1..] + [x], capacity)
  {
    var q := (s.queue[1..] + [x])[1..] + [x];
    forall event, s' | IsWriting(event) && Next(s, event, s', capacity) ensures AlwaysEndsWith(s', q, capacity) {
      hide AlwaysEndsWith;
      assert IsMixed(s'.writers, x) && s'.queue == s.queue[1..];
      OneOfTwoOwes(s', x, capacity);
    }
    hide AlwaysEndsWith, Next;
    EndsLater(s, q, capacity);
  }

  /** Of two writers of different messages the later one can overtake the earlier. */
  lemma LaterOvertakes<T(!new)>(s: State<T>, x: T, y: T, capacity: nat)
    returns (states: seq<State<T>>, events: seq<Event<T>>)
    requires s.writers == [Refused(x), Refused(y)] && |s.queue| == capacity > 0
    ensures IsCompletion(states, events, s, capacity)
    ensures states[|events|].queue == (s.queue[1..] + [y])[1..] + [x]
  {
    var b, c := s.queue[1..], s.queue[1..] + [y];
    var s1 := s.(queue := b, writers := [Refused(x), MadeRoom(y)], evicted := s.evicted + multiset{s.queue[0]});
    var s2 := s1.(queue := c, writers := [Refused(x)]);
    var s3 := s2.(queue := c[1..], writers := [MadeRoom(x)], evicted := s2.evicted + multiset{c[0]});
    var s4 := s3.(queue := c[1..] + [x], writers := []);
    assert Next(s, MakeRoom(1), s1, capacity);
    assert Next(s1, SecondSend(1), s2, capacity);
    assert Next(s2, MakeRoom(0), s3, capacity);
    assert Next(s3, SecondSend(0), s4, capacity);
    hide Next;
    states, events := [s, s1, s2, s3, s4], [MakeRoom(1), SecondSend(1), MakeRoom(0), SecondSend(0)];
  }

  predicate AreAll<T(==)>(s: seq<T>, x: T) {
    forall i :: 0 <= i < |s| ==> s[i] == x
  }

  /** A sequence that shifting `x` in does not change. */
  lemma {:induction false} ShiftedIsSame<T>(q: seq<T>, x: T)
    ensures q == (q + [x])[1..] <==> AreAll(q, x)
  {
    if q == (q + [x])[1..] && q != [] {
      var n := |q| - 1;
      assert q[n] == (q + [x])[1..][n] == x;
      assert forall i :: 0 <= i < n ==> q[i] == (q + [x])[1..][i] == q[i + 1];
      AllFromTheLast(q, n);
    }
  }

  lemma {:induction false} AllFromTheLast<T>(q: seq<T>, i: nat)
    requires i < |q| && forall j :: 0 <= j < |q| - 1 ==> q[j] == q[j + 1]
    ensures forall j :: 0 <= j <= i ==> q[j] == q[i]
  {
    if i > 0 {
      AllFromTheLast(q, i - 1);
    }
  }

  /** A writer that starts now does no harm: none is under way, or what the other one may drop makes no difference. */
  predicate IsHarmless<T(==)>(s: State<T>, y: T)
    requires |s.writers| <= 1
  {
    s.writers == [] ||
    match s.writers[0]
    case Refused(x) => x == y
    case MadeRoom(x) => AreAll(s.queue, x)
  }

  lemma AloneEnds<T(!new)>(s: State<T>, sent: seq<T>, capacity: nat)
    requires capacity > 0 && HoldsTheLast(s, sent, capacity) && (s.writers == [] || s.writers[0].Refused?)
    ensures AlwaysEndsWith(s, LastOf(sent, capacity), capacity)
  {
    hide AlwaysEndsWith;
    if s.writers == [] {
      EndsNow(s, capacity);
    } else {
      var n := |sent| - 1;
      assert sent[..n] + [sent[n]] == sent;
      LastOfMore(sent[..n], sent[n], capacity);
      OneRefused(s, sent[n], capacity);
    }
  }

  lemma OverlapWithRefused<T(!new)>(s: State<T>, sent: seq<T>, y: T, s': State<T>, capacity: nat)
    requires capacity > 0 && HoldsTheLast(s, sent, capacity) && |s.writers| == 1 && s.writers[0].Refused?
    requires Next(s, FirstSend(y), s', capacity)
    ensures AlwaysEndsWith(s', LastOf(sent + [y], capacity), capacity) <==> s.writers[0].message == y
  {
    var n, x := |sent| - 1, s.writers[0].message;
    assert sent[..n] + [x] == sent;
    LastOfMore(sent[..n], x, capacity);
    LastOfMore(sent, y, capacity);
    var expected := LastOf(sent + [y], capacity);
    assert s'.writers == [Refused(x), Refused(y)] && s'.queue == s.queue && |s.queue| == capacity;
    assert expected == (s.queue[1..] + [x])[1..] + [y];
    if x == y {
      hide AlwaysEndsWith, LastOf;
      TwoRefused(s', x, capacity);
    } else {
      hide LastOf, Next, HoldsTheLast;
      var states, events := LaterOvertakes(s', x, y, capacity);
      assert states[|events|].queue[capacity - 1] == x && expected[capacity - 1] == y;
    }
  }

  /** One writer that owes its message leaves these messages, and does come to an end. */
  lemma OneOwesExactly<T(!new)>(s: State<T>, x: T, q: seq<T>, capacity: nat)
    requires s.writers == [MadeRoom(x)] && |s.queue| == capacity
    ensures AlwaysEndsWith(s, q, capacity) <==> q == s.queue
  {
    OneOwes(s, x, capacity);
    var s2 := s.(writers := [], lost := s.lost + multiset{x});
    assert Next(s, SecondSend(0), s2, capacity);
    assert IsCompletion([s, s2], [SecondSend(0)], s, capacity) by { hide Next; }
    hide IsCompletion;
  }

  /** What the buffer should hold after two more messages, where the first of them is still owed. */
  lemma LastWithOwing<T>(s: State<T>, sent: seq<T>, y: T, capacity: nat)
    requires capacity > 0 && HoldsTheLast(s, sent, capacity) && |s.writers| == 1 && s.writers[0].MadeRoom?
    ensures |s.queue| == capacity - 1
    ensures LastOf(sent + [y], capacity) == (s.queue + [s.writers[0].message])[1..] + [y]
  {
    var n, x := |sent| - 1, s.writers[0].message;
    assert sent[..n] + [x] == sent;
    LastOfMore(sent[..n], x, capacity);
    LastOfMore(sent, y, capacity);
    hide LastOf;
  }

  lemma OverlapWithOwing<T(!new)>(s: State<T>, sent: seq<T>, y: T, s': State<T>, capacity: nat)
    requires capacity > 0 && HoldsTheLast(s, sent, capacity) && |s.writers| == 1 && s.writers[0].MadeRoom?
    requires Next(s, FirstSend(y), s', capacity)
    ensures AlwaysEndsWith(s', LastOf(sent + [y], capacity), capacity) <==> AreAll(s.queue, s.writers[0].message)
  {
    var x, q := s.writers[0].message, s.queue;
    LastWithOwing(s, sent, y, capacity);
    assert s'.writers == [MadeRoom(x)] && s'.queue == q + [y];
    hide LastOf, HoldsTheLast, AreAll, AlwaysEndsWith, Next;
    OneOwesExactly(s', x, LastOf(sent + [y], capacity), capacity);
    SameBeforeLast(q, (q + [x])[1..], y);
    ShiftedIsSame(q, x);
  }

  lemma SameBeforeLast<T>(a: seq<T>, b: seq<T>, y: T)
    ensures a + [y] == b + [y] <==> a == b
  {
    if a + [y] == b + [y] {
      assert a == (a + [y])[..|a|] && b == (b + [y])[..|b|];
    }
  }

  /**
   After writers one at a time, another starts: the buffer holds the last messages however the writers
   go on exactly when the start does no harm.
   */
  lemma OverlapKeepsTheLastExactly<T(!new)>(
      states: seq<State<T>>, events: seq<Event<T>>, y: T, s': State<T>, capacity: nat)
    requires IsRun(states, events, capacity) && capacity > 0 && IsOneAtATime(states, events) && IsUnread(events)
    requires Next(states[|events|], FirstSend(y), s', capacity)
    ensures |states[|events|].writers| <= 1
    ensures AlwaysEndsWith(s', LastOf(Sent(events + [FirstSend(y)]), capacity), capacity) <==> IsHarmless(states[|events|], y)
  {
    OneAtATimeKeepsTheLast(states, events, capacity);
    var s, sent := states[|events|], Sent(events);
    assert (events + [FirstSend(y)])[..|events|] == events;
    hide AlwaysEndsWith, LastOf, Sent;
    if s.writers == [] {
      HoldsTheLastStep(s, FirstSend(y), s', sent, capacity);
      AloneEnds(s', sent + [y], capacity);
    } else if s.writers[0].Refused? {
      OverlapWithRefused(s, sent, y, s', capacity);
    } else {
      OverlapWithOwing(s, sent, y, s', capacity);
    }
  }

  /** Concurrent writers can lose a message and keep an older one: the last N is promised to one writer at a time. */
  lemma InterleavingCanLoseANewerMessage() returns (states: seq<State<int>>, events: seq<Event<int>>)
    ensures IsRun(states, events, 2) && states[|events|].writers == []
    ensures [FirstSend(1), FirstSend(2), FirstSend(3)] <= events
    ensures states[|events|].queue == [2, 4] && 3 in states[|events|].lost
  {
    hide Owing, InFlight;
    var a := State([1], [], multiset{1}, multiset{}, multiset{}, multiset{});
    var b := State([1, 2], [], multiset{1, 2}, multiset{}, multiset{}, multiset{});
    var c := State([1, 2], [Refused(3)], multiset{1, 2, 3}, multiset{}, multiset{}, multiset{});
    var d := State([2], [MadeRoom(3)], multiset{1, 2, 3}, multiset{1}, multiset{}, multiset{});
    var e := State([2, 4], [MadeRoom(3)], multiset{1, 2, 3, 4}, multiset{1}, multiset{}, multiset{});
    var f := State([2, 4], [], multiset{1, 2, 3, 4}, multiset{1}, multiset{3}, multiset{});
    states := [Init(), a, b, c, d, e, f];
    events := [FirstSend(1), FirstSend(2), FirstSend(3), MakeRoom(0), FirstSend(4), SecondSend(0)];
    assert Next(Init(), FirstSend(1), a, 2);
    assert Next(a, FirstSend(2), b, 2);
    assert Next(b, FirstSend(3), c, 2);
    assert Next(c, MakeRoom(0), d, 2);
    assert Next(d, FirstSend(4), e, 2);
    assert Next(e, SecondSend(0), f, 2);
  }
}
