/**
 The wrappers a copy adds to its source. The middlewares of a source are applied in reverse: the
 last entry is the innermost, next to the source, and the first is the last to see a message.
 */
module CopyPipeline {
  import opened Options

  datatype Middleware =
    | Buffer(settings: string)
    | Filter(expression: string)
    | Counter(token: nat)
    | Other(id: nat)

  // ------------------------------------------------------------------ the configured list

  /** The index of the last buffer, or the length of the list when there is none. */
  function LastBuffer(ms: seq<Middleware>): (b: nat)
    ensures b <= |ms| && (b < |ms| ==> ms[b].Buffer?)
    ensures forall i :: 0 <= i < |ms| && (b == |ms| || b < i) ==> !ms[i].Buffer?
  {
    if ms == [] then 0
    else
      var n := |ms| - 1;
      if ms[n].Buffer? then n
      else
        var b := LastBuffer(ms[..n]);
        if b == n then n + 1 else b
  }

  function Inserted(ms: seq<Middleware>, entry: Middleware): seq<Middleware> {
    ms[..LastBuffer(ms)] + [entry] + ms[LastBuffer(ms)..]
  }

  /** The list after all three wrappers; counters take the tokens `next` (delivered) and `next + 1` (read). */
  function Configured(ms: seq<Middleware>, filter: Option<string>, next: nat): seq<Middleware> {
    var delivered := [Counter(next)] + ms;
    var filtered := if filter.Some? then Inserted(delivered, Filter(filter.value)) else delivered;
    Inserted(filtered, Counter(next + 1))
  }

  class Source {
    var middlewares: seq<Middleware>
    var nextToken: nat

    constructor (middlewares: seq<Middleware>, nextToken: nat)
      ensures this.middlewares == middlewares && this.nextToken == nextToken
    {
      this.middlewares, this.nextToken := middlewares, nextToken;
    }

    method NewCounter() returns (entry: Middleware, token: nat)
      modifies this`nextToken
      ensures token == old(nextToken) && nextToken == token + 1 && entry == Counter(token)
    {
      token := nextToken;
      nextToken := nextToken + 1;
      entry := Counter(token);
    }

    method InsertBeforeBuffer(entry: Middleware)
      modifies this`middlewares
      ensures middlewares == Inserted(old(middlewares), entry)
    {
      var i := |middlewares|;
      while i > 0 && !middlewares[i - 1].Buffer?
        invariant 0 <= i <= |middlewares|
        invariant forall j :: i <= j < |middlewares| ==> !middlewares[j].Buffer?
        decreases i
      {
        i := i - 1;
      }
      if i > 0 {
        middlewares := middlewares[..i - 1] + [entry] + middlewares[i - 1..];
      } else {
        middlewares := middlewares + [entry];
        assert old(middlewares)[|old(middlewares)|..] == [];
      }
    }

    method ConfigureFilter(expression: string)
      modifies this`middlewares
      ensures middlewares == Inserted(old(middlewares), Filter(expression))
    {
      InsertBeforeBuffer(Filter(expression));
    }

    method ConfigureCounter() returns (token: nat)
      modifies this
      ensures token == old(nextToken) && nextToken == token + 1
      ensures middlewares == Inserted(old(middlewares), Counter(token))
    {
      var entry;
      entry, token := NewCounter();
      InsertBeforeBuffer(entry);
    }

    method ConfigureDeliveredCounter() returns (token: nat)
      modifies this
      ensures token == old(nextToken) && nextToken == token + 1
      ensures middlewares == [Counter(token)] + old(middlewares)
    {
      var entry;
      entry, token := NewCounter();
      middlewares := [entry] + middlewares;
    }

    /** The order in which a copy attaches its wrappers. */
    method ConfigureCopy(filter: Option<string>) returns (copied: nat, read: nat)
      modifies this
      ensures middlewares == Configured(old(middlewares), filter, old(nextToken))
      ensures copied == old(nextToken) && read == copied + 1 == nextToken - 1
    {
      copied := ConfigureDeliveredCounter();
      if filter.Some? {
        ConfigureFilter(filter.value);
      }
      read := ConfigureCounter();
    }
  }

  lemma LastBufferInside(a: seq<Middleware>, c: seq<Middleware>)
    requires forall i :: 0 <= i < |c| ==> !c[i].Buffer? || i == 0
    requires c == [] || c[0].Buffer?
    requires c == [] ==> forall i :: 0 <= i < |a| ==> !a[i].Buffer?
    ensures LastBuffer(a + c) == |a|
  {
    var all := a + c;
    assert c != [] ==> all[|a|] == c[0];
    assert forall i :: |a| <= i < |all| ==> all[i] == c[i - |a|];
    assert forall i :: 0 <= i < |a| ==> all[i] == a[i];
  }

  /** Outside the user's middlewares, outside the innermost stretch, and inside everything else. */
  lemma ConfiguredLaw(ms: seq<Middleware>, filter: Option<string>, next: nat)
    ensures var b := LastBuffer(ms);
            var wrappers := if filter.Some? then [Filter(filter.value), Counter(next + 1)] else [Counter(next + 1)];
            Configured(ms, filter, next) == [Counter(next)] + ms[..b] + wrappers + ms[b..]
  {
    var b := LastBuffer(ms);
    hide Inserted;
    var outer, inner := [Counter(next)] + ms[..b], ms[b..];
    assert [Counter(next)] + ms == outer + inner;
    InsertedBetween(outer, Counter(next + 1), inner);
    if filter.Some? {
      var f := Filter(filter.value);
      InsertedBetween(outer, f, inner);
      InsertedBetween(outer + [f], Counter(next + 1), inner);
      assert outer + [f] + [Counter(next + 1)] == outer + [f, Counter(next + 1)];
    }
  }

  lemma InsertedBetween(a: seq<Middleware>, entry: Middleware, c: seq<Middleware>)
    requires forall i :: 0 <= i < |c| ==> !c[i].Buffer? || i == 0
    requires c == [] || c[0].Buffer?
    requires c == [] ==> forall i :: 0 <= i < |a| ==> !a[i].Buffer?
    ensures Inserted(a + c, entry) == a + [entry] + c
  {
    LastBufferInside(a, c);
  }

  /** A buffer insists on the source itself below it; otherwise the route does not start. */
  predicate Starts(ms: seq<Middleware>) {
    forall i :: 0 <= i < |ms| && ms[i].Buffer? ==> i == |ms| - 1
  }

  predicate HasNoBuffer(ms: seq<Middleware>) {
    forall i :: 0 <= i < |ms| ==> !ms[i].Buffer?
  }

  /** The middleware next to the source may be a buffer, and no other. */
  lemma StartsExactly(outer: seq<Middleware>, last: Middleware)
    ensures Starts([]) && (Starts(outer + [last]) <==> forall m :: m in outer ==> !m.Buffer?)
  {
    var all := outer + [last];
    assert forall i :: 0 <= i < |outer| ==> all[i] == outer[i];
    if Starts(all) {
      forall m | m in outer ensures !m.Buffer? {
        var i :| 0 <= i < |outer| && outer[i] == m;
        assert all[i] == m;
      }
    }
  }

  lemma StartsByParts(a: seq<Middleware>, c: seq<Middleware>)
    requires c != []
    ensures Starts(a + c) <==> HasNoBuffer(a) && Starts(c)
  {
    var all := a + c;
    assert forall i :: 0 <= i < |a| ==> all[i] == a[i];
    assert forall i :: 0 <= i < |c| ==> all[|a| + i] == c[i];
    assert forall i :: |a| <= i < |all| ==> all[i] == c[i - |a|];
  }

  lemma HasNoBufferByParts(a: seq<Middleware>, c: seq<Middleware>)
    ensures HasNoBuffer(a + c) <==> HasNoBuffer(a) && HasNoBuffer(c)
  {
    var all := a + c;
    assert forall i :: 0 <= i < |a| ==> all[i] == a[i];
    assert forall i :: 0 <= i < |c| ==> all[|a| + i] == c[i];
  }

  /** The wrappers of a copy never come between a buffer and its source, nor mend such a list. */
  lemma WrappersKeepStarting(ms: seq<Middleware>, filter: Option<string>, next: nat)
    ensures Starts(Configured(ms, filter, next)) <==> Starts(ms)
  {
    hide Configured, Starts, HasNoBuffer;
    ConfiguredLaw(ms, filter, next);
    var b := LastBuffer(ms);
    var wrappers := if filter.Some? then [Filter(filter.value), Counter(next + 1)] else [Counter(next + 1)];
    var outer := [Counter(next)] + ms[..b] + wrappers;
    HasNoBufferByParts([Counter(next)], ms[..b]);
    HasNoBufferByParts([Counter(next)] + ms[..b], wrappers);
    assert HasNoBuffer([Counter(next)]) && HasNoBuffer(wrappers) by { WrappersAreNoBuffers(filter, next); }
    assert ms == ms[..b] + ms[b..];
    if b < |ms| {
      StartsByParts(ms[..b], ms[b..]);
      StartsByParts(outer, ms[b..]);
    } else {
      assert outer + ms[b..] == outer && ms[..b] == ms;
      NoBufferStarts(ms);
      NoBufferStarts(outer);
    }
  }

  lemma WrappersAreNoBuffers(filter: Option<string>, next: nat)
    ensures HasNoBuffer([Counter(next)])
    ensures HasNoBuffer(if filter.Some? then [Filter(filter.value), Counter(next + 1)] else [Counter(next + 1)])
  {
  }

  lemma NoBufferStarts(ms: seq<Middleware>)
    ensures LastBuffer(ms) == |ms| ==> HasNoBuffer(ms)
    ensures HasNoBuffer(ms) ==> Starts(ms)
  {
  }

  // ------------------------------------------------------------------ what flows through

  /** Messages travel in batches. */
  type Batches<M> = seq<seq<M>>

  /** What the middlewares do: which messages an expression keeps, and how the others change the stream. */
  datatype Meaning<!M> = Meaning(
    keeps: (string, M) -> bool,
    buffer: (string, Batches<M>) -> Batches<M>,
    other: (nat, Batches<M>) -> Batches<M>)

  function Messages<M>(batches: Batches<M>): seq<M> {
    if batches == [] then [] else batches[0] + Messages(batches[1..])
  }

  function Kept<M>(messages: seq<M>, keeps: M -> bool): (r: seq<M>)
    ensures |r| <= |messages|
  {
    if messages == [] then []
    else if keeps(messages[0]) then [messages[0]] + Kept(messages[1..], keeps)
    else Kept(messages[1..], keeps)
  }

  function KeptBatches<M>(batches: Batches<M>, keeps: M -> bool): Batches<M> {
    if batches == [] then [] else [Kept(batches[0], keeps)] + KeptBatches(batches[1..], keeps)
  }

  /** Each message is kept or not by itself, in its place. */
  lemma {:induction false} FilterLaw<M>(before: seq<M>, message: M, after: seq<M>, keeps: M -> bool)
    ensures Kept(before + [message] + after, keeps) ==
            Kept(before, keeps) + (if keeps(message) then [message] else []) + Kept(after, keeps)
  {
    var all := before + [message] + after;
    if before == [] {
      assert all == [message] + after && all[1..] == after;
    } else {
      assert all[0] == before[0] && all[1..] == before[1..] + [message] + after;
      FilterLaw(before[1..], message, after, keeps);
    }
  }

  lemma {:induction false} FilterKeepsBatches<M>(batches: Batches<M>, keeps: M -> bool)
    ensures var kept := KeptBatches(batches, keeps);
            |kept| == |batches| && forall i :: 0 <= i < |batches| ==> kept[i] == Kept(batches[i], keeps)
  {
    if batches != [] {
      FilterKeepsBatches(batches[1..], keeps);
    }
  }

  /** One middleware at work. A counter lets everything through. */
  function Step<M>(m: Middleware, means: Meaning<M>, batches: Batches<M>): Batches<M> {
    match m
    case Buffer(settings) => means.buffer(settings, batches)
    case Filter(expression) => KeptBatches(batches, x => means.keeps(expression, x))
    case Counter(_) => batches
    case Other(id) => means.other(id, batches)
  }

  /** What the route receives from a source behind these middlewares. */
  function Output<M>(ms: seq<Middleware>, means: Meaning<M>, source: Batches<M>): Batches<M> {
    if ms == [] then source else Step(ms[0], means, Output(ms[1..], means, source))
  }

  /** How many messages the counters with this token have seen. */
  function Tally<M>(token: nat, ms: seq<Middleware>, means: Meaning<M>, source: Batches<M>): nat {
    if ms == [] then 0
    else
      var seen := if ms[0] == Counter(token) then |Messages(Output(ms[1..], means, source))| else 0;
      seen + Tally(token, ms[1..], means, source)
  }

  /** A buffer only regroups. */
  ghost predicate BuffersRegroup<M(!new)>(means: Meaning<M>) {
    forall settings, batches :: Messages(means.buffer(settings, batches)) == Messages(batches)
  }

  /** The other middlewares may change or drop messages, but make none. */
  ghost predicate OthersOnlyDrop<M(!new)>(means: Meaning<M>) {
    forall id, batches :: |Messages(means.other(id, batches))| <= |Messages(batches)|
  }

  /** The counters of the list have tokens handed out before. */
  predicate TokensBelow(ms: seq<Middleware>, next: nat) {
    forall i :: 0 <= i < |ms| && ms[i].Counter? ==> ms[i].token < next
  }

  lemma {:induction false} OutputOfConcat<M>(a: seq<Middleware>, c: seq<Middleware>, means: Meaning<M>, source: Batches<M>)
    ensures Output(a + c, means, source) == Output(a, means, Output(c, means, source))
  {
    if a == [] {
      assert a + c == c;
    } else {
      assert (a + c)[0] == a[0] && (a + c)[1..] == a[1..] + c;
      OutputOfConcat(a[1..], c, means, source);
    }
  }

  lemma {:induction false} TallyOfConcat<M>(token: nat, a: seq<Middleware>, c: seq<Middleware>, means: Meaning<M>,
                                            source: Batches<M>)
    ensures Tally(token, a + c, means, source) ==
            Tally(token, a, means, Output(c, means, source)) + Tally(token, c, means, source)
  {
    if a == [] {
      assert a + c == c;
    } else {
      assert (a + c)[0] == a[0] && (a + c)[1..] == a[1..] + c;
      TallyOfConcat(token, a[1..], c, means, source);
      OutputOfConcat(a[1..], c, means, source);
    }
  }

  lemma {:induction false} NoTally<M>(token: nat, ms: seq<Middleware>, means: Meaning<M>, source: Batches<M>)
    requires forall i :: 0 <= i < |ms| ==> ms[i] != Counter(token)
    ensures Tally(token, ms, means, source) == 0
  {
    if ms != [] {
      NoTally(token, ms[1..], means, source);
    }
  }

  function Filtered<M>(filter: Option<string>, means: Meaning<M>, batches: Batches<M>): Batches<M> {
    if filter.None? then batches else KeptBatches(batches, x => means.keeps(filter.value, x))
  }

  /**
   A copy, for any list of middlewares: the filter and the read tally sit just outside what is below
   the last buffer, and the delivered tally is what the route receives.
   */
  lemma CopyRuns<M>(ms: seq<Middleware>, filter: Option<string>, next: nat, means: Meaning<M>, source: Batches<M>)
    requires TokensBelow(ms, next)
    ensures var all, b := Configured(ms, filter, next), LastBuffer(ms);
            var received := Output(ms[b..], means, source);
            && Output(all, means, source) == Output(ms[..b], means, Filtered(filter, means, received))
            && Tally(next + 1, all, means, source) == |Messages(received)|
            && Tally(next, all, means, source) == |Messages(Output(all, means, source))|
  {
    hide Configured, Output, Tally, Messages, Filtered, LastBuffer;
    var b := LastBuffer(ms);
    var received := Output(ms[b..], means, source);
    var wrappers := if filter.Some? then [Filter(filter.value), Counter(next + 1)] else [Counter(next + 1)];
    var body := ms[..b] + (wrappers + ms[b..]);
    ConfiguredLaw(ms, filter, next);
    assert Configured(ms, filter, next) == [Counter(next)] + body;
    WrappersRun(filter, next, means, received);
    OutputOfConcat(ms[..b], wrappers + ms[b..], means, source);
    OutputOfConcat(wrappers, ms[b..], means, source);
    TallyAround(next, ms[..b], wrappers, ms[b..], means, source);
    TallyAround(next + 1, ms[..b], wrappers, ms[b..], means, source);
    CounterInFront(next, next, body, means, source);
    CounterInFront(next, next + 1, body, means, source);
  }

  lemma TallyAround<M>(token: nat, a: seq<Middleware>, wrappers: seq<Middleware>, c: seq<Middleware>, means: Meaning<M>,
                       source: Batches<M>)
    requires forall i :: 0 <= i < |a| ==> a[i] != Counter(token)
    requires forall i :: 0 <= i < |c| ==> c[i] != Counter(token)
    ensures Tally(token, a + (wrappers + c), means, source) == Tally(token, wrappers, means, Output(c, means, source))
  {
    hide Tally, Output;
    var inside := wrappers + c;
    NoTally(token, a, means, Output(inside, means, source));
    NoTally(token, c, means, source);
    TallyOfConcat(token, a, inside, means, source);
    TallyOfConcat(token, wrappers, c, means, source);
  }

  lemma CounterInFront<M>(own: nat, token: nat, ms: seq<Middleware>, means: Meaning<M>, source: Batches<M>)
    ensures var all := [Counter(own)] + ms;
            && Output(all, means, source) == Output(ms, means, source)
            && Tally(token, all, means, source) ==
                 Tally(token, ms, means, source) + if own == token then |Messages(Output(ms, means, source))| else 0
  {
    var all := [Counter(own)] + ms;
    assert all[1..] == ms;
  }

  lemma WrappersRun<M>(filter: Option<string>, next: nat, means: Meaning<M>, received: Batches<M>)
    ensures var wrappers := if filter.Some? then [Filter(filter.value), Counter(next + 1)] else [Counter(next + 1)];
            && Output(wrappers, means, received) == Filtered(filter, means, received)
            && Tally(next + 1, wrappers, means, received) == |Messages(received)|
            && Tally(next, wrappers, means, received) == 0
  {
    var none: seq<Middleware> := [];
    assert [Counter(next + 1)] + none == [Counter(next + 1)];
    CounterInFront(next + 1, next, none, means, received);
    CounterInFront(next + 1, next + 1, none, means, received);
    if filter.Some? {
      var wrappers := [Filter(filter.value), Counter(next + 1)];
      assert wrappers[1..] == [Counter(next + 1)];
    }
  }

  // ------------------------------------------------------------------ consequences

  lemma {:induction false} KeptOfConcat<M>(a: seq<M>, c: seq<M>, keeps: M -> bool)
    ensures Kept(a + c, keeps) == Kept(a, keeps) + Kept(c, keeps)
  {
    if a == [] {
      assert a + c == c;
    } else {
      assert (a + c)[0] == a[0] && (a + c)[1..] == a[1..] + c;
      KeptOfConcat(a[1..], c, keeps);
      if keeps(a[0]) {
        assert [a[0]] + (Kept(a[1..], keeps) + Kept(c, keeps)) == ([a[0]] + Kept(a[1..], keeps)) + Kept(c, keeps);
      }
    }
  }

  /** Filtering batch by batch filters the messages. */
  lemma {:induction false} KeptMessages<M>(batches: Batches<M>, keeps: M -> bool)
    ensures Messages(KeptBatches(batches, keeps)) == Kept(Messages(batches), keeps)
  {
    if batches != [] {
      var rest := batches[1..];
      assert KeptBatches(batches, keeps)[1..] == KeptBatches(rest, keeps);
      KeptMessages(rest, keeps);
      KeptOfConcat(batches[0], Messages(rest), keeps);
    }
  }

  lemma {:induction false} OnlyDropping<M(!new)>(ms: seq<Middleware>, means: Meaning<M>, source: Batches<M>)
    requires BuffersRegroup(means) && OthersOnlyDrop(means)
    ensures |Messages(Output(ms, means, source))| <= |Messages(source)|
  {
    if ms != [] {
      OnlyDropping(ms[1..], means, source);
      var inner := Output(ms[1..], means, source);
      if ms[0].Filter? {
        KeptMessages(inner, x => means.keeps(ms[0].expression, x));
      }
    }
  }

  /** When no middleware makes messages up, no more are delivered than were read. */
  lemma DeliveredIsAtMostRead<M(!new)>(ms: seq<Middleware>, filter: Option<string>, next: nat, means: Meaning<M>,
                                       source: Batches<M>)
    requires TokensBelow(ms, next) && BuffersRegroup(means) && OthersOnlyDrop(means)
    ensures var all := Configured(ms, filter, next);
            Tally(next, all, means, source) <= Tally(next + 1, all, means, source) <= |Messages(source)|
  {
    CopyRuns(ms, filter, next, means, source);
    var b := LastBuffer(ms);
    var received := Output(ms[b..], means, source);
    OnlyDropping(ms[b..], means, source);
    OnlyDropping(ms[..b], means, Filtered(filter, means, received));
    if filter.Some? {
      KeptMessages(received, x => means.keeps(filter.value, x));
    }
  }

  /**
   A list that starts: everything the source produced is read, and what enters the user's own
   middlewares is the filtered source, exactly so without a buffer and regrouped with one.
   */
  lemma CopyOfAListThatStarts<M(!new)>(ms: seq<Middleware>, filter: Option<string>, next: nat, means: Meaning<M>,
                                       source: Batches<M>) returns (entered: Batches<M>)
    requires TokensBelow(ms, next) && BuffersRegroup(means) && Starts(ms)
    ensures var all, users := Configured(ms, filter, next), if LastBuffer(ms) == |ms| then ms else ms[..|ms| - 1];
            && Tally(next + 1, all, means, source) == |Messages(source)|
            && Output(all, means, source) == Output(users, means, entered)
            && Tally(next, all, means, source) == |Messages(Output(all, means, source))|
    ensures filter.None? ==> Messages(entered) == Messages(source)
    ensures filter.Some? ==> Messages(entered) == Kept(Messages(source), x => means.keeps(filter.value, x))
    ensures LastBuffer(ms) == |ms| ==> entered == Filtered(filter, means, source)
  {
    var b := LastBuffer(ms);
    var received := Output(ms[b..], means, source);
    CopyRuns(ms, filter, next, means, source);
    if b < |ms| {
      assert b == |ms| - 1 && ms[b..] == [ms[b]] && [ms[b]][1..] == [];
      assert received == means.buffer(ms[b].settings, source);
    } else {
      assert ms[b..] == [] && ms[..b] == ms;
    }
    entered := Filtered(filter, means, received);
    if filter.Some? {
      KeptMessages(received, x => means.keeps(filter.value, x));
    }
  }

  /** Everything below the last buffer lets every message through. */
  predicate NothingBelowBuffer(ms: seq<Middleware>) {
    forall i :: LastBuffer(ms) < i < |ms| ==> ms[i].Counter?
  }

  /** The read tally equals what the source produced. */
  ghost predicate ReadCountsTheSource<M(!new)>(ms: seq<Middleware>, filter: Option<string>, next: nat) {
    forall means: Meaning<M>, source: Batches<M> ::
      BuffersRegroup(means) ==> Tally(next + 1, Configured(ms, filter, next), means, source) == |Messages(source)|
  }

  function DropAll<M>(): Meaning<M> {
    Meaning((_, _) => false, (_, batches) => batches, (_, _) => [])
  }

  lemma {:induction false} CountersChangeNothing<M>(ms: seq<Middleware>, means: Meaning<M>, source: Batches<M>)
    requires forall i :: 0 <= i < |ms| ==> ms[i].Counter?
    ensures Output(ms, means, source) == source
  {
    if ms != [] {
      CountersChangeNothing(ms[1..], means, source);
    }
  }

  lemma {:induction false} DropAllDrops<M(!new)>(ms: seq<Middleware>, i: nat, source: Batches<M>)
    requires i < |ms| && (ms[i].Filter? || ms[i].Other?)
    ensures Messages(Output(ms, DropAll<M>(), source)) == []
  {
    var means := DropAll<M>();
    var inner := Output(ms[1..], means, source);
    if i == 0 {
      if ms[0].Filter? {
        KeptMessages(inner, x => means.keeps(ms[0].expression, x));
        KeptNone(Messages(inner), x => means.keeps(ms[0].expression, x));
      }
    } else {
      DropAllDrops(ms[1..], i - 1, source);
      if ms[0].Filter? {
        KeptMessages(inner, x => means.keeps(ms[0].expression, x));
      }
    }
  }

  lemma {:induction false} KeptNone<M(!new)>(messages: seq<M>, keeps: M -> bool)
    requires forall m :: !keeps(m)
    ensures Kept(messages, keeps) == []
  {
    if messages != [] {
      KeptNone(messages[1..], keeps);
    }
  }

  lemma NothingBelowBufferReads<M(!new)>(ms: seq<Middleware>, filter: Option<string>, next: nat, means: Meaning<M>,
                                         source: Batches<M>)
    requires TokensBelow(ms, next) && NothingBelowBuffer(ms) && BuffersRegroup(means)
    ensures Tally(next + 1, Configured(ms, filter, next), means, source) == |Messages(source)|
  {
    hide Configured, Tally;
    CopyRuns(ms, filter, next, means, source);
    var b := LastBuffer(ms);
    if b < |ms| {
      assert ms[b..] == [ms[b]] + ms[b + 1..];
      OutputOfConcat([ms[b]], ms[b + 1..], means, source);
      CountersChangeNothing(ms[b + 1..], means, source);
      assert [ms[b]][1..] == [];
    }
  }

  lemma SomethingBelowBufferDrops<M(!new)>(ms: seq<Middleware>, filter: Option<string>, next: nat, message: M, i: nat)
    requires TokensBelow(ms, next) && LastBuffer(ms) < i < |ms| && !ms[i].Counter?
    ensures Tally(next + 1, Configured(ms, filter, next), DropAll<M>(), [[message]]) != |Messages([[message]])|
  {
    hide Configured, Tally, Output;
    var source: Batches<M> := [[message]];
    assert source[1..] == [] && Messages(source) == [message];
    CopyRuns(ms, filter, next, DropAll<M>(), source);
    var b := LastBuffer(ms);
    assert ms[b..][i - b] == ms[i];
    DropAllDrops(ms[b..], i - b, source);
  }

  /** Whatever the middlewares mean, the read tally is right exactly when nothing sits below the last buffer. */
  lemma ReadCountsTheSourceExactly<M(!new)>(ms: seq<Middleware>, filter: Option<string>, next: nat, message: M)
    requires TokensBelow(ms, next)
    ensures ReadCountsTheSource<M>(ms, filter, next) <==> NothingBelowBuffer(ms)
  {
    hide Configured, Tally, Messages;
    if NothingBelowBuffer(ms) {
      forall means: Meaning<M>, source: Batches<M> | BuffersRegroup(means)
        ensures Tally(next + 1, Configured(ms, filter, next), means, source) == |Messages(source)|
      {
        NothingBelowBufferReads(ms, filter, next, means, source);
      }
    } else {
      var i :| LastBuffer(ms) < i < |ms| && !ms[i].Counter?;
      SomethingBelowBufferDrops(ms, filter, next, message, i);
      assert BuffersRegroup(DropAll<M>());
    }
  }
}
