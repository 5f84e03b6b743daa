/** Consumers as they are saved: the keys they run under, how they are looked up, and the form they are saved in. */
module SavedConsumers {
  import opened Options
  import opened Text
  import opened ConfigMigration
  import opened ConfigMigrationLaws
  import opened RouteDelivery

  function RuntimeKey(c: Consumer): string {
    if IsBlank(c.id) then Trimmed(c.name) else Trimmed(c.id)
  }

  predicate Matches(c: Consumer, lookup: string) {
    RuntimeKey(c) == lookup || c.name == lookup
  }

  function FindMatch(cs: seq<Consumer>, lookup: string): (i: nat)
    ensures i <= |cs|
  {
    if cs == [] || Matches(cs[0], lookup) then 0 else 1 + FindMatch(cs[1..], lookup)
  }

  /** The first consumer with a runtime key. */
  function FindKey(cs: seq<Consumer>, key: string): (i: nat)
    ensures i <= |cs|
  {
    if cs == [] || RuntimeKey(cs[0]) == key then 0 else 1 + FindKey(cs[1..], key)
  }

  lemma {:induction false} FindKeyLaw(cs: seq<Consumer>, key: string)
    ensures var i := FindKey(cs, key);
            && (i < |cs| ==> RuntimeKey(cs[i]) == key)
            && forall j :: 0 <= j < i ==> RuntimeKey(cs[j]) != key
  {
    hide RuntimeKey;
    if cs != [] && RuntimeKey(cs[0]) != key {
      FindKeyLaw(cs[1..], key);
      var i := FindKey(cs, key);
      assert i < |cs| ==> cs[i] == cs[1..][i - 1];
      forall j | 0 <= j < i ensures RuntimeKey(cs[j]) != key {
        assert j > 0 ==> cs[j] == cs[1..][j - 1];
      }
    }
  }

  /** A consumer runs under its id without the blanks around it, or under its name if the id is blank. */
  lemma RuntimeKeyLaw(c: Consumer, key: string)
    ensures key != "" && IsCore(key, c.id, WhiteSpace) ==> RuntimeKey(c) == key
    ensures AreBlankIn(c.id, WhiteSpace) && IsCore(key, c.name, WhiteSpace) ==> RuntimeKey(c) == key
  {
    hide Trimmed, IsCore, AreBlankIn;
    TrimmedLaw(c.id, key);
    TrimmedLaw(c.name, key);
    BlankLaw(c.id);
  }

  /** `i` is where the first consumer is that has `lookup` for its key or its name; all come before if there is none. */
  ghost predicate IsFirstMatch(cs: seq<Consumer>, lookup: string, i: nat) {
    && i <= |cs|
    && (i < |cs| ==> RuntimeKey(cs[i]) == lookup || cs[i].name == lookup)
    && forall j :: 0 <= j < i ==> RuntimeKey(cs[j]) != lookup && cs[j].name != lookup
  }

  lemma {:induction false} FindMatchLaw(cs: seq<Consumer>, lookup: string, i: nat)
    ensures FindMatch(cs, lookup) == i <==> IsFirstMatch(cs, lookup, i)
  {
    hide RuntimeKey;
    if cs != [] && RuntimeKey(cs[0]) != lookup && cs[0].name != lookup {
      assert forall j :: 1 <= j < |cs| ==> cs[j] == cs[1..][j - 1];
      if i > 0 {
        FindMatchLaw(cs[1..], lookup, i - 1);
        assert i < |cs| ==> cs[i] == cs[1..][i - 1];
        if IsFirstMatch(cs, lookup, i) {
          forall j | 0 <= j < i - 1 ensures RuntimeKey(cs[1..][j]) != lookup && cs[1..][j].name != lookup {
            assert cs[1..][j] == cs[j + 1];
          }
        }
      }
    }
  }

  lemma FindMatchIsFirst(cs: seq<Consumer>, lookup: string)
    ensures forall i :: IsFirstMatch(cs, lookup, i) <==> i == FindMatch(cs, lookup)
  {
    hide FindMatch, IsFirstMatch;
    forall i: nat ensures IsFirstMatch(cs, lookup, i) <==> i == FindMatch(cs, lookup) {
      FindMatchLaw(cs, lookup, i);
    }
  }

  /** Looking up finds a consumer if and only if one has the key or the name. */
  lemma FindsIfThere(cs: seq<Consumer>, lookup: string)
    ensures FindMatch(cs, lookup) < |cs| <==>
            exists j :: 0 <= j < |cs| && (RuntimeKey(cs[j]) == lookup || cs[j].name == lookup)
  {
    hide RuntimeKey, FindMatch;
    FindMatchLaw(cs, lookup, FindMatch(cs, lookup));
  }

  predicate HasUniqueKeys(cs: seq<Consumer>) {
    forall i, j :: 0 <= i < j < |cs| ==> RuntimeKey(cs[i]) != RuntimeKey(cs[j])
  }

  function NormalizedOutput(output: Output, fallback: Option<Response>): Output {
    match output
    case ToPublisher(publisher, publisherId) => ToPublisher(Trimmed(publisher), publisherId)
    case Respond(response) =>
      var normal := NormalResponse(response);
      Respond(if normal.Some? then normal else NormalResponse(fallback))
    case NoOutput =>
      var normal := NormalResponse(fallback);
      if normal.Some? then Respond(normal) else NoOutput
  }

  /** A consumer in the form in which an update saves it. */
  function NormalConsumer(c: Consumer): Consumer {
    var output := NormalizedOutput(c.output, c.response);
    c.(name := Trimmed(c.name), output := output,
       response := if output.Respond? then NormalResponse(output.response) else None,
       capture := c.capture.(keepLast := if c.capture.keepLast >= 1 then c.capture.keepLast else 1))
  }

  /**
   What saving makes of a consumer: the name and a publisher's name lose the blanks around them, at least one
   message is kept, and of the response in the output and the legacy one the first that says something becomes
   the response of both.
   */
  lemma NormalConsumerLaw(c: Consumer)
    ensures var n := NormalConsumer(c);
            && n == c.(name := n.name, output := n.output, response := n.response, capture := n.capture)
            && IsCore(n.name, c.name, WhiteSpace)
            && n.capture.enabled == c.capture.enabled
            && n.capture.keepLast >= 1 && n.capture.keepLast >= c.capture.keepLast
            && (n.capture.keepLast != c.capture.keepLast ==> n.capture.keepLast == 1)
    ensures var n, o := NormalConsumer(c), c.output;
            && (o.ToPublisher? ==> n.output.ToPublisher? && IsCore(n.output.publisher, o.publisher, WhiteSpace)
                                   && n.output.publisherId == o.publisherId && n.response == None)
            && (o.Respond? ==> n.output == Respond(n.response))
            && (o.NoOutput? ==> n.output == if n.response.Some? then Respond(n.response) else NoOutput)
            && (!o.ToPublisher? ==> n.response == NormalResponse(if SaysItself(o) then o.response else c.response))
  {
    hide Trimmed, IsCore, NormalResponse, SaysSomething;
    TrimmedLaw(c.name, Trimmed(c.name));
    NormalResponseIsIdempotent(c.response);
    match c.output
    case ToPublisher(publisher, publisherId) => TrimmedLaw(publisher, Trimmed(publisher));
    case Respond(response) =>
      NormalResponseIsIdempotent(response);
      NormalResponseLaw(response);
    case NoOutput => assert NormalResponse(None) == None by { NoResponseIsNormal(); }
  }

  /** Whether an output holds a response that says something. */
  ghost predicate SaysItself(o: Output) {
    o.Respond? && o.response.Some? && SaysSomething(o.response.value)
  }

  function NormalConsumers(cs: seq<Consumer>): (r: seq<Consumer>)
    ensures |r| == |cs| && forall i :: 0 <= i < |cs| ==> r[i] == NormalConsumer(cs[i])
  {
    seq(|cs|, i requires 0 <= i < |cs| => NormalConsumer(cs[i]))
  }

  lemma NormalResponseIsIdempotent(response: Option<Response>)
    ensures NormalResponse(NormalResponse(response)) == NormalResponse(response)
  {
    hide IsBlank;
    var once := NormalResponse(response);
    if once.Some? {
      var headers := once.value.headers;
      assert (map k | k in headers && !IsBlank(k) && !IsBlank(headers[k]) :: headers[k]) == headers;
    }
  }

  /** Saving what was saved changes nothing, so an unchanged consumer compares equal to itself. */
  lemma NormalConsumerIsIdempotent(c: Consumer)
    ensures NormalConsumer(NormalConsumer(c)) == NormalConsumer(c)
  {
    hide NormalResponse, Trimmed;
    TrimTwice(c.name);
    NormalResponseIsIdempotent(c.response);
    if c.output.ToPublisher? {
      TrimTwice(c.output.publisher);
    } else if c.output.Respond? {
      NormalResponseIsIdempotent(c.output.response);
    }
    assert NormalResponse(None) == None by { NoResponseIsNormal(); }
  }

  lemma NoResponseIsNormal()
    ensures NormalResponse(None) == None
  {
  }
}
