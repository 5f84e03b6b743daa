/** Where a consumer delivers to, and the consumers and publishers that a migration makes of routes. */
module RouteDelivery {
  import opened Options
  import opened Text
  import opened UniqueNames
  import opened ConfigMigration
  import opened ConfigMigrationLaws

  datatype Result<+T, +E> = Ok(value: T) | Err(error: E)

  datatype Target = Nowhere | Deliver(endpoint: Endpoint) | Answer(response: Option<Response>)

  datatype ResolveError = UnsupportedResponses | NoPublisherSelected | PublisherNotFound(reference: string)

  predicate SupportsResponses(endpoint: Endpoint) {
    endpoint.kind in {"http", "nats", "memory", "amqp", "mongodb", "mqtt", "zeromq", "kafka"}
  }

  /** The response without blank headers; none at all if nothing is left of it. */
  function NormalResponse(response: Option<Response>): Option<Response> {
    if response.None? then None
    else
      var kept := map k | k in response.value.headers && !IsBlank(k) && !IsBlank(response.value.headers[k]) ::
                    response.value.headers[k];
      if kept == map[] && IsBlank(response.value.payload) then None
      else Some(response.value.(headers := kept))
  }

  /** Whether a publisher is the one meant by a trimmed name and a trimmed, non-blank id. */
  predicate IsMeant(p: Publisher, name: string, id: Option<string>) {
    (id.Some? && p.id == id.value) || (name != "" && p.name == name)
  }

  function FirstMeant(ps: seq<Publisher>, name: string, id: Option<string>): (i: nat)
    ensures i <= |ps|
    ensures i < |ps| ==> IsMeant(ps[i], name, id)
    ensures forall j :: 0 <= j < i ==> !IsMeant(ps[j], name, id)
  {
    if ps == [] || IsMeant(ps[0], name, id) then 0 else
      var n := FirstMeant(ps[1..], name, id);
      assert forall j :: 1 <= j < n + 1 ==> ps[j] == ps[1..][j - 1];
      1 + n
  }

  function TrimmedId(id: Option<string>): Option<string> {
    if id.Some? && !IsBlank(id.value) then Some(Trimmed(id.value)) else None
  }

  /** The publisher an output refers to: the first that has its id or its name. */
  function Referred(o: Output, ps: seq<Publisher>): (i: nat)
    requires o.ToPublisher?
    ensures i <= |ps|
  {
    FirstMeant(ps, Trimmed(o.publisher), TrimmedId(o.publisherId))
  }

  function Resolve(consumer: Consumer, ps: seq<Publisher>): Result<Target, ResolveError> {
    match consumer.output
    case NoOutput => Ok(Nowhere)
    case Respond(response) =>
      if SupportsResponses(consumer.endpoint) then Ok(Answer(NormalResponse(response))) else Err(UnsupportedResponses)
    case ToPublisher(publisher, publisherId) =>
      var name, id := Trimmed(publisher), TrimmedId(publisherId);
      if name == "" && id == None then Err(NoPublisherSelected)
      else
        var i := Referred(consumer.output, ps);
        if i < |ps| then Ok(Deliver(ps[i].endpoint))
        else Err(PublisherNotFound(if id.Some? then id.value else name))
  }

  // ------------------------------------------------------------------ what a response and an output come to

  /** A header with a key and a value that are not blank, or a payload that is not. */
  ghost predicate SaysSomething(r: Response) {
    || !AreBlankIn(r.payload, WhiteSpace)
    || exists k :: k in r.headers && IsHeaderSet(k, r.headers[k])
  }

  ghost predicate IsHeaderSet(key: string, value: string) {
    !AreBlankIn(key, WhiteSpace) && !AreBlankIn(value, WhiteSpace)
  }

  /** A response is left if and only if it says something: its payload, and exactly the headers that are set. */
  lemma NormalResponseLaw(response: Option<Response>)
    ensures NormalResponse(response).Some? <==> response.Some? && SaysSomething(response.value)
    ensures NormalResponse(response).Some? ==>
              var was, now := response.value, NormalResponse(response).value;
              && now.payload == was.payload
              && (forall k :: k in now.headers <==> k in was.headers && IsHeaderSet(k, was.headers[k]))
              && (forall k :: k in now.headers ==> now.headers[k] == was.headers[k])
  {
    hide IsBlank, AreBlankIn;
    if response.Some? {
      var headers := response.value.headers;
      BlankLaw(response.value.payload);
      forall k | k in headers
        ensures IsHeaderSet(k, headers[k]) <==> !IsBlank(k) && !IsBlank(headers[k])
      {
        BlankLaw(k);
        BlankLaw(headers[k]);
      }
      var kept := map k | k in headers && !IsBlank(k) && !IsBlank(headers[k]) :: headers[k];
      if SaysSomething(response.value) && AreBlankIn(response.value.payload, WhiteSpace) {
        var k :| k in headers && IsHeaderSet(k, headers[k]);
        assert k in kept;
      }
      if kept != map[] {
        var k :| k in kept;
        assert IsHeaderSet(k, headers[k]);
      }
    }
  }

  /** Without a publisher: nowhere, or an answer where the kind of endpoint can give one. */
  lemma ResolveAnswers(consumer: Consumer, ps: seq<Publisher>)
    ensures consumer.output == NoOutput ==> Resolve(consumer, ps) == Ok(Nowhere)
    ensures consumer.output.Respond? ==>
              var kind := consumer.endpoint.kind;
              Resolve(consumer, ps) ==
                if || kind == "http" || kind == "nats" || kind == "memory" || kind == "amqp"
                   || kind == "mongodb" || kind == "mqtt" || kind == "zeromq" || kind == "kafka"
                then Ok(Answer(NormalResponse(consumer.output.response)))
                else Err(UnsupportedResponses)
  {
  }

  predicate GoesBy(p: Publisher, name: string, id: string) {
    (id != "" && p.id == id) || (name != "" && p.name == name)
  }

  /** With `name` and `id` free of the blanks around them: the endpoint of the first publisher that goes by either. */
  lemma ResolvePublisher(consumer: Consumer, ps: seq<Publisher>, name: string, id: string, i: nat)
    requires consumer.output.ToPublisher? && IsCore(name, consumer.output.publisher, WhiteSpace)
    requires var given := consumer.output.publisherId;
             IsCore(id, if given.Some? then given.value else "", WhiteSpace)
    requires i <= |ps| && forall j :: 0 <= j < i ==> !GoesBy(ps[j], name, id)
    ensures name == "" && id == "" ==> Resolve(consumer, ps) == Err(NoPublisherSelected)
    ensures i < |ps| && GoesBy(ps[i], name, id) ==> Resolve(consumer, ps) == Ok(Deliver(ps[i].endpoint))
    ensures i == |ps| && (name != "" || id != "") ==>
              Resolve(consumer, ps) == Err(PublisherNotFound(if id != "" then id else name))
  {
    hide Trimmed, IsCore;
    TrimmedLaw(consumer.output.publisher, name);
    var given := consumer.output.publisherId;
    TrimmedLaw(if given.Some? then given.value else "", id);
    assert Trimmed("") == "" by { BlankLaw(""); }
    var r := Referred(consumer.output, ps);
    assert forall j :: 0 <= j < |ps| ==> (IsMeant(ps[j], name, TrimmedId(given)) <==> GoesBy(ps[j], name, id));
    assert i < r ==> !IsMeant(ps[i], name, TrimmedId(given));
  }

  // ------------------------------------------------------------------ each route becomes one consumer

  lemma OrderIsComplete(order: seq<string>, routes: map<string, Route>)
    requires IsDrainOrder(order, routes)
    ensures |order| == |routes|
  {
    CountDistinct(order, routes.Keys);
  }

  lemma {:induction false} CountDistinct(order: seq<string>, names: set<string>)
    requires forall k :: 0 <= k < |order| ==> order[k] in names
    requires forall name :: name in names ==> name in order
    requires forall j, k :: 0 <= j < k < |order| ==> order[j] != order[k]
    ensures |order| == |names|
  {
    if order == [] {
      assert names == {};
    } else {
      CountDistinct(order[1..], names - {order[0]});
    }
  }

  /** The consumers from index `n` on are those of the routes, in the order they came out. */
  ghost predicate AreFromRoutes(cs: seq<Consumer>, n: nat, routes: map<string, Route>, order: seq<string>)
    requires IsDrainOrder(order, routes)
  {
    && |cs| == n + |order|
    && forall k :: 0 <= k < |order| ==> IsFromRoute(cs[n + k], order[k], routes[order[k]])
  }

  ghost predicate IsFromRoute(t: Consumer, name: string, route: Route) {
    && t.endpoint == route.input && t.options == route.options && t.enabled == route.enabled && t.response == None
    && t.comment == "" && t.capture == Capture(false, 100)
    && (exists n: nat :: t.name == Candidate(Trimmed(name), n))
  }

  /** Consumers that were there keep everything but a bad id, a legacy response and the form of their output. */
  predicate IsKept(t: Consumer, was: Consumer) {
    && t.name == was.name && t.enabled == was.enabled && t.endpoint == was.endpoint && t.options == was.options
    && t.comment == was.comment && t.capture == was.capture
    && (t.output.NoOutput? <==> was.output.NoOutput? && was.response.None?)
    && (t.output.ToPublisher? <==> was.output.ToPublisher?)
    && (t.output.Respond? ==> t.output == if was.output.Respond? then was.output else Respond(was.response))
  }

  lemma EachRouteBecomesOneConsumer(c: Config, order: seq<string>, newId: nat -> string)
    requires IsDrainOrder(order, c.routes) && HasFreshIds(c, newId)
    ensures var m := Migrated(c, order, newId);
            && |m.consumers| == |c.consumers| + |c.routes|
            && AreFromRoutes(m.consumers, |c.consumers|, c.routes, order)
            && AreNewConsumers(m.consumers, |c.consumers|)
  {
    hide Drained, WithIds, NormalOutput, AreGoodIds, AreNewPublishers, IsIdSource, AreRouteConsumers, AreFromRoutes;
    OrderIsComplete(order, c.routes);
    DrainedLaw(c, order, newId);
    var d := Drained(c, order, newId);
    WithIdsLaw(d, newId);
    var e := WithIds(d, newId);
    var m := Normalized(e);
    forall i | 0 <= i < |d.consumers| ensures IsCompleted(m.consumers[i], d.consumers[i]) {
      assert e.consumers[i] == d.consumers[i].(id := e.consumers[i].id);
    }
    CompletedAreFromRoutes(d, m.consumers, |c.consumers|, c.routes, order);
    forall i, j | |c.consumers| <= i < |m.consumers| && 0 <= j < i ensures m.consumers[j].name != m.consumers[i].name {
      assert IsCompleted(m.consumers[i], d.consumers[i]) && IsCompleted(m.consumers[j], d.consumers[j]);
      assert d.consumers[j].name != d.consumers[i].name;
    }
    assert |m.consumers| == |c.consumers| + |order| by { CountRouteConsumers(d, |c.consumers|, c.routes, order); }
  }

  predicate IsCompleted(t: Consumer, was: Consumer) {
    t == was.(id := t.id, output := t.output)
  }

  lemma CountRouteConsumers(d: Config, n: nat, routes: map<string, Route>, order: seq<string>)
    requires IsDrainOrder(order, routes) && AreRouteConsumers(d, n, routes, order)
    ensures |d.consumers| == n + |order|
  {
    hide IsRouteConsumer;
  }

  lemma CompletedAreFromRoutes(d: Config, cs: seq<Consumer>, n: nat, routes: map<string, Route>, order: seq<string>)
    requires IsDrainOrder(order, routes) && AreRouteConsumers(d, n, routes, order)
    requires |cs| == |d.consumers| && forall i :: 0 <= i < |cs| ==> IsCompleted(cs[i], d.consumers[i])
    ensures AreFromRoutes(cs, n, routes, order)
  {
    hide IsRouteConsumer, IsFromRoute;
    forall k | 0 <= k < |order| ensures IsFromRoute(cs[n + k], order[k], routes[order[k]]) {
      var i := n + k;
      assert IsCompleted(cs[i], d.consumers[i]);
      assert IsRouteConsumer(d.consumers[n + k], order[k], routes[order[k]], d.publishers);
      RouteConsumerKept(d.consumers[i], cs[i], order[k], routes[order[k]], d.publishers);
    }
  }

  lemma OtherConsumersAreKept(c: Config, order: seq<string>, newId: nat -> string)
    requires IsDrainOrder(order, c.routes) && HasFreshIds(c, newId)
    ensures var m := Migrated(c, order, newId);
            && |m.consumers| >= |c.consumers|
            && (forall i :: 0 <= i < |c.consumers| ==> IsKept(m.consumers[i], c.consumers[i]))
            && (forall i :: 0 <= i < |c.consumers| ==>
                  (m.consumers[i].id == c.consumers[i].id <==> KeepsId(ConsumerIds(c.consumers), i)))
  {
    hide Drained, WithIds, NormalOutput, AreGoodIds, AreNewPublishers, AreRouteConsumers, AreNewConsumers, IsIdSource, IsKept,
         Trimmed;
    DrainedLaw(c, order, newId);
    var d := Drained(c, order, newId);
    WithIdsLaw(d, newId);
    var e := WithIds(d, newId);
    var m := Normalized(e);
    forall i | 0 <= i < |c.consumers| ensures IsKept(m.consumers[i], c.consumers[i]) {
      assert d.consumers[i] == WithResponse(c.consumers[i]);
      ConsumerKept(c.consumers[i], e.consumers[i].id, NamesById(e.publishers), IdsByName(e.publishers));
    }
    forall i | 0 <= i < |c.consumers|
      ensures m.consumers[i].id == c.consumers[i].id <==> KeepsId(ConsumerIds(c.consumers), i)
    {
      assert ConsumerIds(d.consumers)[..i] == ConsumerIds(c.consumers)[..i] by {
        assert forall j :: 0 <= j < i ==> d.consumers[j] == WithResponse(c.consumers[j]);
      }
      assert d.consumers[i] == WithResponse(c.consumers[i]);
    }
  }

  lemma RouteConsumerKept(t: Consumer, u: Consumer, name: string, route: Route, ps: seq<Publisher>)
    requires IsRouteConsumer(t, name, route, ps) && u == t.(id := u.id, output := u.output)
    ensures IsFromRoute(u, name, route)
  {
    hide Trimmed, Candidate, OutputFor, IsPublished;
  }

  lemma ConsumerKept(was: Consumer, id: string, names: map<string, string>, ids: map<string, string>)
    ensures var t := WithResponse(was).(id := id);
            IsKept(t.(output := NormalOutput(t.output, names, ids)), was)
  {
    hide Trimmed;
  }

  /** Publishers keep all but a bad id; those added have new names and stand for endpoints not met before. */
  lemma PublishersAreOnlyAdded(c: Config, order: seq<string>, newId: nat -> string)
    requires IsDrainOrder(order, c.routes) && HasFreshIds(c, newId)
    ensures var ps, n := Migrated(c, order, newId).publishers, |c.publishers|;
            && |ps| >= n
            && (forall i :: 0 <= i < n ==> ps[i] == c.publishers[i].(id := ps[i].id))
            && (forall i, j :: n <= i < |ps| && 0 <= j < i ==> ps[j].name != ps[i].name && ps[j].endpoint != ps[i].endpoint)
            && (forall i :: n <= i < |ps| ==> ps[i] == Publisher(ps[i].id, ps[i].name, ps[i].endpoint, "", "", [], None))
            && (AreGoodIds(PublisherIds(c.publishers)) ==> c.publishers <= ps)
  {
    hide Drained, WithIds, NormalOutput, AreGoodIds, AreNewPublishers, AreNewConsumers, AreRouteConsumers, HasFreshIds;
    DrainedLaw(c, order, newId);
    var d := Drained(c, order, newId);
    WithIdsLaw(d, newId);
    AddedPublishers(c.publishers, d.publishers, WithIds(d, newId).publishers);
    if AreGoodIds(PublisherIds(c.publishers)) {
      NewIdsAreGood(c.publishers, d.publishers);
    }
  }

  lemma AddedPublishers(was: seq<Publisher>, more: seq<Publisher>, ps: seq<Publisher>)
    requires was <= more && AreNewPublishers(more, |was|)
    requires |ps| == |more| && forall i :: 0 <= i < |ps| ==> ps[i] == more[i].(id := ps[i].id)
    ensures forall i :: 0 <= i < |was| ==> ps[i] == was[i].(id := ps[i].id)
    ensures forall i, j :: |was| <= i < |ps| && 0 <= j < i ==> ps[j].name != ps[i].name && ps[j].endpoint != ps[i].endpoint
    ensures forall i :: |was| <= i < |ps| ==> ps[i] == Publisher(ps[i].id, ps[i].name, ps[i].endpoint, "", "", [], None)
  {
    hide IsClean;
    forall i, j | |was| <= i < |ps| && 0 <= j < i ensures ps[j].name != ps[i].name && ps[j].endpoint != ps[i].endpoint {
      assert IsFirstOfItsKind(more, i);
    }
  }

  lemma NewIdsAreGood(ps: seq<Publisher>, more: seq<Publisher>)
    requires ps <= more && AreNewPublishers(more, |ps|) && AreGoodIds(PublisherIds(ps))
    ensures AreGoodIds(PublisherIds(more))
  {
    hide Trimmed;
    var ids := PublisherIds(more);
    forall i | 0 <= i < |ids| ensures !IsBlank(ids[i]) {
      if i < |ps| {
        assert ids[i] == PublisherIds(ps)[i];
      } else {
        assert IsClean(more[i].id);
      }
    }
    forall i, j | 0 <= i < j < |ids| ensures ids[i] != ids[j] {
      if j < |ps| {
        assert ids[i] == PublisherIds(ps)[i] && ids[j] == PublisherIds(ps)[j];
      } else {
        assert IsFirstOfItsKind(more, j);
      }
    }
  }
}
