/** The application configuration and its migration from legacy routes, updated in place. */
module ConfigMigration {
  import opened Options
  import opened Text
  import opened UniqueNames

  // ------------------------------------------------------------------ configuration values

  /** An endpoint, known by its serialized form: the kind and the settings of that kind. */
  datatype Endpoint = Endpoint(kind: string, settings: string) {
    predicate IsNull() {
      kind == "null"
    }
  }

  datatype Response = Response(headers: map<string, string>, payload: string)

  datatype Output =
    | NoOutput
    | ToPublisher(publisher: string, publisherId: Option<string>)
    | Respond(response: Option<Response>)

  datatype Capture = Capture(enabled: bool, keepLast: nat)

  datatype RouteOptions = RouteOptions(settings: string)

  datatype Consumer = Consumer(
    id: string, name: string, enabled: bool, endpoint: Endpoint, comment: string,
    response: Option<Response>, output: Output, capture: Capture, options: RouteOptions)

  datatype Header = Header(key: string, value: string, enabled: bool)

  datatype Publisher = Publisher(
    id: string, name: string, endpoint: Endpoint, comment: string, payload: string,
    headers: seq<Header>, sortOrder: Option<int>)

  datatype Route = Route(enabled: bool, input: Endpoint, output: Endpoint, options: RouteOptions)

  datatype SecurityMode = Unencrypted | Balanced | EnvTemporaryMessages | TemporaryMessages | Sensitive | Durable

  /** The fields the migration touches. `nextId` says how many ids have been generated so far. */
  datatype Config = Config(
    routes: map<string, Route>, consumers: seq<Consumer>, publishers: seq<Publisher>,
    defaultTab: string, security: Option<SecurityMode>, extractSecrets: bool, nextId: nat)

  /** `str::trim` */
  function Trimmed(s: string): string {
    Trim(s, WhiteSpace)
  }

  function PublisherIds(ps: seq<Publisher>): (ids: seq<string>)
    ensures |ids| == |ps| && forall i :: 0 <= i < |ps| ==> ids[i] == ps[i].id
  {
    seq(|ps|, i requires 0 <= i < |ps| => ps[i].id)
  }

  function ConsumerIds(cs: seq<Consumer>): (ids: seq<string>)
    ensures |ids| == |cs| && forall i :: 0 <= i < |cs| ==> ids[i] == cs[i].id
  {
    seq(|cs|, i requires 0 <= i < |cs| => cs[i].id)
  }

  function PublisherNames(ps: seq<Publisher>): set<string> {
    set i | 0 <= i < |ps| :: ps[i].name
  }

  function ConsumerNames(cs: seq<Consumer>): set<string> {
    set i | 0 <= i < |cs| :: cs[i].name
  }

  // ------------------------------------------------------------------ what each step computes

  function Mode(c: Config): SecurityMode {
    if c.security.Some? then c.security.value
    else if c.extractSecrets then Balanced
    else Unencrypted
  }

  function WithMode(c: Config): Config {
    c.(security := Some(Mode(c)), extractSecrets := false)
  }

  function WithResponse(c: Consumer): Consumer {
    if c.output == NoOutput && c.response.Some? then c.(output := Respond(c.response), response := None) else c
  }

  function WithResponses(cs: seq<Consumer>): (r: seq<Consumer>)
    ensures |r| == |cs| && forall i :: 0 <= i < |cs| ==> r[i] == WithResponse(cs[i])
  {
    seq(|cs|, i requires 0 <= i < |cs| => WithResponse(cs[i]))
  }

  /** The id in place of `id`, and how many have been generated then. */
  function EnsuredId(id: string, known: set<string>, next: nat, newId: nat -> string): (string, nat) {
    if Trimmed(id) == "" || id in known then (newId(next), next + 1) else (id, next)
  }

  /** Where ids are blank or already known, new ones take their place; `next` were generated before. */
  function EnsuredIds(ids: seq<string>, known: set<string>, next: nat, newId: nat -> string): (r: (seq<string>, nat))
    ensures |r.0| == |ids|
  {
    if ids == [] then ([], next)
    else
      var first := EnsuredId(ids[0], known, next, newId);
      var rest := EnsuredIds(ids[1..], known + {first.0}, first.1, newId);
      ([first.0] + rest.0, rest.1)
  }

  /** `done` stands for the first ids; what is left completes them to the ids of the whole list. */
  ghost predicate Completed(ids: seq<string>, done: seq<string>, known: set<string>, first: nat, next: nat,
                            newId: nat -> string)
  {
    && |done| <= |ids|
    && var rest := EnsuredIds(ids[|done|..], known, next, newId);
       EnsuredIds(ids, {}, first, newId) == (done + rest.0, rest.1)
  }

  lemma CompletedStart(ids: seq<string>, next: nat, newId: nat -> string)
    ensures Completed(ids, [], {}, next, next, newId)
  {
    hide EnsuredIds;
    assert ids[0..] == ids;
    var rest := EnsuredIds(ids, {}, next, newId);
    assert [] + rest.0 == rest.0;
  }

  lemma CompletedStep(ids: seq<string>, done: seq<string>, known: set<string>, first: nat, next: nat,
                      newId: nat -> string)
    requires Completed(ids, done, known, first, next, newId) && |done| < |ids|
    ensures var e := EnsuredId(ids[|done|], known, next, newId);
            Completed(ids, done + [e.0], known + {e.0}, first, e.1, newId)
  {
    hide Trimmed;
    var e := EnsuredId(ids[|done|], known, next, newId);
    assert ids[|done|..][0] == ids[|done|] && ids[|done|..][1..] == ids[|done| + 1..];
    var rest := EnsuredIds(ids[|done| + 1..], known + {e.0}, e.1, newId);
    assert done + ([e.0] + rest.0) == (done + [e.0]) + rest.0;
  }

  lemma CompletedEnd(ids: seq<string>, done: seq<string>, known: set<string>, first: nat, next: nat,
                     newId: nat -> string)
    requires Completed(ids, done, known, first, next, newId) && |done| == |ids|
    ensures EnsuredIds(ids, {}, first, newId) == (done, next)
  {
    assert ids[|done|..] == [] && done + [] == done;
  }

  function WithPublisherIds(ps: seq<Publisher>, ids: seq<string>): (r: seq<Publisher>)
    requires |ids| == |ps|
    ensures |r| == |ps| && forall i :: 0 <= i < |ps| ==> r[i] == ps[i].(id := ids[i])
  {
    seq(|ps|, i requires 0 <= i < |ps| => ps[i].(id := ids[i]))
  }

  function WithConsumerIds(cs: seq<Consumer>, ids: seq<string>): (r: seq<Consumer>)
    requires |ids| == |cs|
    ensures |r| == |cs| && forall i :: 0 <= i < |cs| ==> r[i] == cs[i].(id := ids[i])
  {
    seq(|cs|, i requires 0 <= i < |cs| => cs[i].(id := ids[i]))
  }

  function WithIds(c: Config, newId: nat -> string): Config {
    var p := EnsuredIds(PublisherIds(c.publishers), {}, c.nextId, newId);
    var q := EnsuredIds(ConsumerIds(c.consumers), {}, p.1, newId);
    c.(publishers := WithPublisherIds(c.publishers, p.0), consumers := WithConsumerIds(c.consumers, q.0), nextId := q.1)
  }

  /** The name each id stands for; the last publisher with an id wins. */
  function NamesById(ps: seq<Publisher>): map<string, string> {
    if ps == [] then map[]
    else var last := ps[|ps| - 1]; NamesById(ps[..|ps| - 1])[last.id := last.name]
  }

  function IdsByName(ps: seq<Publisher>): map<string, string> {
    if ps == [] then map[]
    else var last := ps[|ps| - 1]; IdsByName(ps[..|ps| - 1])[last.name := last.id]
  }

  function NormalOutput(o: Output, names: map<string, string>, ids: map<string, string>): Output {
    if !o.ToPublisher? then o
    else if o.publisherId.Some? && o.publisherId.value in names then
      o.(publisher := names[o.publisherId.value])
    else
      var name := Trimmed(o.publisher);
      ToPublisher(name, if name in ids then Some(ids[name]) else None)
  }

  function WithNormalOutputs(cs: seq<Consumer>, ps: seq<Publisher>): (r: seq<Consumer>)
    ensures |r| == |cs|
    ensures forall i :: 0 <= i < |cs| ==> r[i] == cs[i].(output := NormalOutput(cs[i].output, NamesById(ps), IdsByName(ps)))
  {
    seq(|cs|, i requires 0 <= i < |cs| => cs[i].(output := NormalOutput(cs[i].output, NamesById(ps), IdsByName(ps))))
  }

  /** The first publisher with an endpoint. */
  function FindEndpoint(ps: seq<Publisher>, endpoint: Endpoint): (i: nat)
    ensures i <= |ps|
    ensures i < |ps| ==> ps[i].endpoint == endpoint
    ensures forall j :: 0 <= j < i ==> ps[j].endpoint != endpoint
  {
    if ps == [] || ps[0].endpoint == endpoint then 0 else
      var n := FindEndpoint(ps[1..], endpoint);
      assert forall j :: 1 <= j < n + 1 ==> ps[j] == ps[1..][j - 1];
      1 + n
  }

  function NewPublisher(id: string, name: string, endpoint: Endpoint): Publisher {
    Publisher(id, name, endpoint, "", "", [], None)
  }

  function NewConsumer(id: string, name: string, route: Route, output: Output): Consumer {
    Consumer(id, name, route.enabled, route.input, "", None, output, Capture(false, 100), route.options)
  }

  function Reference(p: Publisher): Output {
    ToPublisher(p.name, Some(p.id))
  }

  /** The configuration with a publisher for `endpoint`, new or not. */
  function WithPublisher(c: Config, name: string, endpoint: Endpoint, newId: nat -> string): (d: Config)
    ensures FindEndpoint(d.publishers, endpoint) < |d.publishers|
  {
    if FindEndpoint(c.publishers, endpoint) < |c.publishers| then c
    else
      var unique := FirstFree(name + "_publisher", PublisherNames(c.publishers), 0);
      var publisher := NewPublisher(newId(c.nextId), unique, endpoint);
      FindAppended(c.publishers, publisher);
      c.(publishers := c.publishers + [publisher], nextId := c.nextId + 1)
  }

  /** The consumer a route becomes, with the publisher for its output. */
  function WithRoute(c: Config, routeName: string, route: Route, newId: nat -> string): Config {
    var name := Trimmed(routeName);
    var d := if route.output.IsNull() then c else WithPublisher(c, name, route.output, newId);
    var output := if route.output.IsNull() then NoOutput else Reference(d.publishers[FindEndpoint(d.publishers, route.output)]);
    var unique := FirstFree(name, ConsumerNames(d.consumers), 0);
    d.(consumers := d.consumers + [NewConsumer(newId(d.nextId), unique, route, output)], nextId := d.nextId + 1)
  }

  /** The routes of `order`, migrated one after another. */
  function WithRoutes(c: Config, routes: map<string, Route>, order: seq<string>, newId: nat -> string): Config
    requires forall k :: 0 <= k < |order| ==> order[k] in routes
  {
    if order == [] then c
    else
      var n := |order| - 1;
      WithRoute(WithRoutes(c, routes, order[..n], newId), order[n], routes[order[n]], newId)
  }

  /** An order in which a hash map may hand out its entries. */
  predicate IsDrainOrder(order: seq<string>, routes: map<string, Route>) {
    && (forall k :: 0 <= k < |order| ==> order[k] in routes)
    && (forall name :: name in routes ==> name in order)
    && (forall j, k :: 0 <= j < k < |order| ==> order[j] != order[k])
  }

  /** Everything before the ids are completed. */
  function Drained(c: Config, order: seq<string>, newId: nat -> string): Config
    requires IsDrainOrder(order, c.routes)
  {
    var tab := if Trimmed(c.defaultTab) == "routes" then "consumers" else c.defaultTab;
    var d := WithMode(c).(consumers := WithResponses(c.consumers), defaultTab := tab, routes := map[]);
    WithRoutes(d, c.routes, order, newId)
  }

  function Normalized(c: Config): Config {
    c.(consumers := WithNormalOutputs(c.consumers, c.publishers))
  }

  /** The migrated configuration, when the routes come out in `order`. */
  function Migrated(c: Config, order: seq<string>, newId: nat -> string): Config
    requires IsDrainOrder(order, c.routes)
  {
    Normalized(WithIds(Drained(c, order, newId), newId))
  }

  /** `order` came out of the map `all` so far, and `rest` is still in it. */
  ghost predicate IsDrainedFrom(order: seq<string>, rest: map<string, Route>, all: map<string, Route>) {
    && (forall k :: 0 <= k < |order| ==> order[k] in all && order[k] !in rest)
    && (forall name :: name in all ==> name in order || name in rest)
    && (forall name :: name in rest ==> name in all && all[name] == rest[name])
    && (forall j, k :: 0 <= j < k < |order| ==> order[j] != order[k])
  }

  lemma DrainBegins(all: map<string, Route>)
    ensures IsDrainedFrom([], all, all)
  {
  }

  lemma DrainOne(order: seq<string>, rest: map<string, Route>, all: map<string, Route>, name: string)
    requires IsDrainedFrom(order, rest, all) && name in rest
    ensures IsDrainedFrom(order + [name], rest - {name}, all) && name in all && all[name] == rest[name]
  {
  }

  lemma DrainEnds(order: seq<string>, all: map<string, Route>)
    requires IsDrainedFrom(order, map[], all)
    ensures IsDrainOrder(order, all)
  {
  }

  // ------------------------------------------------------------------ the configuration object

  class AppConfig {
    var routes: map<string, Route>
    var consumers: seq<Consumer>
    var publishers: seq<Publisher>
    var defaultTab: string
    var security: Option<SecurityMode>
    var extractSecrets: bool
    var nextId: nat
    const newId: nat -> string

    constructor (c: Config, newId: nat -> string)
      ensures View() == c && this.newId == newId
    {
      routes, consumers, publishers, defaultTab := c.routes, c.consumers, c.publishers, c.defaultTab;
      security, extractSecrets, nextId := c.security, c.extractSecrets, c.nextId;
      this.newId := newId;
    }

    function View(): Config
      reads this
    {
      Config(routes, consumers, publishers, defaultTab, security, extractSecrets, nextId)
    }

    method GenerateId() returns (id: string)
      modifies this`nextId
      ensures id == newId(old(nextId)) && nextId == old(nextId) + 1
    {
      id := newId(nextId);
      nextId := nextId + 1;
    }

    method MigrateLegacySecurityMode()
      modifies this`security, this`extractSecrets
      ensures View() == WithMode(old(View()))
      ensures !extractSecrets && (old(security).Some? ==> security == old(security))
      ensures old(security).None? ==> security == Some(if old(extractSecrets) then Balanced else Unencrypted)
    {
      var mode := Mode(View());
      security := Some(mode);
      extractSecrets := false;
    }

    method MigrateLegacyConsumerResponse()
      modifies this`consumers
      ensures consumers == WithResponses(old(consumers))
    {
      for i := 0 to |consumers|
        invariant |consumers| == |old(consumers)|
        invariant forall j :: 0 <= j < i ==> consumers[j] == WithResponse(old(consumers)[j])
        invariant forall j :: i <= j < |consumers| ==> consumers[j] == old(consumers)[j]
      {
        var consumer := consumers[i];
        if consumer.output == NoOutput && consumer.response.Some? {
          consumers := consumers[i := consumer.(response := None, output := Respond(consumer.response))];
        }
      }
    }

    method EnsurePublisherIds()
      modifies this`publishers, this`nextId
      ensures var r := EnsuredIds(PublisherIds(old(publishers)), {}, old(nextId), newId);
              publishers == WithPublisherIds(old(publishers), r.0) && nextId == r.1
    {
      hide EnsuredIds, Trimmed;
      var known: set<string> := {};
      ghost var ids, done := PublisherIds(publishers), [];
      CompletedStart(ids, nextId, newId);
      for i := 0 to |publishers|
        invariant |publishers| == |old(publishers)| == |ids| && |done| == i
        invariant forall j :: 0 <= j < i ==> publishers[j] == old(publishers)[j].(id := done[j])
        invariant forall j :: i <= j < |publishers| ==> publishers[j] == old(publishers)[j]
        invariant Completed(ids, done, known, old(nextId), nextId, newId)
      {
        var publisher := publishers[i];
        CompletedStep(ids, done, known, old(nextId), nextId, newId);
        if Trimmed(publisher.id) == "" || publisher.id in known {
          var id := GenerateId();
          publishers := publishers[i := publisher.(id := id)];
        }
        known := known + {publishers[i].id};
        done := done + [publishers[i].id];
      }
      CompletedEnd(ids, done, known, old(nextId), nextId, newId);
    }

    method EnsureConsumerIds()
      modifies this`consumers, this`nextId
      ensures var r := EnsuredIds(ConsumerIds(old(consumers)), {}, old(nextId), newId);
              consumers == WithConsumerIds(old(consumers), r.0) && nextId == r.1
    {
      hide EnsuredIds, Trimmed;
      var known: set<string> := {};
      ghost var ids, done := ConsumerIds(consumers), [];
      CompletedStart(ids, nextId, newId);
      for i := 0 to |consumers|
        invariant |consumers| == |old(consumers)| == |ids| && |done| == i
        invariant forall j :: 0 <= j < i ==> consumers[j] == old(consumers)[j].(id := done[j])
        invariant forall j :: i <= j < |consumers| ==> consumers[j] == old(consumers)[j]
        invariant Completed(ids, done, known, old(nextId), nextId, newId)
      {
        var consumer := consumers[i];
        CompletedStep(ids, done, known, old(nextId), nextId, newId);
        if Trimmed(consumer.id) == "" || consumer.id in known {
          var id := GenerateId();
          consumers := consumers[i := consumer.(id := id)];
        }
        known := known + {consumers[i].id};
        done := done + [consumers[i].id];
      }
      CompletedEnd(ids, done, known, old(nextId), nextId, newId);
    }

    method EnsureEntityIds()
      modifies this`publishers, this`consumers, this`nextId
      ensures View() == WithIds(old(View()), newId)
    {
      EnsurePublisherIds();
      EnsureConsumerIds();
    }

    method NormalizeConsumerPublisherOutputs()
      modifies this`consumers
      ensures View() == Normalized(old(View()))
    {
      hide Trimmed;
      var names: map<string, string>, ids: map<string, string> := map[], map[];
      for i := 0 to |publishers|
        invariant names == NamesById(publishers[..i]) && ids == IdsByName(publishers[..i])
      {
        assert publishers[..i + 1][..i] == publishers[..i];
        names := names[publishers[i].id := publishers[i].name];
        ids := ids[publishers[i].name := publishers[i].id];
      }
      assert publishers[..|publishers|] == publishers;
      for i := 0 to |consumers|
        invariant |consumers| == |old(consumers)|
        invariant forall j :: 0 <= j < i ==>
                    consumers[j] == old(consumers)[j].(output := NormalOutput(old(consumers)[j].output, names, ids))
        invariant forall j :: i <= j < |consumers| ==> consumers[j] == old(consumers)[j]
      {
        var output := consumers[i].output;
        if output.ToPublisher? {
          var name := Trimmed(output.publisher);
          if output.publisherId.Some? && output.publisherId.value in names {
            output := output.(publisher := names[output.publisherId.value]);
          } else if name in ids {
            output := ToPublisher(name, Some(ids[name]));
          } else {
            output := ToPublisher(name, None);
          }
          consumers := consumers[i := consumers[i].(output := output)];
        }
      }
    }

    /** `publishers.iter().find(…)` by endpoint. */
    method FindPublisher(endpoint: Endpoint) returns (i: nat)
      ensures i == FindEndpoint(publishers, endpoint)
    {
      i := 0;
      while i < |publishers| && publishers[i].endpoint != endpoint
        invariant i <= |publishers|
        invariant FindEndpoint(publishers, endpoint) == i + FindEndpoint(publishers[i..], endpoint)
      {
        assert publishers[i..][1..] == publishers[i + 1..];
        i := i + 1;
      }
    }

    /** A reference to a publisher for `endpoint`; `names` is kept by the caller. */
    method EnsurePublisher(routeName: string, endpoint: Endpoint, names: set<string>)
      returns (output: Output, names': set<string>)
      requires names == PublisherNames(publishers)
      modifies this`publishers, this`nextId
      ensures View() == WithPublisher(old(View()), routeName, endpoint, newId)
      ensures names' == PublisherNames(publishers) && FindEndpoint(publishers, endpoint) < |publishers|
      ensures output == Reference(publishers[FindEndpoint(publishers, endpoint)])
    {
      hide FirstFree, FindEndpoint, PublisherNames;
      var i := FindPublisher(endpoint);
      if i < |publishers| {
        output := ToPublisher(publishers[i].name, Some(publishers[i].id));
        names' := names;
      } else {
        var name, _ := NextUniqueName(routeName + "_publisher", names);
        names' := names + {name};
        var id := GenerateId();
        var publisher := Publisher(id, name, endpoint, "", "", [], None);
        NamesGrow(publishers, publisher);
        FindAppended(publishers, publisher);
        publishers := publishers + [publisher];
        output := ToPublisher(name, Some(id));
      }
    }

    /** One step of the drain loop; `publisherNames` and `consumerNames` are kept by the loop. */
    method MigrateRoute(routeName: string, route: Route, publisherNames: set<string>, consumerNames: set<string>)
      returns (publisherNames': set<string>, consumerNames': set<string>)
      requires publisherNames == PublisherNames(publishers) && consumerNames == ConsumerNames(consumers)
      modifies this`publishers, this`consumers, this`nextId
      ensures View() == WithRoute(old(View()), routeName, route, newId)
      ensures publisherNames' == PublisherNames(publishers) && consumerNames' == ConsumerNames(consumers)
    {
      hide FirstFree, FindEndpoint, Trimmed, WithPublisher, PublisherNames, ConsumerNames;
      var normalName := Trimmed(routeName);
      var output := NoOutput;
      publisherNames' := publisherNames;
      if !route.output.IsNull() {
        output, publisherNames' := EnsurePublisher(normalName, route.output, publisherNames);
      }
      var consumerName, _ := NextUniqueName(normalName, consumerNames);
      consumerNames' := consumerNames + {consumerName};
      var id := GenerateId();
      var consumer := Consumer(id, consumerName, route.enabled, route.input, "", None, output, Capture(false, 100), route.options);
      ConsumerNamesGrow(consumers, consumer);
      consumers := consumers + [consumer];
    }

    /** The drain loop. Some order in which the routes come out is returned as `order`. */
    method DrainRoutes(all: map<string, Route>) returns (ghost order: seq<string>)
      modifies this`publishers, this`consumers, this`nextId
      ensures IsDrainOrder(order, all)
      ensures View() == WithRoutes(old(View()), all, order, newId)
    {
      hide WithRoute, PublisherNames, ConsumerNames, IsDrainedFrom, IsDrainOrder;
      order := [];
      DrainBegins(all);
      var publisherNames := PublisherNames(publishers);
      var consumerNames := ConsumerNames(consumers);
      var rest := all;
      while rest != map[]
        invariant publisherNames == PublisherNames(publishers) && consumerNames == ConsumerNames(consumers)
        invariant IsDrainedFrom(order, rest, all) && forall k :: 0 <= k < |order| ==> order[k] in all
        invariant View() == WithRoutes(old(View()), all, order, newId)
        decreases |rest|
      {
        var name :| name in rest;
        publisherNames, consumerNames := MigrateRoute(name, rest[name], publisherNames, consumerNames);
        DrainOne(order, rest, all, name);
        assert (order + [name])[..|order|] == order;
        order := order + [name];
        rest := rest - {name};
      }
      DrainEnds(order, all);
    }

    method MigrateLegacyRoutes() returns (ghost order: seq<string>)
      modifies this
      ensures IsDrainOrder(order, old(routes))
      ensures View() == Migrated(old(View()), order, newId)
    {
      hide Trimmed, WithRoutes, WithIds, Normalized;
      MigrateLegacySecurityMode();
      MigrateLegacyConsumerResponse();
      if Trimmed(defaultTab) == "routes" {
        defaultTab := "consumers";
      }
      if routes != map[] {
        var drained := routes;
        routes := map[];
        order := DrainRoutes(drained);
      } else {
        order := [];
        NoRoutes(View(), old(routes), newId);
      }
      EnsureEntityIds();
      NormalizeConsumerPublisherOutputs();
    }
  }

  lemma NoRoutes(c: Config, routes: map<string, Route>, newId: nat -> string)
    ensures WithRoutes(c, routes, [], newId) == c
  {
  }

  lemma NamesGrow(ps: seq<Publisher>, p: Publisher)
    ensures PublisherNames(ps + [p]) == PublisherNames(ps) + {p.name}
  {
    var all := ps + [p];
    assert all[|ps|] == p;
    forall i | 0 <= i < |ps| ensures ps[i].name in PublisherNames(all) {
      assert all[i] == ps[i];
    }
  }

  lemma ConsumerNamesGrow(cs: seq<Consumer>, c: Consumer)
    ensures ConsumerNames(cs + [c]) == ConsumerNames(cs) + {c.name}
  {
    var all := cs + [c];
    assert all[|cs|] == c;
    forall i | 0 <= i < |cs| ensures cs[i].name in ConsumerNames(all) {
      assert all[i] == cs[i];
    }
  }

  lemma FindAppended(ps: seq<Publisher>, p: Publisher)
    requires FindEndpoint(ps, p.endpoint) == |ps|
    ensures FindEndpoint(ps + [p], p.endpoint) == |ps|
  {
    var all := ps + [p];
    var i := FindEndpoint(all, p.endpoint);
    assert all[|ps|] == p;
    assert forall j :: 0 <= j < |ps| ==> all[j] == ps[j];
  }
}
