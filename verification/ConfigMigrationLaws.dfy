/** What the migration of legacy routes keeps: ids, names, consumers and where each delivers. */
module ConfigMigrationLaws {
  import opened Options
  import opened Text
  import opened UniqueNames
  import opened ConfigMigration

  predicate IsBlankChar(c: char) {
    IsBlankIn(c, WhiteSpace)
  }

  // ------------------------------------------------------------------ generated ids

  predicate IsClean(s: string) {
    s != "" && Trimmed(s) == s
  }

  /** A source of ids: no id comes twice, and none is blank or has blanks around it. */
  ghost predicate IsIdSource(newId: nat -> string) {
    && (forall j: nat, k: nat :: j != k ==> newId(j) != newId(k))
    && (forall k: nat :: IsClean(newId(k)))
  }

  /** The ids still to come are not in use. */
  ghost predicate Unused(ids: seq<string>, next: nat, newId: nat -> string) {
    forall k: nat :: k >= next ==> newId(k) !in ids
  }

  ghost predicate HasFreshIds(c: Config, newId: nat -> string) {
    && IsIdSource(newId)
    && Unused(PublisherIds(c.publishers), c.nextId, newId)
    && Unused(ConsumerIds(c.consumers), c.nextId, newId)
  }

  predicate IsBlank(s: string) {
    Trimmed(s) == ""
  }

  lemma TrimmedLaw(s: string, core: string)
    ensures Trimmed(s) == core <==> IsCore(core, s, WhiteSpace)
  {
    TrimIsCore(s, core, WhiteSpace);
  }

  lemma BlankLaw(s: string)
    ensures IsBlank(s) <==> AreBlankIn(s, WhiteSpace)
  {
    TrimIsCore(s, "", WhiteSpace);
    if AreBlankIn(s, WhiteSpace) {
      assert s == s + "" + "" && AreBlankIn("", WhiteSpace);
    }
  }

  /** Distinct and non-blank. */
  ghost predicate AreGoodIds(ids: seq<string>) {
    && (forall i :: 0 <= i < |ids| ==> !IsBlank(ids[i]))
    && (forall i, j :: 0 <= i < j < |ids| ==> ids[i] != ids[j])
  }

  /** Neither blank nor a repetition. */
  predicate KeepsId(ids: seq<string>, i: nat)
    requires i < |ids|
  {
    !IsBlank(ids[i]) && ids[i] !in ids[..i]
  }

  ghost predicate AllUnknown(ids: seq<string>, known: set<string>) {
    forall i :: 0 <= i < |ids| ==> ids[i] !in known
  }

  /** Completed ids are good; good ids are left alone; an id is replaced only if blank or a repetition. */
  lemma {:induction false} EnsuredIdsLaw(ids: seq<string>, known: set<string>, next: nat, newId: nat -> string)
    requires IsIdSource(newId) && Unused(ids, next, newId)
    requires forall k: nat :: k >= next ==> newId(k) !in known
    ensures var r := EnsuredIds(ids, known, next, newId);
            && AreGoodIds(r.0) && AllUnknown(r.0, known) && r.1 >= next && Unused(r.0, r.1, newId)
            && (AreGoodIds(ids) && AllUnknown(ids, known) ==> r == (ids, next))
            && (forall i :: 0 <= i < |ids| ==>
                  (r.0[i] == ids[i] <==> KeepsId(ids, i) && ids[i] !in known))
    decreases |ids|
  {
    hide Trimmed, EnsuredIds;
    if ids == [] {
      EnsuredNone(known, next, newId);
    } else {
      var first, rest := EnsuredId(ids[0], known, next, newId), ids[1..];
      var known' := known + {first.0};
      EnsuredFirst(ids, known, next, newId);
      var r' := EnsuredIds(rest, known', first.1, newId);
      assert IsClean(newId(next));
      EnsuredIdsLaw(rest, known', first.1, newId);
      var r := EnsuredIds(ids, known, next, newId);
      assert r == ([first.0] + r'.0, r'.1);
      forall i | 0 <= i < |ids|
        ensures r.0[i] == ids[i] <==> KeepsId(ids, i) && ids[i] !in known
      {
        if i > 0 {
          assert r.0[i] == r'.0[i - 1] && ids[i] == rest[i - 1];
          assert ids[..i] == [ids[0]] + rest[..i - 1];
        }
      }
      if AreGoodIds(ids) && AllUnknown(ids, known) {
        assert ids == [ids[0]] + rest;
        assert AllUnknown(rest, known');
      }
    }
  }

  lemma EnsuredNone(known: set<string>, next: nat, newId: nat -> string)
    ensures EnsuredIds([], known, next, newId) == ([], next)
  {
  }

  lemma EnsuredFirst(ids: seq<string>, known: set<string>, next: nat, newId: nat -> string)
    requires ids != []
    ensures var first := EnsuredId(ids[0], known, next, newId);
            var rest := EnsuredIds(ids[1..], known + {first.0}, first.1, newId);
            EnsuredIds(ids, known, next, newId) == ([first.0] + rest.0, rest.1)
  {
  }

  // ------------------------------------------------------------------ the drained routes

  ghost predicate IsFirstOfItsKind(ps: seq<Publisher>, i: nat)
    requires i < |ps|
  {
    forall j :: 0 <= j < i ==> ps[j].id != ps[i].id && ps[j].name != ps[i].name && ps[j].endpoint != ps[i].endpoint
  }

  /** Publishers from index `n` on are new: clean, with new ids and names, for endpoints not met before. */
  ghost predicate AreNewPublishers(ps: seq<Publisher>, n: nat) {
    forall i :: n <= i < |ps| ==>
      && IsClean(ps[i].id) && IsClean(ps[i].name) && IsFirstOfItsKind(ps, i)
      && ps[i].comment == "" && ps[i].payload == "" && ps[i].headers == [] && ps[i].sortOrder == None
  }

  ghost predicate AreNewConsumers(cs: seq<Consumer>, n: nat) {
    forall i, j :: n <= i < |cs| && 0 <= j < i ==> cs[j].name != cs[i].name
  }

  /** What a consumer fed by this route output delivers to, given the publishers. */
  function OutputFor(ps: seq<Publisher>, endpoint: Endpoint): Output {
    if endpoint.IsNull() then NoOutput
    else
      var i := FindEndpoint(ps, endpoint);
      if i < |ps| then Reference(ps[i]) else NoOutput
  }

  ghost predicate IsPublished(ps: seq<Publisher>, endpoint: Endpoint) {
    endpoint.IsNull() || FindEndpoint(ps, endpoint) < |ps|
  }

  /** `t` is the consumer that the route `name` becomes. */
  ghost predicate IsRouteConsumer(t: Consumer, name: string, route: Route, ps: seq<Publisher>) {
    && t.endpoint == route.input && t.options == route.options && t.enabled == route.enabled
    && t.response == None && t.comment == "" && t.capture == Capture(false, 100)
    && (exists n: nat :: t.name == Candidate(Trimmed(name), n))
    && IsPublished(ps, route.output) && t.output == OutputFor(ps, route.output)
  }

  lemma FindIsStable(ps: seq<Publisher>, more: seq<Publisher>, endpoint: Endpoint)
    requires FindEndpoint(ps, endpoint) < |ps|
    ensures FindEndpoint(ps + more, endpoint) == FindEndpoint(ps, endpoint)
  {
    var all := ps + more;
    var i := FindEndpoint(ps, endpoint);
    var k := FindEndpoint(all, endpoint);
    assert forall j :: 0 <= j < |ps| ==> all[j] == ps[j];
    assert all[i].endpoint == endpoint;
  }

  lemma CandidateIsClean(base: string, n: nat)
    requires IsClean(base)
    ensures IsClean(Candidate(base, n))
  {
    if n > 0 {
      DecimalIsUnspaced(n);
      EndsAreClean(Candidate(base, n));
    }
  }

  lemma {:induction false} DecimalIsUnspaced(n: nat)
    ensures !IsBlankChar(Decimal(n)[|Decimal(n)| - 1])
  {
    assert forall d: nat :: d < 10 ==> 48 <= Digit(d) as int <= 57;
  }

  /** A string with no blank at either end is clean, and the other way round. */
  lemma EndsAreClean(s: string)
    requires s != ""
    ensures IsClean(s) <==> !IsBlankChar(s[0]) && !IsBlankChar(s[|s| - 1])
  {
    var start := TrimStart(s, WhiteSpace);
    if IsClean(s) {
      assert |start| <= |s| && |Trimmed(s)| <= |start|;
      assert start == s;
    }
  }

  lemma TrimmedStart(s: string)
    ensures Trimmed(s) != "" ==> !IsBlankChar(Trimmed(s)[0])
  {
  }

  lemma PublisherNameIsClean(routeName: string)
    ensures IsClean(Trimmed(routeName) + "_publisher")
  {
    hide Trimmed;
    var name := Trimmed(routeName);
    var suffix := "_publisher";
    TrimmedStart(routeName);
    EndsAreClean(name + suffix);
    assert suffix[0] == '_' && suffix[9] == 'r' && |suffix| == 10;
    assert (name + suffix)[|name| + 9] == suffix[9];
    assert (name + suffix)[0] == if name == "" then suffix[0] else name[0];
  }

  /** A publisher is there for the endpoint; one is added only if there was none. */
  lemma WithPublisherLaw(c: Config, routeName: string, endpoint: Endpoint, n: nat, newId: nat -> string)
    requires n <= |c.publishers| && AreNewPublishers(c.publishers, n) && HasFreshIds(c, newId)
    ensures var d := WithPublisher(c, Trimmed(routeName), endpoint, newId);
            && c.publishers <= d.publishers && AreNewPublishers(d.publishers, n) && HasFreshIds(d, newId)
            && d == c.(publishers := d.publishers, nextId := d.nextId)
            && FindEndpoint(d.publishers, endpoint) < |d.publishers|
  {
    hide Trimmed, FirstFree, FindEndpoint;
    var ps := c.publishers;
    var name := Trimmed(routeName);
    var d := WithPublisher(c, name, endpoint, newId);
    if FindEndpoint(ps, endpoint) == |ps| {
      var unique := FirstFree(name + "_publisher", PublisherNames(ps), 0);
      var id := newId(c.nextId);
      var p := NewPublisher(id, unique, endpoint);
      assert d.publishers == ps + [p] by { FindAppended(ps, p); }
      var index := FirstFreeLaw(name + "_publisher", PublisherNames(ps), 0);
      PublisherNameIsClean(routeName);
      CandidateIsClean(name + "_publisher", index);
      forall j | 0 <= j < |ps| ensures ps[j].name != unique && ps[j].id != id {
        assert ps[j].name in PublisherNames(ps) && PublisherIds(ps)[j] in PublisherIds(ps);
      }
      forall i | n <= i < |d.publishers|
        ensures IsClean(d.publishers[i].id) && IsClean(d.publishers[i].name) && IsFirstOfItsKind(d.publishers, i)
      {
        if i < |ps| {
          assert IsFirstOfItsKind(ps, i);
          assert d.publishers[i] == ps[i];
        }
      }
      forall k: nat | k >= d.nextId ensures newId(k) !in PublisherIds(d.publishers) {
        assert newId(k) !in PublisherIds(ps);
        assert PublisherIds(d.publishers) == PublisherIds(ps) + [id];
      }
    }
  }

  /** One drained route adds one consumer, and a publisher if its output has none yet. */
  lemma WithRouteLaw(c: Config, name: string, route: Route, n: nat, m: nat, newId: nat -> string)
    requires n <= |c.publishers| && AreNewPublishers(c.publishers, n) && HasFreshIds(c, newId)
    requires m <= |c.consumers| && AreNewConsumers(c.consumers, m)
    ensures var d := WithRoute(c, name, route, newId);
            && c.publishers <= d.publishers && AreNewPublishers(d.publishers, n) && HasFreshIds(d, newId)
            && |d.consumers| == |c.consumers| + 1 && c.consumers <= d.consumers && AreNewConsumers(d.consumers, m)
            && IsRouteConsumer(d.consumers[|c.consumers|], name, route, d.publishers)
            && d == c.(publishers := d.publishers, consumers := d.consumers, nextId := d.nextId)
  {
    hide Trimmed, FirstFree, FindEndpoint, WithPublisher, IsFirstOfItsKind;
    if !route.output.IsNull() {
      WithPublisherLaw(c, name, route.output, n, newId);
    }
    var e := if route.output.IsNull() then c else WithPublisher(c, Trimmed(name), route.output, newId);
    var d := WithRoute(c, name, route, newId);
    var cs := e.consumers;
    var t := d.consumers[|cs|];
    assert d.consumers == cs + [t] && d.publishers == e.publishers;
    var index := FirstFreeLaw(Trimmed(name), ConsumerNames(cs), 0);
    assert t.name == Candidate(Trimmed(name), index);
    forall j | 0 <= j < |cs| ensures cs[j].name != t.name {
      assert cs[j].name in ConsumerNames(cs);
    }
    forall k: nat | k >= d.nextId ensures newId(k) !in ConsumerIds(d.consumers) {
      assert newId(k) !in ConsumerIds(cs);
      assert ConsumerIds(d.consumers) == ConsumerIds(cs) + [newId(e.nextId)];
    }
  }

  ghost predicate AreRouteConsumers(d: Config, m: nat, routes: map<string, Route>, order: seq<string>)
    requires forall k :: 0 <= k < |order| ==> order[k] in routes
  {
    && |d.consumers| == m + |order|
    && forall k :: 0 <= k < |order| ==> IsRouteConsumer(d.consumers[m + k], order[k], routes[order[k]], d.publishers)
  }

  /** After any prefix of the drain: one consumer for each route so far, in order, and nothing lost. */
  lemma {:induction false} WithRoutesLaw(c: Config, routes: map<string, Route>, order: seq<string>, newId: nat -> string)
    requires HasFreshIds(c, newId)
    requires forall k :: 0 <= k < |order| ==> order[k] in routes
    ensures var d := WithRoutes(c, routes, order, newId);
            && c.publishers <= d.publishers && AreNewPublishers(d.publishers, |c.publishers|)
            && c.consumers <= d.consumers && AreNewConsumers(d.consumers, |c.consumers|)
            && HasFreshIds(d, newId) && AreRouteConsumers(d, |c.consumers|, routes, order)
            && d == c.(publishers := d.publishers, consumers := d.consumers, nextId := d.nextId)
  {
    hide WithRoute, HasFreshIds, IsRouteConsumer, IsFirstOfItsKind, FindEndpoint;
    if order != [] {
      var last := |order| - 1;
      WithRoutesLaw(c, routes, order[..last], newId);
      var e := WithRoutes(c, routes, order[..last], newId);
      var d := WithRoutes(c, routes, order, newId);
      WithRouteLaw(e, order[last], routes[order[last]], |c.publishers|, |c.consumers|, newId);
      forall k | 0 <= k < |order|
        ensures IsRouteConsumer(d.consumers[|c.consumers| + k], order[k], routes[order[k]], d.publishers)
      {
        if k < last {
          var t := e.consumers[|c.consumers| + k];
          assert d.consumers[|c.consumers| + k] == t;
          assert order[..last][k] == order[k];
          RouteConsumerStays(t, order[k], routes[order[k]], e.publishers, d.publishers);
        }
      }
    }
  }

  lemma OutputIsStable(ps: seq<Publisher>, more: seq<Publisher>, endpoint: Endpoint)
    requires IsPublished(ps, endpoint) && ps <= more
    ensures IsPublished(more, endpoint) && OutputFor(more, endpoint) == OutputFor(ps, endpoint)
  {
    hide FindEndpoint;
    if !endpoint.IsNull() {
      var rest := more[|ps|..];
      assert more == ps + rest;
      FindIsStable(ps, rest, endpoint);
    }
  }

  lemma RouteConsumerStays(t: Consumer, name: string, route: Route, ps: seq<Publisher>, more: seq<Publisher>)
    requires IsRouteConsumer(t, name, route, ps) && ps <= more
    ensures IsRouteConsumer(t, name, route, more)
  {
    hide Trimmed, OutputFor, IsPublished, Candidate;
    OutputIsStable(ps, more, route.output);
  }

  // ------------------------------------------------------------------ ids and outputs, completed

  lemma WithIdsLaw(c: Config, newId: nat -> string)
    requires HasFreshIds(c, newId)
    ensures var d := WithIds(c, newId);
            && AreGoodIds(PublisherIds(d.publishers)) && AreGoodIds(ConsumerIds(d.consumers))
            && |d.publishers| == |c.publishers| && |d.consumers| == |c.consumers| && HasFreshIds(d, newId)
            && d == c.(publishers := d.publishers, consumers := d.consumers, nextId := d.nextId)
            && (forall i :: 0 <= i < |c.publishers| ==> d.publishers[i] == c.publishers[i].(id := d.publishers[i].id))
            && (forall i :: 0 <= i < |c.consumers| ==> d.consumers[i] == c.consumers[i].(id := d.consumers[i].id))
            && (forall i :: 0 <= i < |c.consumers| ==>
                  (d.consumers[i].id == c.consumers[i].id <==> KeepsId(ConsumerIds(c.consumers), i)))
            && (AreGoodIds(PublisherIds(c.publishers)) ==> d.publishers == c.publishers)
            && (AreGoodIds(PublisherIds(c.publishers)) && AreGoodIds(ConsumerIds(c.consumers)) ==> d == c)
  {
    hide EnsuredIds, Trimmed, IsIdSource;
    var ids := PublisherIds(c.publishers);
    var p := EnsuredIds(ids, {}, c.nextId, newId);
    EnsuredIdsLaw(ids, {}, c.nextId, newId);
    var ids' := ConsumerIds(c.consumers);
    EnsuredIdsLaw(ids', {}, p.1, newId);
    var q := EnsuredIds(ids', {}, p.1, newId);
    var d := WithIds(c, newId);
    assert PublisherIds(d.publishers) == p.0 && ConsumerIds(d.consumers) == q.0;
    assert AllUnknown(ids, {}) && AllUnknown(ids', {});
    assert p.0 == ids ==> d.publishers == c.publishers;
    assert q.0 == ids' ==> d.consumers == c.consumers;
  }

  lemma {:induction false} NamesByIdLaw(ps: seq<Publisher>, id: string)
    requires AreGoodIds(PublisherIds(ps))
    ensures id in NamesById(ps) <==> id in PublisherIds(ps)
    ensures forall i :: 0 <= i < |ps| && ps[i].id == id ==> id in NamesById(ps) && NamesById(ps)[id] == ps[i].name
  {
    hide Trimmed;
    if ps != [] {
      var n := |ps| - 1;
      var front := ps[..n];
      assert PublisherIds(ps) == PublisherIds(front) + [ps[n].id];
      NamesByIdLaw(front, id);
      forall i | 0 <= i < |ps| && ps[i].id == id
        ensures id in NamesById(ps) && NamesById(ps)[id] == ps[i].name
      {
        if i < n {
          assert PublisherIds(ps)[i] == id && PublisherIds(ps)[n] == ps[n].id;
          assert front[i] == ps[i];
        }
      }
    }
  }

  lemma {:induction false} IdsByNameLaw(ps: seq<Publisher>, name: string)
    ensures name in IdsByName(ps) <==> name in PublisherNames(ps)
    ensures name in IdsByName(ps) ==> exists i :: 0 <= i < |ps| && ps[i].name == name && ps[i].id == IdsByName(ps)[name]
  {
    if ps != [] {
      var n := |ps| - 1;
      var front := ps[..n];
      IdsByNameLaw(front, name);
      NamesGrow(front, ps[n]);
      assert ps == front + [ps[n]];
      if name in IdsByName(ps) {
        if name == ps[n].name {
          assert ps[n].id == IdsByName(ps)[name];
        } else {
          var i :| 0 <= i < n && front[i].name == name && front[i].id == IdsByName(front)[name];
          assert ps[i] == front[i];
        }
      }
    }
  }

  /** An output names a publisher by its id and its name, or by a trimmed name no publisher has. */
  ghost predicate IsConsistent(o: Output, ps: seq<Publisher>) {
    o.ToPublisher? ==>
      match o.publisherId
      case Some(id) => exists i :: 0 <= i < |ps| && ps[i].id == id && ps[i].name == o.publisher
      case None => Trimmed(o.publisher) == o.publisher && o.publisher !in PublisherNames(ps)
  }

  function NormalFor(o: Output, ps: seq<Publisher>): Output {
    NormalOutput(o, NamesById(ps), IdsByName(ps))
  }

  lemma NormalOutputIsConsistent(o: Output, ps: seq<Publisher>)
    requires AreGoodIds(PublisherIds(ps))
    ensures IsConsistent(NormalFor(o, ps), ps)
  {
    hide Trimmed, NamesById, IdsByName;
    if o.ToPublisher? {
      IdsByNameLaw(ps, Trimmed(o.publisher));
      TrimIsIdempotent(o.publisher, WhiteSpace);
      assert Trimmed(Trimmed(o.publisher)) == Trimmed(o.publisher) by { TrimTwice(o.publisher); }
      if o.publisherId.Some? {
        var id := o.publisherId.value;
        NamesByIdLaw(ps, id);
        if id in NamesById(ps) {
          var i :| 0 <= i < |ps| && PublisherIds(ps)[i] == id;
          assert ps[i].id == id && ps[i].name == NamesById(ps)[id];
        }
      }
    }
  }

  lemma TrimTwice(s: string)
    ensures Trimmed(Trimmed(s)) == Trimmed(s)
  {
    TrimIsIdempotent(s, WhiteSpace);
  }

  /** Consistent outputs are left alone. */
  lemma ConsistentIsNormal(o: Output, ps: seq<Publisher>)
    requires AreGoodIds(PublisherIds(ps)) && IsConsistent(o, ps)
    ensures NormalFor(o, ps) == o
  {
    hide Trimmed, NamesById, IdsByName;
    if o.ToPublisher? {
      IdsByNameLaw(ps, o.publisher);
      if o.publisherId.Some? {
        NamesByIdLaw(ps, o.publisherId.value);
      }
    }
  }

  // ------------------------------------------------------------------ the whole migration

  /** The configuration the drain starts from. */
  function Prepared(c: Config): Config {
    var tab := if Trimmed(c.defaultTab) == "routes" then "consumers" else c.defaultTab;
    WithMode(c).(consumers := WithResponses(c.consumers), defaultTab := tab, routes := map[])
  }

  lemma DrainedLaw(c: Config, order: seq<string>, newId: nat -> string)
    requires IsDrainOrder(order, c.routes) && HasFreshIds(c, newId)
    ensures var d := Drained(c, order, newId);
            && d == WithRoutes(Prepared(c), c.routes, order, newId)
            && d == Prepared(c).(publishers := d.publishers, consumers := d.consumers, nextId := d.nextId)
            && c.publishers <= d.publishers && AreNewPublishers(d.publishers, |c.publishers|)
            && WithResponses(c.consumers) <= d.consumers && AreNewConsumers(d.consumers, |c.consumers|)
            && HasFreshIds(d, newId) && AreRouteConsumers(d, |c.consumers|, c.routes, order)
  {
    hide Trimmed, WithRoutes, AreNewPublishers, AreRouteConsumers, IsIdSource;
    assert ConsumerIds(WithResponses(c.consumers)) == ConsumerIds(c.consumers);
    WithRoutesLaw(Prepared(c), c.routes, order, newId);
  }

  /**
   Whatever the configuration, the migrated one has no routes, its ids are distinct and not blank,
   every consumer names its publisher consistently, and the security mode has moved to its new place.
   */
  lemma MigratedIsClean(c: Config, order: seq<string>, newId: nat -> string)
    requires IsDrainOrder(order, c.routes) && HasFreshIds(c, newId)
    ensures var m := Migrated(c, order, newId);
            && m.routes == map[]
            && AreGoodIds(PublisherIds(m.publishers)) && AreGoodIds(ConsumerIds(m.consumers))
            && (forall i :: 0 <= i < |m.consumers| ==> IsConsistent(m.consumers[i].output, m.publishers))
            && !m.extractSecrets && (c.security.Some? ==> m.security == c.security)
            && (c.security.None? ==> m.security == Some(if c.extractSecrets then Balanced else Unencrypted))
            && Trimmed(m.defaultTab) != "routes"
            && (Trimmed(c.defaultTab) != "routes" ==> m.defaultTab == c.defaultTab)
            && (Trimmed(c.defaultTab) == "routes" ==> m.defaultTab == "consumers")
  {
    hide Trimmed, WithIds, NamesById, IdsByName, NormalOutput, AreGoodIds, AreNewPublishers, AreRouteConsumers, WithRoutes;
    DrainedLaw(c, order, newId);
    var d := Drained(c, order, newId);
    var e := WithIds(d, newId);
    var m := Migrated(c, order, newId);
    WithIdsLaw(d, newId);
    assert ConsumerIds(m.consumers) == ConsumerIds(e.consumers);
    forall i | 0 <= i < |m.consumers| ensures IsConsistent(m.consumers[i].output, m.publishers) {
      NormalOutputIsConsistent(e.consumers[i].output, e.publishers);
    }
    TabIsTrimmed();
  }

  lemma TabIsTrimmed()
    ensures Trimmed("consumers") == "consumers"
  {
    EndsAreClean("consumers");
  }

  /** No consumer keeps a response that should be its output. */
  ghost predicate AreSettled(cs: seq<Consumer>) {
    forall i :: 0 <= i < |cs| ==> WithResponse(cs[i]) == cs[i]
  }

  lemma RouteConsumerIsSettled(t: Consumer, name: string, route: Route, ps: seq<Publisher>)
    requires IsRouteConsumer(t, name, route, ps)
    ensures WithResponse(t) == t
  {
    hide Trimmed, OutputFor, IsPublished, Candidate;
  }

  lemma SettledStays(t: Consumer, id: string, names: map<string, string>, ids: map<string, string>)
    requires WithResponse(t) == t
    ensures var u := t.(id := id); var v := u.(output := NormalOutput(u.output, names, ids)); WithResponse(v) == v
  {
    hide Trimmed;
  }

  lemma DrainedIsSettled(c: Config, order: seq<string>, newId: nat -> string)
    requires IsDrainOrder(order, c.routes) && HasFreshIds(c, newId)
    ensures AreSettled(Drained(c, order, newId).consumers)
  {
    hide Drained, Trimmed, AreNewPublishers, AreNewConsumers, WithRoutes, HasFreshIds, IsRouteConsumer;
    DrainedLaw(c, order, newId);
    var d := Drained(c, order, newId);
    var n := |c.consumers|;
    forall i | 0 <= i < |d.consumers| ensures WithResponse(d.consumers[i]) == d.consumers[i] {
      if i < n {
        assert d.consumers[i] == WithResponse(c.consumers[i]);
      } else {
        var k := i - n;
        assert i == n + k;
        assert IsRouteConsumer(d.consumers[n + k], order[k], c.routes[order[k]], d.publishers);
        RouteConsumerIsSettled(d.consumers[n + k], order[k], c.routes[order[k]], d.publishers);
      }
    }
  }

  lemma MigratedIsSettled(c: Config, order: seq<string>, newId: nat -> string)
    requires IsDrainOrder(order, c.routes) && HasFreshIds(c, newId)
    ensures AreSettled(Migrated(c, order, newId).consumers)
  {
    hide Drained, WithIds, NamesById, IdsByName, NormalOutput, AreGoodIds, WithResponse, AreRouteConsumers, IsIdSource;
    DrainedLaw(c, order, newId);
    DrainedIsSettled(c, order, newId);
    var d := Drained(c, order, newId);
    var e := WithIds(d, newId);
    var m := Normalized(e);
    WithIdsLaw(d, newId);
    var names, ids := NamesById(e.publishers), IdsByName(e.publishers);
    forall i | 0 <= i < |m.consumers| ensures WithResponse(m.consumers[i]) == m.consumers[i] {
      assert e.consumers[i] == d.consumers[i].(id := e.consumers[i].id);
      assert m.consumers[i] == e.consumers[i].(output := NormalOutput(e.consumers[i].output, names, ids));
      SettledStays(d.consumers[i], e.consumers[i].id, names, ids);
    }
  }

  /** Migrating a migrated configuration changes nothing. */
  lemma MigrationIsIdempotent(c: Config, order: seq<string>, newId: nat -> string)
    requires IsDrainOrder(order, c.routes) && HasFreshIds(c, newId)
    ensures var m := Migrated(c, order, newId);
            IsDrainOrder([], m.routes) && Migrated(m, [], newId) == m
  {
    var m := Migrated(c, order, newId);
    MigratedIsClean(c, order, newId);
    MigratedIsSettled(c, order, newId);
    MigratedHasFreshIds(c, order, newId);
    CleanIsMigrated(m, newId);
  }

  lemma MigratedHasFreshIds(c: Config, order: seq<string>, newId: nat -> string)
    requires IsDrainOrder(order, c.routes) && HasFreshIds(c, newId)
    ensures HasFreshIds(Migrated(c, order, newId), newId)
  {
    hide Drained, WithIds, NormalOutput, IsIdSource, AreNewPublishers, AreNewConsumers, AreRouteConsumers, WithRoutes, AreGoodIds;
    DrainedLaw(c, order, newId);
    var e := WithIds(Drained(c, order, newId), newId);
    WithIdsLaw(Drained(c, order, newId), newId);
    assert ConsumerIds(Normalized(e).consumers) == ConsumerIds(e.consumers);
  }

  lemma CleanIsMigrated(m: Config, newId: nat -> string)
    requires HasFreshIds(m, newId) && m.routes == map[] && AreSettled(m.consumers)
    requires AreGoodIds(PublisherIds(m.publishers)) && AreGoodIds(ConsumerIds(m.consumers))
    requires forall i :: 0 <= i < |m.consumers| ==> IsConsistent(m.consumers[i].output, m.publishers)
    requires m.security.Some? && !m.extractSecrets && Trimmed(m.defaultTab) != "routes"
    ensures Migrated(m, [], newId) == m
  {
    hide Trimmed, WithIds, NamesById, IdsByName, NormalOutput, AreGoodIds, IsConsistent;
    assert WithResponses(m.consumers) == m.consumers;
    WithIdsLaw(m, newId);
    forall i | 0 <= i < |m.consumers|
      ensures NormalOutput(m.consumers[i].output, NamesById(m.publishers), IdsByName(m.publishers)) == m.consumers[i].output
    {
      ConsistentIsNormal(m.consumers[i].output, m.publishers);
    }
    assert WithNormalOutputs(m.consumers, m.publishers) == m.consumers;
  }
}
