/** Whether a migrated route still delivers to its own output, whatever the ids of the publishers were. */
module RouteTargets {
  import opened Options
  import opened Text
  import opened UniqueNames
  import opened ConfigMigration
  import opened ConfigMigrationLaws
  import opened RouteDelivery

  // ------------------------------------------------------------------ publishers with completed ids

  function FirstWithId(ps: seq<Publisher>, id: string): (i: nat)
    ensures i <= |ps|
    ensures i < |ps| ==> ps[i].id == id
    ensures forall j :: 0 <= j < i ==> ps[j].id != id
  {
    if ps == [] || ps[0].id == id then 0 else
      var n := FirstWithId(ps[1..], id);
      assert forall j :: 1 <= j < n + 1 ==> ps[j] == ps[1..][j - 1];
      1 + n
  }

  /** The last publisher of a name, or the number of publishers if there is none. */
  function LastNamed(ps: seq<Publisher>, name: string): (i: nat)
    ensures i <= |ps|
  {
    if ps == [] then 0
    else
      var n := |ps| - 1;
      if ps[n].name == name then n
      else
        var i := LastNamed(ps[..n], name);
        if i < n then i else |ps|
  }

  lemma {:induction false} LastNamedLaw(ps: seq<Publisher>, name: string)
    ensures var i := LastNamed(ps, name);
            && (i < |ps| ==> ps[i].name == name)
            && (forall j :: 0 <= j < |ps| && ps[j].name == name ==> j <= i < |ps|)
  {
    if ps != [] {
      var n := |ps| - 1;
      LastNamedLaw(ps[..n], name);
      assert forall j :: 0 <= j < n ==> ps[..n][j] == ps[j];
    }
  }

  /** Of several publishers with one name the last gives its id. */
  lemma {:induction false} LastNameGivesId(ps: seq<Publisher>, name: string)
    ensures var i := LastNamed(ps, name);
            && (name in IdsByName(ps) <==> i < |ps|)
            && (i < |ps| ==> IdsByName(ps)[name] == ps[i].id)
  {
    if ps != [] {
      LastNameGivesId(ps[..|ps| - 1], name);
    }
  }

  ghost predicate IsGenerated(id: string, newId: nat -> string) {
    exists k: nat :: newId(k) == id
  }

  /** The publishers `was` with their ids completed, and new publishers after them. */
  ghost predicate AreRepaired(was: seq<Publisher>, ps: seq<Publisher>, newId: nat -> string) {
    && |was| <= |ps| && AreGoodIds(PublisherIds(ps)) && AreNewPublishers(ps, |was|)
    && (forall i :: 0 <= i < |was| ==> IsRepaired(was, i, ps[i], newId))
  }

  ghost predicate IsRepaired(was: seq<Publisher>, i: nat, p: Publisher, newId: nat -> string)
    requires i < |was|
  {
    && p == was[i].(id := p.id)
    && (p.id == was[i].id <==> KeepsId(PublisherIds(was), i))
    && (p.id != was[i].id ==> IsGenerated(p.id, newId))
  }

  lemma {:induction false} EnsuredAreGenerated(ids: seq<string>, known: set<string>, next: nat, newId: nat -> string)
    ensures var r := EnsuredIds(ids, known, next, newId);
            forall i :: 0 <= i < |ids| && r.0[i] != ids[i] ==> IsGenerated(r.0[i], newId)
    decreases |ids|
  {
    hide Trimmed, EnsuredIds;
    if ids != [] {
      var first := EnsuredId(ids[0], known, next, newId);
      EnsuredFirst(ids, known, next, newId);
      EnsuredAreGenerated(ids[1..], known + {first.0}, first.1, newId);
    }
  }

  lemma PublishersAreCompleted(d: Config, newId: nat -> string)
    requires HasFreshIds(d, newId)
    ensures var qs, ps := d.publishers, WithIds(d, newId).publishers;
            && |ps| == |qs| && AreGoodIds(PublisherIds(ps))
            && forall i :: 0 <= i < |qs| ==> IsRepaired(qs, i, ps[i], newId)
  {
    hide EnsuredIds, Trimmed, IsIdSource, IsGenerated;
    var ids := PublisherIds(d.publishers);
    EnsuredIdsLaw(ids, {}, d.nextId, newId);
    EnsuredAreGenerated(ids, {}, d.nextId, newId);
    assert PublisherIds(WithIds(d, newId).publishers) == EnsuredIds(ids, {}, d.nextId, newId).0;
  }

  lemma PublishersAreRepaired(c: Config, order: seq<string>, newId: nat -> string)
    requires IsDrainOrder(order, c.routes) && HasFreshIds(c, newId)
    ensures AreRepaired(c.publishers, Migrated(c, order, newId).publishers, newId)
  {
    hide Drained, WithIds, AreGoodIds, AreNewConsumers, AreRouteConsumers, HasFreshIds, IsRepaired, NormalOutput;
    DrainedLaw(c, order, newId);
    var d := Drained(c, order, newId);
    PublishersAreCompleted(d, newId);
    var qs, ps, n := d.publishers, WithIds(d, newId).publishers, |c.publishers|;
    forall i | 0 <= i < n ensures IsRepaired(c.publishers, i, ps[i], newId) {
      RepairedInPrefix(c.publishers, qs, i, ps[i], newId);
    }
    NewStayNew(qs, ps, n, newId);
  }

  lemma RepairedInPrefix(was: seq<Publisher>, qs: seq<Publisher>, i: nat, p: Publisher, newId: nat -> string)
    requires was <= qs && i < |was| && IsRepaired(qs, i, p, newId)
    ensures IsRepaired(was, i, p, newId)
  {
    hide Trimmed, IsGenerated;
    assert PublisherIds(was)[..i] == PublisherIds(qs)[..i];
  }

  lemma NewStayNew(qs: seq<Publisher>, ps: seq<Publisher>, n: nat, newId: nat -> string)
    requires AreNewPublishers(qs, n) && |ps| == |qs| && AreGoodIds(PublisherIds(ps))
    requires forall i :: 0 <= i < |qs| ==> IsRepaired(qs, i, ps[i], newId)
    ensures AreNewPublishers(ps, n) && forall i :: n <= i < |ps| ==> ps[i] == qs[i]
  {
    hide Trimmed, IsGenerated;
    forall i | n <= i < |ps| ensures ps[i] == qs[i] && IsClean(ps[i].id) && IsClean(ps[i].name) && IsFirstOfItsKind(ps, i) {
      assert IsClean(qs[i].id) && IsClean(qs[i].name) && IsFirstOfItsKind(qs, i);
      assert PublisherIds(qs)[i] !in PublisherIds(qs)[..i];
      assert IsRepaired(qs, i, ps[i], newId) && KeepsId(PublisherIds(qs), i);
      forall j | 0 <= j < i
        ensures ps[j].id != ps[i].id && ps[j].name != ps[i].name && ps[j].endpoint != ps[i].endpoint
      {
        assert IsRepaired(qs, j, ps[j], newId);
        assert PublisherIds(ps)[j] != PublisherIds(ps)[i];
      }
    }
  }

  // ------------------------------------------------------------------ the publisher that a reference comes to mean

  /**
   A reference to publisher `i`, made before ids are completed, is read as one to the first publisher
   with its id, or, if that is blank, to the last publisher with its name.
   */
  function Selected(was: seq<Publisher>, ps: seq<Publisher>, i: nat): (s: nat)
    requires |was| <= |ps| && i < |ps|
    ensures s <= |ps|
  {
    if i >= |was| then i
    else if IsBlank(was[i].id) then LastNamed(ps, Trimmed(was[i].name))
    else FirstWithId(was, was[i].id)
  }

  function SelectedOutput(was: seq<Publisher>, ps: seq<Publisher>, i: nat): Output
    requires |was| <= |ps| && i < |ps|
  {
    var s := Selected(was, ps, i);
    if s < |ps| then Reference(ps[s]) else ToPublisher(if i < |was| then Trimmed(was[i].name) else "", None)
  }

  lemma FirstKeepsId(was: seq<Publisher>, id: string)
    requires !IsBlank(id) && FirstWithId(was, id) < |was|
    ensures KeepsId(PublisherIds(was), FirstWithId(was, id))
  {
    hide Trimmed;
  }

  lemma NormalReference(was: seq<Publisher>, ps: seq<Publisher>, newId: nat -> string, i: nat)
    requires AreRepaired(was, ps, newId) && i < |ps|
    ensures NormalFor(Reference(if i < |was| then was[i] else ps[i]), ps) == SelectedOutput(was, ps, i)
  {
    hide Trimmed, NamesById, IdsByName, LastNamed, IsGenerated, AreNewPublishers, AreGoodIds;
    if i >= |was| {
      assert IsConsistent(Reference(ps[i]), ps);
      ConsistentIsNormal(Reference(ps[i]), ps);
    } else {
      var id := was[i].id;
      NamesByIdLaw(ps, id);
      if IsBlank(id) {
        BlankIsNoId(ps, id);
        var name := Trimmed(was[i].name);
        LastNamedLaw(ps, name);
        LastNameGivesId(ps, name);
      } else {
        var j := FirstWithId(was, id);
        FirstKeepsId(was, id);
        assert IsRepaired(was, j, ps[j], newId);
      }
    }
  }

  lemma BlankIsNoId(ps: seq<Publisher>, id: string)
    requires AreGoodIds(PublisherIds(ps)) && IsBlank(id)
    ensures id !in PublisherIds(ps)
  {
  }

  /** Each route's consumer refers to the publisher that the reference to the first one with its endpoint comes to mean. */
  lemma MigratedOutputs(c: Config, order: seq<string>, newId: nat -> string, k: nat)
    requires IsDrainOrder(order, c.routes) && HasFreshIds(c, newId) && k < |order|
    ensures var m := Migrated(c, order, newId);
            var output := c.routes[order[k]].output;
            && AreRepaired(c.publishers, m.publishers, newId) && |m.consumers| == |c.consumers| + |order|
            && IsPublished(m.publishers, output)
            && m.consumers[|c.consumers| + k].output ==
               if output.kind == "null" then NoOutput
               else SelectedOutput(c.publishers, m.publishers, FindEndpoint(m.publishers, output))
  {
    hide Drained, WithIds, Migrated, NormalOutput, AreNewPublishers, HasFreshIds, IsRouteConsumer, AreGoodIds, FindEndpoint,
         SelectedOutput, AreRouteConsumers;
    PublishersAreRepaired(c, order, newId);
    DrainedLaw(c, order, newId);
    var d := Drained(c, order, newId);
    PublishersAreCompleted(d, newId);
    NormalRouteOutput(c, order, newId, k);
    var qs, ps, output := d.publishers, WithIds(d, newId).publishers, c.routes[order[k]].output;
    assert ps == Migrated(c, order, newId).publishers by { PublishersAreThose(c, order, newId); }
    if !output.IsNull() {
      SameEndpoints(qs, ps, output);
      NewStayNew(qs, ps, |c.publishers|, newId);
      NormalReference(c.publishers, ps, newId, FindEndpoint(qs, output));
    } else {
      NullIsNormal(ps);
    }
  }

  lemma NullIsNormal(ps: seq<Publisher>)
    ensures NormalFor(NoOutput, ps) == NoOutput
  {
  }

  lemma PublishersAreThose(c: Config, order: seq<string>, newId: nat -> string)
    requires IsDrainOrder(order, c.routes)
    ensures WithIds(Drained(c, order, newId), newId).publishers == Migrated(c, order, newId).publishers
  {
    hide Drained, WithIds;
  }

  lemma NormalRouteOutput(c: Config, order: seq<string>, newId: nat -> string, k: nat)
    requires IsDrainOrder(order, c.routes) && HasFreshIds(c, newId) && k < |order|
    ensures var m, d := Migrated(c, order, newId), Drained(c, order, newId);
            && |m.consumers| == |c.consumers| + |order| && IsPublished(d.publishers, c.routes[order[k]].output)
            && m.consumers[|c.consumers| + k].output ==
               NormalFor(OutputFor(d.publishers, c.routes[order[k]].output), m.publishers)
  {
    hide Drained, WithIds, WithRoutes, WithResponses, Prepared, NormalFor, AreNewPublishers, AreNewConsumers, AreRouteConsumers,
         HasFreshIds, IsRouteConsumer, OutputFor, IsPublished;
    DrainedLaw(c, order, newId);
    var d := Drained(c, order, newId);
    var route := c.routes[order[k]];
    RouteConsumerAt(d, |c.consumers|, c.routes, order, k);
    RouteConsumerOutput(d.consumers[|c.consumers| + k], order[k], route, d.publishers);
    NormalAt(d, newId, |c.consumers| + k);
  }

  lemma RouteConsumerAt(d: Config, n: nat, routes: map<string, Route>, order: seq<string>, k: nat)
    requires k < |order| && forall j :: 0 <= j < |order| ==> order[j] in routes
    requires AreRouteConsumers(d, n, routes, order)
    ensures |d.consumers| == n + |order| && IsRouteConsumer(d.consumers[n + k], order[k], routes[order[k]], d.publishers)
  {
    hide IsRouteConsumer;
  }

  lemma NormalAt(d: Config, newId: nat -> string, i: nat)
    requires HasFreshIds(d, newId) && i < |d.consumers|
    ensures var m := Normalized(WithIds(d, newId));
            |m.consumers| == |d.consumers| && m.consumers[i].output == NormalFor(d.consumers[i].output, m.publishers)
  {
    hide WithIds, NormalOutput, NamesById, IdsByName, HasFreshIds, AreGoodIds, KeepsId;
    WithIdsLaw(d, newId);
    var e := WithIds(d, newId);
    assert e.consumers[i] == d.consumers[i].(id := e.consumers[i].id);
  }

  lemma SameEndpoints(qs: seq<Publisher>, ps: seq<Publisher>, endpoint: Endpoint)
    requires |qs| == |ps| && forall i :: 0 <= i < |qs| ==> ps[i] == qs[i].(id := ps[i].id)
    ensures FindEndpoint(ps, endpoint) == FindEndpoint(qs, endpoint)
  {
  }

  lemma RouteConsumerOutput(t: Consumer, name: string, route: Route, ps: seq<Publisher>)
    requires IsRouteConsumer(t, name, route, ps)
    ensures IsPublished(ps, route.output) && t.output == OutputFor(ps, route.output)
  {
    hide Trimmed, Candidate, OutputFor, IsPublished;
  }

  /** `i` is the last publisher with this name. */
  ghost predicate IsLastNamed(ps: seq<Publisher>, name: string, i: nat) {
    i < |ps| && ps[i].name == name && forall j :: i < j < |ps| ==> ps[j].name != name
  }

  /** A known id gives the name; otherwise the name, free of the blanks around it, gives the id of its last publisher. */
  ghost predicate IsCompletedReference(was: Output, now: Output, ps: seq<Publisher>) {
    was.ToPublisher? && now.ToPublisher? &&
    if was.publisherId.Some? && was.publisherId.value in PublisherIds(ps) then
      exists i :: 0 <= i < |ps| && ps[i].id == was.publisherId.value && now == ToPublisher(ps[i].name, Some(ps[i].id))
    else
      && IsCore(now.publisher, was.publisher, WhiteSpace)
      && if now.publisher in PublisherNames(ps) then
           exists i :: 0 <= i < |ps| && IsLastNamed(ps, now.publisher, i) && now.publisherId == Some(ps[i].id)
         else now.publisherId == None
  }

  lemma NormalReferenceLaw(o: Output, ps: seq<Publisher>)
    requires o.ToPublisher? && AreGoodIds(PublisherIds(ps))
    ensures IsCompletedReference(o, NormalFor(o, ps), ps)
  {
    hide Trimmed, IsCore, NamesById, IdsByName, AreGoodIds, LastNamed, PublisherNames, PublisherIds;
    var name := Trimmed(o.publisher);
    TrimmedLaw(o.publisher, name);
    if o.publisherId.Some? {
      var id := o.publisherId.value;
      NamesByIdLaw(ps, id);
      if id in NamesById(ps) {
        IdIsOfPublisher(ps, id);
      }
    }
    IdsByNameLaw(ps, name);
    LastNamedLaw(ps, name);
    LastNameGivesId(ps, name);
    var i := LastNamed(ps, name);
    assert i < |ps| ==> IsLastNamed(ps, name, i);
  }

  lemma IdIsOfPublisher(ps: seq<Publisher>, id: string)
    requires id in PublisherIds(ps)
    ensures exists i :: 0 <= i < |ps| && ps[i].id == id
  {
    var i :| 0 <= i < |PublisherIds(ps)| && PublisherIds(ps)[i] == id;
    assert ps[i].id == id;
  }

  /** What becomes of the references to publishers that consumers held before. */
  lemma ReferencesAreCompleted(c: Config, order: seq<string>, newId: nat -> string, i: nat)
    requires IsDrainOrder(order, c.routes) && HasFreshIds(c, newId)
    requires i < |c.consumers| && c.consumers[i].output.ToPublisher?
    ensures var m := Migrated(c, order, newId);
            |m.consumers| >= |c.consumers| && IsCompletedReference(c.consumers[i].output, m.consumers[i].output, m.publishers)
  {
    hide Drained, WithIds, WithRoutes, NormalFor, AreNewPublishers, AreNewConsumers, AreRouteConsumers, HasFreshIds,
         IsCompletedReference, AreGoodIds, Migrated, KeepsId;
    DrainedLaw(c, order, newId);
    var d := Drained(c, order, newId);
    assert d.consumers[i] == WithResponse(c.consumers[i]);
    NormalAt(d, newId, i);
    MigratedFrom(c, order, newId);
    WithIdsLaw(d, newId);
    PublishersAreThose(c, order, newId);
    NormalReferenceLaw(c.consumers[i].output, WithIds(d, newId).publishers);
  }

  lemma MigratedFrom(c: Config, order: seq<string>, newId: nat -> string)
    requires IsDrainOrder(order, c.routes)
    ensures Migrated(c, order, newId) == Normalized(WithIds(Drained(c, order, newId), newId))
  {
    hide Drained, WithIds, Normalized;
  }

  // ------------------------------------------------------------------ where that delivers

  function OwnTarget(route: Route): Target {
    if route.output.IsNull() then Nowhere else Deliver(route.output)
  }

  /** The publisher that the first one for `endpoint` is taken for is found, by its id or name, to be for `endpoint`. */
  predicate DeliversBack(was: seq<Publisher>, ps: seq<Publisher>, endpoint: Endpoint)
    requires |was| <= |ps| && FindEndpoint(ps, endpoint) < |ps|
  {
    var s := Selected(was, ps, FindEndpoint(ps, endpoint));
    s < |ps| &&
    var r := Referred(Reference(ps[s]), ps);
    r < |ps| && ps[r].endpoint == endpoint
  }

  lemma NobodyNamed(ps: seq<Publisher>, name: string)
    requires LastNamed(ps, name) == |ps|
    ensures FirstMeant(ps, name, None) == |ps|
  {
    hide LastNamed;
    LastNamedLaw(ps, name);
    var i := FirstMeant(ps, name, None);
    assert i < |ps| ==> IsMeant(ps[i], name, None);
  }

  lemma GoodIdSelects(ps: seq<Publisher>, i: nat)
    requires AreGoodIds(PublisherIds(ps)) && i < |ps|
    ensures TrimmedId(Some(ps[i].id)) == Some(Trimmed(ps[i].id))
  {
    assert !IsBlank(PublisherIds(ps)[i]);
  }

  lemma SelectedResolves(was: seq<Publisher>, ps: seq<Publisher>, endpoint: Endpoint, t: Consumer)
    requires |was| <= |ps| && AreGoodIds(PublisherIds(ps)) && FindEndpoint(ps, endpoint) < |ps|
    requires t.output == SelectedOutput(was, ps, FindEndpoint(ps, endpoint))
    ensures Resolve(t, ps) == Ok(Deliver(endpoint)) <==> DeliversBack(was, ps, endpoint)
  {
    hide Trimmed, FirstMeant, FindEndpoint, LastNamed, FirstWithId, IsBlank, AreGoodIds;
    var i := FindEndpoint(ps, endpoint);
    var s := Selected(was, ps, i);
    if s < |ps| {
      GoodIdSelects(ps, s);
    } else {
      var name := Trimmed(was[i].name);
      TrimTwice(was[i].name);
      NobodyNamed(ps, name);
    }
  }

  /** Where a route's consumer resolves to, in terms of the publishers before and after. */
  lemma RouteDeliversBack(c: Config, order: seq<string>, newId: nat -> string, k: nat)
    requires IsDrainOrder(order, c.routes) && HasFreshIds(c, newId) && k < |order|
    ensures var m, route := Migrated(c, order, newId), c.routes[order[k]];
            && AreRepaired(c.publishers, m.publishers, newId) && |m.consumers| == |c.consumers| + |order|
            && (!route.output.IsNull() ==> FindEndpoint(m.publishers, route.output) < |m.publishers|)
            && (Resolve(m.consumers[|c.consumers| + k], m.publishers) == Ok(OwnTarget(route)) <==>
                route.output.IsNull() || DeliversBack(c.publishers, m.publishers, route.output))
  {
    hide Migrated, FindEndpoint, AreGoodIds, AreNewPublishers, DeliversBack, HasFreshIds, Referred, SelectedOutput, IsRepaired,
         Trimmed;
    MigratedOutputs(c, order, newId, k);
    var m, route := Migrated(c, order, newId), c.routes[order[k]];
    if !route.output.IsNull() {
      SelectedResolves(c.publishers, m.publishers, route.output, m.consumers[|c.consumers| + k]);
    }
  }

  // ------------------------------------------------------------------ in terms of the publishers before the migration

  /** What a lookup finds for publisher `s` once the ids are completed; a new id leads to nobody else. */
  function MeantAfter(was: seq<Publisher>, s: nat): nat
    requires s < |was|
  {
    var name := Trimmed(was[s].name);
    if KeepsId(PublisherIds(was), s) then FirstMeant(was, name, Some(Trimmed(was[s].id)))
    else if name == "" then s
    else FirstMeant(was, name, None)
  }

  /** The first publisher for `endpoint` is taken for one that is found to be for `endpoint`. */
  predicate LeadsBack(was: seq<Publisher>, endpoint: Endpoint) {
    var i := FindEndpoint(was, endpoint);
    i < |was| ==>
      var s := Selected(was, was, i);
      s < |was| &&
      var r := MeantAfter(was, s);
      r < |was| && was[r].endpoint == endpoint
  }

  /** No id in use is a generated one with blanks around it. */
  ghost predicate NoneHides(was: seq<Publisher>, newId: nat -> string) {
    forall i :: 0 <= i < |was| && !IsClean(was[i].id) ==> !IsGenerated(Trimmed(was[i].id), newId)
  }

  lemma EndpointBefore(was: seq<Publisher>, ps: seq<Publisher>, endpoint: Endpoint)
    requires |was| <= |ps| && forall i :: 0 <= i < |was| ==> ps[i] == was[i].(id := ps[i].id)
    ensures var i := FindEndpoint(was, endpoint);
            if i < |was| then FindEndpoint(ps, endpoint) == i else FindEndpoint(ps, endpoint) >= |was|
  {
    hide FindEndpoint;
    var i, j := FindEndpoint(was, endpoint), FindEndpoint(ps, endpoint);
    assert i < |was| ==> ps[i].endpoint == endpoint;
    assert j < |was| ==> was[j].endpoint == endpoint;
  }

  /** A publisher the migration added is found by its own reference. */
  lemma NewPublisherFindsItself(ps: seq<Publisher>, n: nat, i: nat)
    requires AreNewPublishers(ps, n) && n <= i < |ps|
    ensures Referred(Reference(ps[i]), ps) == i
  {
    hide Trimmed, FirstMeant;
    assert IsClean(ps[i].id) && IsClean(ps[i].name) && IsFirstOfItsKind(ps, i);
    var k := FirstMeant(ps, ps[i].name, Some(ps[i].id));
    assert IsMeant(ps[i], ps[i].name, Some(ps[i].id));
    assert k <= i;
  }

  lemma NewHasOwnEndpoint(ps: seq<Publisher>, n: nat, i: nat, j: nat)
    requires AreNewPublishers(ps, n) && i < n <= j < |ps|
    ensures ps[j].endpoint != ps[i].endpoint
  {
    assert IsFirstOfItsKind(ps, j);
  }

  lemma NewHasOwnName(ps: seq<Publisher>, n: nat, j: nat)
    requires AreNewPublishers(ps, n) && n <= j < |ps|
    ensures forall i :: 0 <= i < n ==> ps[i].name != ps[j].name
  {
    assert IsFirstOfItsKind(ps, j);
  }

  /** Whether a publisher has a trimmed id, before and after: only the first with it counts. */
  lemma SameIdAfter(was: seq<Publisher>, ps: seq<Publisher>, newId: nat -> string, s: nat, x: nat)
    requires AreRepaired(was, ps, newId) && (AreGoodIds(PublisherIds(was)) || NoneHides(was, newId))
    requires s < |was| && KeepsId(PublisherIds(was), s) && x < |was| && ps[x].id == Trimmed(was[s].id)
    ensures was[x].id == Trimmed(was[s].id)
  {
    hide Trimmed, AreNewPublishers, AreGoodIds, IsGenerated;
    assert IsRepaired(was, x, ps[x], newId) && IsRepaired(was, s, ps[s], newId);
    if AreGoodIds(PublisherIds(was)) {
      GoodIdIsKept(was, x);
    } else if IsClean(was[s].id) {
      GoodIdIsUnique(ps, x, s);
    }
  }

  lemma GoodIdIsKept(ps: seq<Publisher>, i: nat)
    requires AreGoodIds(PublisherIds(ps)) && i < |ps|
    ensures KeepsId(PublisherIds(ps), i)
  {
    hide Trimmed;
  }

  lemma GoodIdIsUnique(ps: seq<Publisher>, i: nat, j: nat)
    requires AreGoodIds(PublisherIds(ps)) && i < |ps| && j < |ps| && ps[i].id == ps[j].id
    ensures i == j
  {
    hide Trimmed;
    assert PublisherIds(ps)[i] == PublisherIds(ps)[j];
  }

  lemma MeantKept(was: seq<Publisher>, ps: seq<Publisher>, newId: nat -> string, s: nat)
    requires AreRepaired(was, ps, newId) && (AreGoodIds(PublisherIds(was)) || NoneHides(was, newId))
    requires s < |was| && KeepsId(PublisherIds(was), s)
    ensures var r, r' := MeantAfter(was, s), Referred(Reference(ps[s]), ps);
            if r < |was| then r' == r else r' >= |was|
  {
    hide Trimmed, FirstMeant, AreNewPublishers, NoneHides, AreGoodIds;
    assert IsRepaired(was, s, ps[s], newId);
    var name, id := Trimmed(was[s].name), Trimmed(was[s].id);
    TrimTwice(was[s].id);
    assert PublisherIds(was)[s] == was[s].id;
    var r, r' := FirstMeant(was, name, Some(id)), FirstMeant(ps, name, Some(id));
    assert TrimmedId(Some(ps[s].id)) == Some(id);
    if r < |was| {
      assert IsMeant(ps[r], name, Some(id)) by {
        assert IsRepaired(was, r, ps[r], newId);
        if was[r].id == id {
          FirstMeantKeepsId(was, name, id, r);
        }
      }
    }
    if r' < |was| {
      assert IsRepaired(was, r', ps[r'], newId);
      if ps[r'].id == id {
        SameIdAfter(was, ps, newId, s, r');
      }
      assert IsMeant(was[r'], name, Some(id));
    }
  }

  lemma FirstMeantKeepsId(was: seq<Publisher>, name: string, id: string, r: nat)
    requires r == FirstMeant(was, name, Some(id)) < |was| && was[r].id == id && !IsBlank(id)
    ensures KeepsId(PublisherIds(was), r)
  {
    hide Trimmed, FirstMeant;
    forall j | 0 <= j < r ensures PublisherIds(was)[j] != id {
      assert !IsMeant(was[j], name, Some(id));
    }
  }

  /** A publisher with a new id is found by that or, before it, by its name. */
  lemma MeantReplaced(was: seq<Publisher>, ps: seq<Publisher>, newId: nat -> string, s: nat)
    requires AreRepaired(was, ps, newId) && IsIdSource(newId)
    requires s < |was| && !KeepsId(PublisherIds(was), s) && Trimmed(was[s].name) == was[s].name
    ensures Referred(Reference(ps[s]), ps) == MeantAfter(was, s) <= s
  {
    hide Trimmed, FirstMeant, AreNewPublishers;
    assert IsRepaired(was, s, ps[s], newId);
    var name, id := was[s].name, ps[s].id;
    assert IsClean(id);
    var r' := FirstMeant(ps, name, Some(id));
    assert IsMeant(ps[s], name, Some(id)) && r' <= s;
    assert IsRepaired(was, r', ps[r'], newId);
    if ps[r'].id == id {
      GoodIdIsUnique(ps, r', s);
    }
    if name != "" {
      var r := FirstMeant(was, name, None);
      assert IsMeant(was[s], name, None) && r <= s;
      assert IsRepaired(was, r, ps[r], newId);
      assert IsMeant(ps[r], name, Some(id));
      assert IsMeant(was[r'], name, None);
    }
  }

  /** Among the publishers after the migration a name selects the one that it selected before, or a new one. */
  lemma SelectedBefore(was: seq<Publisher>, ps: seq<Publisher>, newId: nat -> string, i: nat)
    requires AreRepaired(was, ps, newId) && i < |was|
    ensures var s, s' := Selected(was, was, i), Selected(was, ps, i);
            && (s' < |was| ==> s == s')
            && (s' >= |was| ==> s == |was|)
            && (s < |was| && !KeepsId(PublisherIds(was), s) ==> Trimmed(was[s].name) == was[s].name)
  {
    hide Trimmed, LastNamed, IsGenerated, AreGoodIds, AreNewPublishers;
    if IsBlank(was[i].id) {
      var name := Trimmed(was[i].name);
      TrimTwice(was[i].name);
      LastNamedLaw(was, name);
      LastNamedLaw(ps, name);
      var s, s' := LastNamed(was, name), LastNamed(ps, name);
      assert s < |was| ==> IsRepaired(was, s, ps[s], newId);
      assert s' < |was| ==> IsRepaired(was, s', ps[s'], newId);
      if |was| <= s' < |ps| {
        NewHasOwnName(ps, |was|, s');
      }
    } else {
      FirstKeepsId(was, was[i].id);
    }
  }

  lemma DeliversBackExactly(was: seq<Publisher>, ps: seq<Publisher>, newId: nat -> string, endpoint: Endpoint)
    requires AreRepaired(was, ps, newId) && IsIdSource(newId) && FindEndpoint(ps, endpoint) < |ps|
    requires AreGoodIds(PublisherIds(was)) || NoneHides(was, newId)
    ensures DeliversBack(was, ps, endpoint) <==> LeadsBack(was, endpoint)
  {
    hide Trimmed, FirstMeant, FindEndpoint, LastNamed, FirstWithId, MeantAfter, Selected, AreGoodIds, NoneHides, Referred,
         KeepsId, AreNewPublishers, IsIdSource, IsGenerated;
    assert forall j :: 0 <= j < |was| ==> IsRepaired(was, j, ps[j], newId);
    EndpointBefore(was, ps, endpoint);
    var i := FindEndpoint(ps, endpoint);
    if i >= |was| {
      NewIsSelected(was, ps, i);
      NewPublisherFindsItself(ps, |was|, i);
    } else {
      SelectedBefore(was, ps, newId, i);
      var s := Selected(was, ps, i);
      if |was| <= s < |ps| {
        NewPublisherFindsItself(ps, |was|, s);
        NewHasOwnEndpoint(ps, |was|, i, s);
      } else if s < |was| {
        if KeepsId(PublisherIds(was), s) {
          MeantKept(was, ps, newId, s);
          var r := Referred(Reference(ps[s]), ps);
          if |was| <= r < |ps| {
            NewHasOwnEndpoint(ps, |was|, i, r);
          }
        } else {
          MeantReplaced(was, ps, newId, s);
        }
      }
    }
  }

  lemma NewIsSelected(was: seq<Publisher>, ps: seq<Publisher>, i: nat)
    requires |was| <= i < |ps|
    ensures Selected(was, ps, i) == i
  {
  }

  /**
   After the migration a route's consumer resolves to the route's own output exactly when the output is
   null, had no publisher, or had one that leads back to it: whatever ids the publishers had.
   */
  lemma RouteKeepsItsOutput(c: Config, order: seq<string>, newId: nat -> string, k: nat)
    requires IsDrainOrder(order, c.routes) && HasFreshIds(c, newId) && k < |order|
    requires AreGoodIds(PublisherIds(c.publishers)) || NoneHides(c.publishers, newId)
    ensures var m, route := Migrated(c, order, newId), c.routes[order[k]];
            && |m.consumers| == |c.consumers| + |order|
            && (Resolve(m.consumers[|c.consumers| + k], m.publishers) == Ok(OwnTarget(route)) <==>
                route.output.IsNull() || LeadsBack(c.publishers, route.output))
  {
    hide Migrated, Resolve, DeliversBack, LeadsBack, AreGoodIds, NoneHides, AreRepaired, Unused, IsIdSource;
    RouteDeliversBack(c, order, newId, k);
    var m, route := Migrated(c, order, newId), c.routes[order[k]];
    if !route.output.IsNull() {
      DeliversBackExactly(c.publishers, m.publishers, newId, route.output);
    }
  }

  // ------------------------------------------------------------------ when that is so

  predicate HaveDistinctNames(ps: seq<Publisher>) {
    forall i, j :: 0 <= i < j < |ps| ==> Trimmed(ps[i].name) != Trimmed(ps[j].name)
  }

  predicate HaveCleanIds(ps: seq<Publisher>) {
    forall i :: 0 <= i < |ps| ==> IsClean(ps[i].id)
  }

  /** Publishers with good ids are taken for themselves. */
  lemma GoodIdSelectsItself(was: seq<Publisher>, ps: seq<Publisher>, i: nat)
    requires AreGoodIds(PublisherIds(was)) && |was| <= |ps| && i < |ps|
    ensures Selected(was, ps, i) == i
  {
    hide Trimmed;
    if i < |was| {
      assert PublisherIds(was)[i] == was[i].id;
      GoodIdIsUnique(was, FirstWithId(was, was[i].id), i);
    }
  }

  lemma CleanPublishersLeadBack(ps: seq<Publisher>, endpoint: Endpoint)
    requires AreGoodIds(PublisherIds(ps)) && HaveCleanIds(ps) && HaveDistinctNames(ps)
    ensures LeadsBack(ps, endpoint)
  {
    hide Trimmed, FirstMeant, FindEndpoint, AreGoodIds, Selected;
    var i := FindEndpoint(ps, endpoint);
    if i < |ps| {
      GoodIdSelectsItself(ps, ps, i);
      GoodIdIsKept(ps, i);
      var name, id := Trimmed(ps[i].name), ps[i].id;
      assert IsClean(id);
      var j := FirstMeant(ps, name, Some(id));
      assert IsMeant(ps[i], name, Some(id)) && j <= i;
      TrimTwice(ps[i].name);
      assert ps[j].name == name ==> Trimmed(ps[j].name) == name;
      if ps[j].id == id {
        GoodIdIsUnique(ps, i, j);
      }
    }
  }

  /** Distinct ids without blanks around them and distinct trimmed names: every route keeps its output. */
  lemma EveryRouteKeepsItsOutput(c: Config, order: seq<string>, newId: nat -> string)
    requires IsDrainOrder(order, c.routes) && HasFreshIds(c, newId) && AreGoodIds(PublisherIds(c.publishers))
    requires HaveCleanIds(c.publishers) && HaveDistinctNames(c.publishers)
    ensures var m := Migrated(c, order, newId);
            && |m.consumers| == |c.consumers| + |c.routes| && |order| == |c.routes|
            && forall k :: 0 <= k < |order| ==>
                 Resolve(m.consumers[|c.consumers| + k], m.publishers) == Ok(OwnTarget(c.routes[order[k]]))
  {
    hide Migrated, Resolve, AreGoodIds, HaveCleanIds, HaveDistinctNames, IsIdSource, LeadsBack, AreFromRoutes;
    EachRouteBecomesOneConsumer(c, order, newId);
    OrderIsComplete(order, c.routes);
    var m := Migrated(c, order, newId);
    forall k | 0 <= k < |order|
      ensures Resolve(m.consumers[|c.consumers| + k], m.publishers) == Ok(OwnTarget(c.routes[order[k]]))
    {
      RouteKeepsItsOutput(c, order, newId, k);
      CleanPublishersLeadBack(c.publishers, c.routes[order[k]].output);
    }
  }

  /** Two consumers refer to one publisher, and to some publisher at all. */
  predicate SharePublisher(t: Consumer, u: Consumer) {
    && t.output.ToPublisher? && u.output.ToPublisher?
    && t.output.publisherId.Some? && t.output.publisherId == u.output.publisherId
  }

  /** The publisher that the first one for `endpoint` is taken for. */
  function SelectedFor(was: seq<Publisher>, ps: seq<Publisher>, endpoint: Endpoint): nat
    requires |was| <= |ps| && FindEndpoint(ps, endpoint) < |ps|
  {
    Selected(was, ps, FindEndpoint(ps, endpoint))
  }

  /**
   Two routes share a publisher exactly when the publishers for their outputs are both taken for the same one;
   with good ids that is so exactly when their outputs are equal.
   */
  lemma EqualOutputsShareAPublisher(c: Config, order: seq<string>, newId: nat -> string, j: nat, k: nat)
    requires IsDrainOrder(order, c.routes) && HasFreshIds(c, newId) && j < |order| && k < |order|
    requires !c.routes[order[j]].output.IsNull() && !c.routes[order[k]].output.IsNull()
    ensures var m, n := Migrated(c, order, newId), |c.consumers|;
            var a, b := c.routes[order[j]].output, c.routes[order[k]].output;
            && |m.consumers| == n + |order| && |c.publishers| <= |m.publishers|
            && FindEndpoint(m.publishers, a) < |m.publishers| && FindEndpoint(m.publishers, b) < |m.publishers|
            && (SharePublisher(m.consumers[n + j], m.consumers[n + k]) <==>
                SelectedFor(c.publishers, m.publishers, a) == SelectedFor(c.publishers, m.publishers, b) < |m.publishers|)
            && (AreGoodIds(PublisherIds(c.publishers)) ==>
                  (SharePublisher(m.consumers[n + j], m.consumers[n + k]) <==> a == b))
  {
    hide Migrated, AreNewPublishers, HasFreshIds, AreGoodIds, FindEndpoint, Selected, IsRepaired;
    MigratedOutputs(c, order, newId, j);
    MigratedOutputs(c, order, newId, k);
    var ps := Migrated(c, order, newId).publishers;
    var x, y := FindEndpoint(ps, c.routes[order[j]].output), FindEndpoint(ps, c.routes[order[k]].output);
    var s, t := Selected(c.publishers, ps, x), Selected(c.publishers, ps, y);
    if s < |ps| && t < |ps| && ps[s].id == ps[t].id {
      GoodIdIsUnique(ps, s, t);
    }
    if AreGoodIds(PublisherIds(c.publishers)) {
      GoodIdSelectsItself(c.publishers, ps, x);
      GoodIdSelectsItself(c.publishers, ps, y);
    }
  }

  // ------------------------------------------------------------------ ids that mislead

  lemma LeadingBlank(blank: char, s: string)
    requires IsBlankChar(blank)
    ensures Trimmed([blank] + s) == Trimmed(s)
  {
    assert ([blank] + s)[1..] == s;
    assert TrimStart([blank] + s, WhiteSpace) == TrimStart(s, WhiteSpace);
  }

  lemma SpacedLetter(letter: char)
    requires !IsBlankChar(letter)
    ensures Trimmed([' ', letter]) == [letter] && Trimmed([letter]) == [letter]
  {
    hide Trimmed;
    EndsAreClean([letter]);
    LeadingBlank(' ', [letter]);
    assert [' '] + [letter] == [' ', letter];
  }

  /** Distinct, non-blank ids are not enough: one with a blank before it leads to another publisher. */
  lemma SpacedIdMisleads() returns (ps: seq<Publisher>, output: Endpoint)
    ensures AreGoodIds(PublisherIds(ps)) && HaveDistinctNames(ps) && !LeadsBack(ps, output)
  {
    hide Trimmed, FindEndpoint, FirstMeant, FirstWithId;
    output := Endpoint("memory", "second");
    ps := [NewPublisher("a", "x", Endpoint("memory", "first")), NewPublisher(" a", "y", output)];
    SpacedLetter('a');
    SpacedLetter('x');
    SpacedLetter('y');
    assert PublisherIds(ps) == ["a", " a"];
    assert ps[0].endpoint != output && ps[1].endpoint == output && ps[1].id == " a";
    assert FindEndpoint(ps, output) == 1;
    GoodIdSelectsItself(ps, ps, 1);
    assert IsMeant(ps[0], "y", Some("a"));
    assert FirstMeant(ps, "y", Some("a")) == 0;
  }

  /** Nor are clean ids and distinct names: of two publishers with one id the second is taken for the first. */
  lemma SharedIdMisleads() returns (ps: seq<Publisher>, output: Endpoint)
    ensures HaveCleanIds(ps) && HaveDistinctNames(ps) && !LeadsBack(ps, output)
  {
    hide Trimmed, FindEndpoint, FirstMeant, FirstWithId;
    output := Endpoint("memory", "second");
    ps := [NewPublisher("a", "x", Endpoint("memory", "first")), NewPublisher("a", "y", output)];
    SpacedLetter('a');
    SpacedLetter('x');
    SpacedLetter('y');
    assert PublisherIds(ps) == ["a", "a"];
    assert ps[0].endpoint != output && ps[1].endpoint == output && ps[0].id == ps[1].id == "a";
    assert FindEndpoint(ps, output) == 1 && FirstWithId(ps, "a") == 0;
    assert IsMeant(ps[0], "x", Some("a"));
    assert FirstMeant(ps, "x", Some("a")) == 0;
  }

  /**
   Why a generated id must not hide behind blanks: here the route delivers to its output only if the id
   generated for the second publisher happens to be that of the first without its blank.
   */
  lemma HiddenIdDecides(ps: seq<Publisher>, newId: nat -> string, output: Endpoint)
    requires AreRepaired([NewPublisher(" g", " n", output), NewPublisher("", "q", output)], ps, newId) && |ps| == 2
    ensures FindEndpoint(ps, output) == 0
    ensures DeliversBack([NewPublisher(" g", " n", output), NewPublisher("", "q", output)], ps, output) <==> ps[1].id == "g"
  {
    hide Trimmed, FindEndpoint, FirstMeant, FirstWithId, AreGoodIds, AreNewPublishers, IsGenerated;
    var was := [NewPublisher(" g", " n", output), NewPublisher("", "q", output)];
    SpacedLetter('g');
    SpacedLetter('n');
    assert was[0].id == " g" && was[0].name == " n" && was[1].name == "q";
    assert IsRepaired(was, 0, ps[0], newId) && IsRepaired(was, 1, ps[1], newId);
    assert PublisherIds(was)[..0] == [];
    assert FindEndpoint(ps, output) == 0 && FirstWithId(was, " g") == 0;
    var r := FirstMeant(ps, "n", Some("g"));
    assert IsMeant(ps[1], "n", Some("g")) <==> ps[1].id == "g";
    assert !IsMeant(ps[0], "n", Some("g"));
    assert r == 1 <==> ps[1].id == "g";
  }
}
