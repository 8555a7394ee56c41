/** controller/resource.go and controller/controller.go as they run: listing the
    resources, and one round of reconciling them. */
module Controller {
  import opened Prelude
  import opened EcsTasks
  import opened ConsulApi
  import opened Cleanup
  import Namespaces

  /** Tokens grouped by task, as fetchACLState returns them. */
  ghost predicate TokensGrouped(l: Lister, parse: Parser, listed: seq<Token>, m: States) {
    && m.Keys == TokenTasks(l, parse, listed)
    && forall id :: id in m ==> m[id] == NewTaskState(id, l.cluster).(tokens := TokensOf(l, parse, listed, id))
  }

  ghost predicate ServicesGrouped(l: Lister, listed: seq<Service>, m: States) {
    && m.Keys == ServiceTasks(listed)
    && forall id :: id in m ==> m[id] == NewTaskState(id, l.cluster).(services := ServicesOf(listed, id))
  }

  lemma TokensOfSnoc(l: Lister, parse: Parser, listed: seq<Token>, t: Token, id: TaskID)
    ensures TokensOf(l, parse, listed + [t], id) ==
            TokensOf(l, parse, listed, id) + if TokenTask(l, parse, t) == Some(id) then [t] else []
  {
    assert (listed + [t])[..|listed + [t]| - 1] == listed;
  }

  lemma {:induction false} TokensOfNone(l: Lister, parse: Parser, listed: seq<Token>, id: TaskID)
    requires id !in TokenTasks(l, parse, listed)
    ensures TokensOf(l, parse, listed, id) == []
  {
    if listed != [] {
      var rest, last := listed[..|listed| - 1], listed[|listed| - 1];
      assert listed == rest + [last];
      assert last in listed && forall t :: t in rest ==> t in listed;
      TokensOfNone(l, parse, rest, id);
    }
  }

  lemma TokenTasksSnoc(l: Lister, parse: Parser, listed: seq<Token>, t: Token)
    ensures var task := TokenTask(l, parse, t);
      TokenTasks(l, parse, listed + [t]) == TokenTasks(l, parse, listed) + if task.Some? then {task.value} else {}
  {
    assert t in listed + [t];
  }

  lemma SkipToken(l: Lister, parse: Parser, listed: seq<Token>, m: States, t: Token)
    requires TokensGrouped(l, parse, listed, m) && TokenTask(l, parse, t).None?
    ensures TokensGrouped(l, parse, listed + [t], m)
  {
    TokenTasksSnoc(l, parse, listed, t);
    forall id | id in m ensures TokensOf(l, parse, listed + [t], id) == TokensOf(l, parse, listed, id) {
      TokensOfSnoc(l, parse, listed, t, id);
    }
  }

  lemma GroupToken(l: Lister, parse: Parser, listed: seq<Token>, m: States, t: Token, task: TaskID)
    requires TokensGrouped(l, parse, listed, m) && TokenTask(l, parse, t) == Some(task)
    ensures var state := if task in m then m[task] else NewTaskState(task, l.cluster);
      TokensGrouped(l, parse, listed + [t], m[task := state.(tokens := state.tokens + [t])])
  {
    TokenTasksSnoc(l, parse, listed, t);
    forall id ensures TokensOf(l, parse, listed + [t], id) ==
      TokensOf(l, parse, listed, id) + if task == id then [t] else []
    {
      TokensOfSnoc(l, parse, listed, t, id);
    }
    if task !in m { TokensOfNone(l, parse, listed, task); }
  }

  lemma ServicesOfSnoc(listed: seq<Service>, s: Service, id: TaskID)
    ensures ServicesOf(listed + [s], id) == ServicesOf(listed, id) + if ServiceTask(s) == Some(id) then [s] else []
  {
    assert (listed + [s])[..|listed + [s]| - 1] == listed;
  }

  lemma {:induction false} ServicesOfNone(listed: seq<Service>, id: TaskID)
    requires id !in ServiceTasks(listed)
    ensures ServicesOf(listed, id) == []
  {
    if listed != [] {
      var rest, last := listed[..|listed| - 1], listed[|listed| - 1];
      assert listed == rest + [last];
      assert last in listed && forall s :: s in rest ==> s in listed;
      ServicesOfNone(rest, id);
    }
  }

  lemma GroupService(l: Lister, listed: seq<Service>, m: States, s: Service)
    requires ServicesGrouped(l, listed, m) && ServiceTask(s).Some?
    ensures var id := ServiceTask(s).value;
      var state := if id in m then m[id] else NewTaskState(id, l.cluster);
      ServicesGrouped(l, listed + [s], m[id := state.(services := state.services + [s])])
  {
    var longer, task := listed + [s], ServiceTask(s).value;
    assert ServiceTasks(longer) == ServiceTasks(listed) + {task} by { assert s in longer; }
    forall id ensures ServicesOf(longer, id) == ServicesOf(listed, id) + if task == id then [s] else [] {
      ServicesOfSnoc(listed, s, id);
    }
    if task !in m { ServicesOfNone(listed, task); }
  }

  /** From c to c' only calls were made that change nothing. */
  predicate OnlyCalls(c: Consul, c': Consul) {
    c.calls <= c'.calls && c' == c.(calls := c'.calls)
  }

  /** fetchACLState: the tokens of the partition, listed namespace by namespace. */
  method FetchACLState(l: Lister, parse: Parser, consul: Servers)
      returns (r: Result<States, ()>, ghost listed: seq<Token>)
    modifies consul
    ensures OnlyCalls(old(consul.state), consul.state)
    ensures r.Ok? <==> AllSucceeded(consul.ok, old(consul.state.calls), consul.state.calls)
    ensures r.Ok? ==> Lists(listed, VisibleTokens(l, old(consul.state))) && TokensGrouped(l, parse, listed, r.value)
  {
    ghost var c := consul.state;
    var namespaces := [""];
    listed := [];
    if l.PartitionsEnabled() {
      var list := consul.ListNamespaces();
      if list.Err? { return Err(()), listed; }
      namespaces := list.value;
    }
    var acl: States := map[];
    for i := 0 to |namespaces|
      invariant OnlyCalls(c, consul.state) && AllSucceeded(consul.ok, c.calls, consul.state.calls)
      invariant Distinct(namespaces)
      invariant Lists(listed, set t | t in c.tokens && t.partition == l.partition && t.namespace in namespaces[..i])
      invariant TokensGrouped(l, parse, listed, acl)
    {
      var tokens := consul.ListTokens(l.partition, namespaces[i]);
      if tokens.Err? { return Err(()), listed; }
      ghost var before, after := listed, consul.state;
      for j := 0 to |tokens.value|
        invariant consul.state == after && listed == before + tokens.value[..j] && TokensGrouped(l, parse, listed, acl)
      {
        var t := tokens.value[j];
        assert before + tokens.value[..j + 1] == before + tokens.value[..j] + [t];
        match TokenTask(l, parse, t)
        case None =>
          SkipToken(l, parse, listed, acl, t);
          listed := listed + [t];
        case Some(id) =>
          GroupToken(l, parse, listed, acl, t, id);
          listed := listed + [t];
          var state := if id in acl then acl[id] else NewTaskState(id, l.cluster);
          acl := acl[id := state.(tokens := state.tokens + [t])];
      }
      assert tokens.value[..|tokens.value|] == tokens.value;
      ListNamespace(c.tokens, l.partition, namespaces, i, before, tokens.value);
    }
    assert namespaces[..|namespaces|] == namespaces;
    ghost var all := set t | t in c.tokens && t.partition == l.partition && t.namespace in namespaces;
    assert all == VisibleTokens(l, c);
    r := Ok(acl);
  }

  /** Adding one more namespace's tokens to those listed so far. */
  lemma ListNamespace(tokens: set<Token>, partition: string, namespaces: seq<string>, i: nat, before: seq<Token>,
      more: seq<Token>)
    requires i < |namespaces| && Distinct(namespaces)
    requires Lists(before, set t | t in tokens && t.partition == partition && t.namespace in namespaces[..i])
    requires Lists(more, set t | t in tokens && t.partition == partition && t.namespace == namespaces[i])
    ensures Lists(before + more, set t | t in tokens && t.partition == partition && t.namespace in namespaces[..i + 1])
  {
    assert namespaces[..i + 1] == namespaces[..i] + [namespaces[i]];
    forall j, k | 0 <= j < |before| && 0 <= k < |more| ensures before[j] != more[k] {
      assert before[j] in before && more[k] in more;
      assert before[j].namespace in namespaces[..i] && more[k].namespace == namespaces[i];
    }
  }

  /** fetchServiceStateForTasks: one service without a task ID fails it all. */
  method FetchServiceState(l: Lister, consul: Servers) returns (r: Result<States, ()>, ghost listed: seq<Service>)
    modifies consul
    ensures OnlyCalls(old(consul.state), consul.state)
    ensures r.Ok? <==>
      && AllSucceeded(consul.ok, old(consul.state.calls), consul.state.calls)
      && forall s :: s in VisibleServices(l, old(consul.state)) ==> ServiceTask(s).Some?
    ensures r.Ok? ==> Lists(listed, VisibleServices(l, old(consul.state))) && ServicesGrouped(l, listed, r.value)
  {
    ghost var c := consul.state;
    listed := [];
    var list := consul.ListNodeServices(l.cluster, l.partition, l.PartitionsEnabled());
    if list.Err? { return Err(()), listed; }
    var services := list.value;
    assert Lists(services, VisibleServices(l, c)) by {
      assert VisibleServices(l, c) ==
        set s | s in c.services && s.node == l.cluster && s.partition == l.partition
                && (l.PartitionsEnabled() || s.namespace == "");
    }
    listed := services;
    r := GroupServices(l, services);
  }

  /** The services by task, if all name their task. */
  method GroupServices(l: Lister, services: seq<Service>) returns (r: Result<States, ()>)
    ensures r.Ok? <==> forall s :: s in services ==> ServiceTask(s).Some?
    ensures r.Ok? ==> ServicesGrouped(l, services, r.value)
  {
    var failed := false;
    var state: States := map[];
    for i := 0 to |services|
      invariant !failed <==> forall s :: s in services[..i] ==> ServiceTask(s).Some?
      invariant !failed ==> ServicesGrouped(l, services[..i], state)
    {
      var s := services[i];
      assert services[..i + 1] == services[..i] + [s];
      match ServiceTask(s)
      case None => failed := true;
      case Some(id) =>
        if !failed { GroupService(l, services[..i], state, s); }
        var known := if id in state then state[id] else NewTaskState(id, l.cluster);
        state := state[id := known.(services := known.services + [s])];
    }
    assert services[..|services|] == services;
    return if failed then Err(()) else Ok(state);
  }

  function Merged(m: States, other: States, id: TaskID): TaskState
    requires id in m.Keys + other.Keys
  {
    if id !in other then m[id] else if id !in m then other[id]
    else m[id].(tokens := m[id].tokens + other[id].tokens, services := m[id].services + other[id].services)
  }

  /** Adds the tokens and services of other to the states in m, state by state. */
  method Merge(m: States, other: States) returns (r: States)
    ensures r.Keys == m.Keys + other.Keys
    ensures forall id :: id in r ==> r[id] == Merged(m, other, id)
  {
    r := m;
    var rest := other.Keys;
    while rest != {}
      invariant rest <= other.Keys && r.Keys == m.Keys + (other.Keys - rest)
      invariant forall id :: id in r ==> r[id] == if id in rest then m[id] else Merged(m, other, id)
    {
      var id :| id in rest;
      r := r[id := if id !in m then other[id]
                   else m[id].(tokens := m[id].tokens + other[id].tokens,
                     services := m[id].services + other[id].services)];
      rest := rest - {id};
    }
  }

  lemma MergedState(l: Lister, parse: Parser, ecs: States, tokens: seq<Token>, services: seq<Service>, acl: States,
      svc: States, a: States, id: TaskID)
    requires id in ecs ==> ecs[id].tokens == [] && ecs[id].services == []
    requires TokensGrouped(l, parse, tokens, acl) && ServicesGrouped(l, services, svc)
    requires a.Keys == ecs.Keys + acl.Keys && (id in a ==> a[id] == Merged(ecs, acl, id)) && id in a.Keys + svc.Keys
    ensures Merged(a, svc, id) == (if id in ecs then ecs[id] else NewTaskState(id, l.cluster))
      .(tokens := TokensOf(l, parse, tokens, id), services := ServicesOf(services, id))
  {
    var start := if id in ecs then ecs[id] else NewTaskState(id, l.cluster);
    if id !in svc { ServicesOfNone(services, id); }
    if id in a {
      MergedTokens(l, parse, ecs, tokens, acl, id);
    } else {
      TokensOfNone(l, parse, tokens, id);
    }
  }

  lemma MergedTokens(l: Lister, parse: Parser, ecs: States, tokens: seq<Token>, acl: States, id: TaskID)
    requires id in ecs ==> ecs[id].tokens == [] && ecs[id].services == []
    requires TokensGrouped(l, parse, tokens, acl) && id in ecs.Keys + acl.Keys
    ensures Merged(ecs, acl, id) ==
      (if id in ecs then ecs[id] else NewTaskState(id, l.cluster)).(tokens := TokensOf(l, parse, tokens, id))
  {
    if id !in acl { TokensOfNone(l, parse, tokens, id); }
  }

  lemma MergedIsJoined(l: Lister, parse: Parser, ecs: States, tokens: seq<Token>, services: seq<Service>, acl: States,
      svc: States, a: States, b: States)
    requires forall id :: id in ecs ==> ecs[id].tokens == [] && ecs[id].services == []
    requires TokensGrouped(l, parse, tokens, acl) && ServicesGrouped(l, services, svc)
    requires a.Keys == ecs.Keys + acl.Keys && b.Keys == a.Keys + svc.Keys
    requires forall id :: id in a ==> a[id] == Merged(ecs, acl, id)
    requires forall id :: id in b ==> b[id] == Merged(a, svc, id)
    ensures b == Joined(l, parse, ecs, tokens, services)
  {
    var j := Joined(l, parse, ecs, tokens, services);
    assert b.Keys == j.Keys;
    forall id | id in b ensures b[id] == j[id] {
      MergedState(l, parse, ecs, tokens, services, acl, svc, a, id);
    }
  }

  method EnumerateStates(m: States) returns (resources: seq<TaskState>)
    requires forall id :: id in m ==> m[id].taskID == id
    ensures ResourcesOf(resources, m)
  {
    resources := [];
    var rest := m.Keys;
    while rest != {}
      invariant rest <= m.Keys && |resources| + |rest| == |m|
      invariant forall x :: x in resources ==> x.taskID in m && m[x.taskID] == x
      invariant forall id :: id in m && id !in rest ==> m[id] in resources
    {
      var id :| id in rest;
      resources, rest := resources + [m[id]], rest - {id};
    }
  }

  lemma VisibleUnchanged(l: Lister, c: Consul, c': Consul)
    requires OnlyCalls(c, c')
    ensures VisibleTokens(l, c') == VisibleTokens(l, c) && VisibleServices(l, c') == VisibleServices(l, c)
  {
  }

  /** ECS is read once there is a client for Consul, and before anything is read from
      Consul: a failure of the one leaves the other unread. */
  predicate EcsFirst(ok: Oracle, calls: nat, calls': nat, ecs: Oracle, ecsCalls: nat, ecsCalls': nat) {
    && (!ok(calls) ==> ecsCalls' == ecsCalls && calls' == calls + 1)
    && (!AllSucceeded(ecs, ecsCalls, ecsCalls') ==> calls' == calls + 1)
  }

  /** The three sources, ECS first. */
  method ReadSources(l: Lister, parse: Parser, client: EcsClient, consul: Servers)
    returns (r: Result<(States, States, States), ()>, ghost tokens: seq<Token>, ghost services: seq<Service>)
    modifies client`calls, consul
    ensures OnlyCalls(old(consul.state), consul.state)
    ensures EcsFirst(consul.ok, old(consul.state.calls), consul.state.calls, client.ok, old(client.calls), client.calls)
    ensures r.Ok? <==>
      && AllSucceeded(consul.ok, old(consul.state.calls), consul.state.calls)
      && AllSucceeded(client.ok, old(client.calls), client.calls)
      && forall s :: s in VisibleServices(l, old(consul.state)) ==> ServiceTask(s).Some?
    ensures r.Ok? ==>
      && Lists(tokens, VisibleTokens(l, old(consul.state))) && TokensGrouped(l, parse, tokens, r.value.1)
      && Lists(services, VisibleServices(l, old(consul.state))) && ServicesGrouped(l, services, r.value.2)
      && Fetched(l, client.tasks, client.pageEnd, r.value.0)
  {
    tokens, services := [], [];
    ghost var c0 := consul.state;
    var err := consul.Read();
    if err { r := Err(()); return; }
    var ecs := FetchECSTasks(l, client);
    if ecs.Err? { r := Err(()); return; }
    var acl;
    acl, tokens := FetchACLState(l, parse, consul);
    if acl.Err? { r := Err(()); return; }
    ghost var c2 := consul.state;
    VisibleUnchanged(l, c0, c2);
    var svc;
    svc, services := FetchServiceState(l, consul);
    if svc.Err? { r := Err(()); return; }
    r := Ok((ecs.value, acl.value, svc.value));
  }

  /** List. If it succeeds, the resources are those of a round's reads; if any
      source fails there are none. Nothing is written. */
  method List(l: Lister, parse: Parser, client: EcsClient, consul: Servers)
    returns (r: Result<seq<TaskState>, ()>, ghost ecs: States, ghost tokens: seq<Token>, ghost services: seq<Service>)
    modifies client`calls, consul
    ensures OnlyCalls(old(consul.state), consul.state)
    ensures EcsFirst(consul.ok, old(consul.state.calls), consul.state.calls, client.ok, old(client.calls), client.calls)
    ensures r.Ok? <==>
      && AllSucceeded(consul.ok, old(consul.state.calls), consul.state.calls)
      && AllSucceeded(client.ok, old(client.calls), client.calls)
      && forall s :: s in VisibleServices(l, old(consul.state)) ==> ServiceTask(s).Some?
    ensures r.Ok? ==>
      && RoundReads(l, parse, old(consul.state), ecs, tokens, services, r.value)
      && Fetched(l, client.tasks, client.pageEnd, ecs)
  {
    ecs := map[];
    var sources;
    sources, tokens, services := ReadSources(l, parse, client, consul);
    if sources.Err? { r := Err(()); return; }
    var (building, acl, svc) := sources.value;
    ecs := building;
    EcsStates(l, client.tasks, building);
    var withTokens := Merge(building, acl);
    var all := Merge(withTokens, svc);
    MergedIsJoined(l, parse, building, tokens, services, acl, svc, withTokens, all);
    JoinedNamed(l, parse, building, tokens, services);
    var resources := EnumerateStates(all);
    r := Ok(resources);
  }

  lemma JoinedNamed(l: Lister, parse: Parser, ecs: States, tokens: seq<Token>, services: seq<Service>)
    requires forall id :: id in ecs ==> ecs[id].taskID == id
    ensures forall id :: id in Joined(l, parse, ecs, tokens, services) ==>
      Joined(l, parse, ecs, tokens, services)[id].taskID == id
  {
  }

  lemma EcsStates(l: Lister, tasks: seq<EcsTask>, ecs: States)
    requires Sound(l, tasks, ecs)
    ensures forall id :: id in ecs ==>
      ecs[id].taskID == id && ecs[id].found && ecs[id].tokens == [] && ecs[id].services == []
  {
    forall id | id in ecs
      ensures ecs[id].taskID == id && ecs[id].found && ecs[id].tokens == [] && ecs[id].services == []
    {
      assert Sourced(l, tasks, id, ecs[id]);
    }
  }

  // One round

  /** TaskState.Delete. */
  method DeleteTaskTokens(consul: Servers, r: TaskState) returns (err: bool)
    modifies consul
    ensures Outcome(consul.state, err) == DeleteTokens(consul.ok, old(consul.state), r.tokens)
  {
    for i := 0 to |r.tokens|
      invariant Outcome(consul.state, false) == DeleteTokens(consul.ok, old(consul.state), r.tokens[..i])
    {
      assert r.tokens[..i + 1][..i] == r.tokens[..i];
      err := consul.TokenDelete(r.tokens[i]);
      if err {
        StaysFailed(consul.ok, old(consul.state), r.tokens, i + 1);
        return;
      }
    }
    assert r.tokens[..|r.tokens|] == r.tokens;
    return false;
  }

  lemma {:induction false} StaysFailed(ok: Oracle, c: Consul, tokens: seq<Token>, i: nat)
    requires i <= |tokens| && DeleteTokens(ok, c, tokens[..i]).failed
    ensures DeleteTokens(ok, c, tokens) == DeleteTokens(ok, c, tokens[..i])
    decreases |tokens|
  {
    if i < |tokens| {
      assert tokens[..|tokens| - 1][..i] == tokens[..i];
      StaysFailed(ok, c, tokens[..|tokens| - 1], i);
    } else {
      assert tokens[..i] == tokens;
    }
  }

  /** TaskState.DeregisterServices; it collects errors, but returns none. */
  method DeregisterTaskServices(consul: Servers, r: TaskState) returns (err: bool)
    modifies consul
    ensures consul.state == DeregisterServices(consul.ok, old(consul.state), r.services, r.clusterARN) && !err
  {
    for i := 0 to |r.services|
      invariant consul.state == DeregisterServices(consul.ok, old(consul.state), r.services[..i], r.clusterARN)
    {
      assert r.services[..i + 1][..i] == r.services[..i];
      var _ := consul.Deregister(r.services[i].(node := r.clusterARN));
    }
    assert r.services[..|r.services|] == r.services;
    return false;
  }

  /** TaskState.Reconcile. */
  method ReconcileResource(consul: Servers, r: TaskState) returns (err: bool)
    modifies consul
    ensures Outcome(consul.state, err) == ReconcileTask(consul.ok, old(consul.state), r)
  {
    if r.found { return false; }
    err := consul.Read();
    if err { return; }
    if |r.tokens| > 0 { err := DeleteTaskTokens(consul, r); }
    if |r.services| > 0 {
      var e := DeregisterTaskServices(consul, r);
      err := err || e;
    }
  }

  /** Controller.reconcile: errors of the namespaces or of a resource are
      remembered, and the round goes on. The ghost results say what was read. */
  method Reconcile(l: Lister, parse: Parser, client: EcsClient, consul: Servers)
    returns (err: bool, listed: Option<seq<TaskState>>, ghost order: seq<string>, ghost read: Consul,
             ghost ecs: States, ghost tokens: seq<Token>, ghost services: seq<Service>)
    modifies client`calls, consul
    ensures OnlyCalls(old(consul.state), read)
    ensures listed.None? ==> err && consul.state == read
    ensures listed.Some? ==>
      && RoundReads(l, parse, old(consul.state), ecs, tokens, services, listed.value)
      && Fetched(l, client.tasks, client.pageEnd, ecs)
      && Lists(order, Namespaces.Wanted(listed.value) - read.namespaces.Keys)
      && var ns := Namespaces.ReconcileNamespaces(consul.ok, l, read, order);
         var end := ReconcileTasks(consul.ok, ns.consul, listed.value);
         Outcome(consul.state, err) == end.(failed := ns.failed || end.failed)
    ensures
      (listed.Some? && Identified(old(consul.state.tokens), old(consul.state.services))
        && Housed(l, old(consul.state))) ==>
      Shrinks(l, parse, old(consul.state), consul.state, ecs.Keys)
    ensures listed.Some? ==>
      Perseveres(
        consul.ok, Namespaces.ReconcileNamespaces(consul.ok, l, read, order).consul, listed.value, consul.state)
  {
    order := [];
    var resources;
    resources, ecs, tokens, services := List(l, parse, client, consul);
    read := consul.state;
    if resources.Err? { err, listed := true, None; return; }
    listed := Some(resources.value);
    err, order := Namespaces.Reconcile(l, consul, resources.value);
    ghost var ns, nsErr := consul.state, err;
    assert Outcome(ns, nsErr) == Namespaces.ReconcileNamespaces(consul.ok, l, read, order);
    for i := 0 to |resources.value|
      invariant consul.state == ReconcileTasks(consul.ok, ns, resources.value[..i]).consul
      invariant err == (nsErr || ReconcileTasks(consul.ok, ns, resources.value[..i]).failed)
    {
      assert resources.value[..i + 1][..i] == resources.value[..i];
      var e := ReconcileResource(consul, resources.value[i]);
      if e { err := true; }
    }
    assert resources.value[..|resources.value|] == resources.value;
    AllPersevere(consul.ok, ns, resources.value);
    if Identified(old(consul.state.tokens), old(consul.state.services)) && Housed(l, old(consul.state)) {
      RoundShrinksOrphans(consul.ok, l, parse, old(consul.state), read, ecs, tokens, services, resources.value, order);
    }
  }

  /** From c to c' the orphans, tokens and services together, have become fewer by as
      many as were deleted, and none but orphans was. */
  ghost predicate Shrinks(l: Lister, parse: Parser, c: Consul, c': Consul, ids: set<TaskID>) {
    && c.writes <= c'.writes
    && var deleted, deregistered := Deleted(c'.writes[|c.writes|..]), Deregistered(c'.writes[|c.writes|..]);
    && deleted <= OrphanTokens(l, parse, c, ids) && deregistered <= OrphanServices(l, c, ids)
    && c'.tokens == c.tokens - deleted && c'.services == c.services - deregistered
    && Orphans(l, parse, c', ids) + |deleted| + |deregistered| == Orphans(l, parse, c, ids)
  }

  // Two rounds on a stable world

  /** A round's deletions, after the given reads and namespace order. */
  function RoundEnd(ok: Oracle, l: Lister, read: Consul, order: seq<string>, resources: seq<TaskState>): Outcome {
    ReconcileTasks(ok, Namespaces.ReconcileNamespaces(ok, l, read, order).consul, resources)
  }

  lemma NamespacesKeepTokens(ok: Oracle, l: Lister, c: Consul, resources: seq<TaskState>, order: seq<string>)
    requires Lists(order, Namespaces.Wanted(resources) - c.namespaces.Keys)
    ensures var c' := Namespaces.ReconcileNamespaces(ok, l, c, order).consul;
      && c'.tokens == c.tokens && c'.services == c.services && c.namespaces.Keys <= c'.namespaces.Keys
      && c.calls <= c'.calls
  {
    if l.PartitionsEnabled() { Namespaces.NamespacesReconciled(ok, l, c, resources, order); }
    CallsGrow(ok, Call(ok, Namespaces.UpsertPolicy(ok, Call(ok, c).consul).consul).consul, order);
  }

  lemma {:induction false} CallsGrow(ok: Oracle, c: Consul, names: seq<string>)
    ensures c.calls <= Namespaces.CreateAll(ok, c, names).consul.calls
  {
    if names != [] { CallsGrow(ok, c, names[..|names| - 1]); }
  }

  /** Whole rounds, whatever fails in them and whatever namespaces they create: the
      orphans become fewer by exactly what was deleted. */
  lemma RoundShrinksOrphans(ok: Oracle, l: Lister, parse: Parser, c: Consul, read: Consul, ecs: States,
      tokens: seq<Token>, services: seq<Service>, resources: seq<TaskState>, order: seq<string>)
    requires RoundReads(l, parse, c, ecs, tokens, services, resources) && OnlyCalls(c, read)
    requires Lists(order, Namespaces.Wanted(resources) - read.namespaces.Keys)
    requires Identified(c.tokens, c.services) && Housed(l, c)
    ensures Shrinks(l, parse, c, RoundEnd(ok, l, read, order, resources).consul, ecs.Keys)
  {
    var c1 := Namespaces.ReconcileNamespaces(ok, l, read, order).consul;
    var c2 := RoundEnd(ok, l, read, order, resources).consul;
    NamespacesKeepTokens(ok, l, read, resources, order);
    Namespaces.ReconcileKeepsAll(ok, l, read, order);
    RoundDeletesOrphans(ok, l, parse, c, c1, ecs, tokens, services, resources);
    OrphansOnlyShrink(l, parse, c, c1, c2, ecs.Keys);
    SameDeletions(c, c1, c2);
  }

  lemma SameDeletions(c: Consul, c1: Consul, c2: Consul)
    requires c.writes <= c1.writes <= c2.writes && Namespaces.KeepsAll(c1.writes[|c.writes|..])
    ensures Deleted(c2.writes[|c.writes|..]) == Deleted(c2.writes[|c1.writes|..])
    ensures Deregistered(c2.writes[|c.writes|..]) == Deregistered(c2.writes[|c1.writes|..])
  {
    assert c2.writes[|c.writes|..] == c1.writes[|c.writes|..] + c2.writes[|c1.writes|..];
  }

  /** Whole rounds converge: if none of its calls fails nothing orphaned is left, while
      all that belongs to present tasks is untouched. */
  lemma RoundConverges(ok: Oracle, l: Lister, parse: Parser, c: Consul, read: Consul, ecs: States, tokens: seq<Token>,
      services: seq<Service>, resources: seq<TaskState>, order: seq<string>)
    requires RoundReads(l, parse, c, ecs, tokens, services, resources) && OnlyCalls(c, read)
    requires Lists(order, Namespaces.Wanted(resources) - read.namespaces.Keys)
    requires Identified(c.tokens, c.services) && Housed(l, c)
    requires AllSucceeded(ok, read.calls, RoundEnd(ok, l, read, order, resources).consul.calls)
    ensures var c' := RoundEnd(ok, l, read, order, resources).consul;
      && c'.tokens == c.tokens - OrphanTokens(l, parse, c, ecs.Keys)
      && c'.services == c.services - OrphanServices(l, c, ecs.Keys)
      && OrphanTokens(l, parse, c', ecs.Keys) == {} && OrphanServices(l, c', ecs.Keys) == {}
  {
    NamespacesKeepTokens(ok, l, read, resources, order);
    var c1 := Namespaces.ReconcileNamespaces(ok, l, read, order).consul;
    CleanRoundConverges(ok, l, parse, c, c1, ecs, tokens, services, resources);
  }

  /** A running task of this controller behind an empty page, whatever the page: a
      round without failures takes its tokens. */
  lemma HiddenTaskLosesTokens(ok: Oracle, l: Lister, parse: Parser, c: Consul, read: Consul, ecs: States,
      tokens: seq<Token>, services: seq<Service>, resources: seq<TaskState>, order: seq<string>,
      tasks: seq<EcsTask>, pageEnd: nat -> nat, i: nat, t: Token)
    requires DistinctTaskIDs(l, tasks) && DistinctArns(tasks) && Fetched(l, tasks, pageEnd, ecs)
    requires Stop(pageEnd, |tasks|, 0) <= i < |tasks| && Keep(l, tasks[i]).Some?
    requires RoundReads(l, parse, c, ecs, tokens, services, resources) && OnlyCalls(c, read)
    requires Lists(order, Namespaces.Wanted(resources) - read.namespaces.Keys)
    requires Identified(c.tokens, c.services) && Housed(l, c)
    requires AllSucceeded(ok, read.calls, RoundEnd(ok, l, read, order, resources).consul.calls)
    requires t in VisibleTokens(l, c) && TokenTask(l, parse, t) == Some(Keep(l, tasks[i]).value.taskID)
    ensures t !in RoundEnd(ok, l, read, order, resources).consul.tokens
  {
    BehindEmptyPage(l, tasks, pageEnd, ecs, i);
    RoundConverges(ok, l, parse, c, read, ecs, tokens, services, resources, order);
    assert t in OrphanTokens(l, parse, c, ecs.Keys);
  }

  lemma WantedFromEcs(l: Lister, parse: Parser, c: Consul, ecs: States, tokens: seq<Token>, services: seq<Service>,
      resources: seq<TaskState>, n: string)
    requires RoundReads(l, parse, c, ecs, tokens, services, resources)
    ensures n in Namespaces.Wanted(resources) <==> exists id :: id in ecs && ecs[id].ns == n && n != ""
  {
    var j := Joined(l, parse, ecs, tokens, services);
    if n in Namespaces.Wanted(resources) {
      var r :| r in resources && r.found && r.ns != "" && r.ns == n;
      ResourceWithin(l, parse, c, ecs, tokens, services, resources, r);
      assert ecs[r.taskID].ns == n;
    }
    if id :| id in ecs && ecs[id].ns == n && n != "" {
      assert j[id] in resources && j[id].found && j[id].ns == n;
    }
  }

  /** Where nothing is orphaned or unsettled, a round with the same ECS tasks writes
      nothing at all: no deletion, no namespace, no policy, whether or not its
      calls succeed. */
  lemma SecondRoundWritesNothing(ok: Oracle, l: Lister, parse: Parser, c: Consul, ecs: States,
      tokens: seq<Token>, services: seq<Service>, resources: seq<TaskState>,
      c2: Consul, read2: Consul, tokens2: seq<Token>, services2: seq<Service>, resources2: seq<TaskState>,
      order2: seq<string>)
    requires RoundReads(l, parse, c, ecs, tokens, services, resources)
    requires RoundReads(l, parse, c2, ecs, tokens2, services2, resources2) && OnlyCalls(c2, read2)
    requires OrphanTokens(l, parse, c2, ecs.Keys) == {} && OrphanServices(l, c2, ecs.Keys) == {}
    requires l.PartitionsEnabled() ==> Namespaces.Settled(c2, Namespaces.Wanted(resources))
    requires Lists(order2, Namespaces.Wanted(resources2) - read2.namespaces.Keys)
    ensures OnlyCalls(c2, RoundEnd(ok, l, read2, order2, resources2).consul)
  {
    assert Namespaces.Wanted(resources2) == Namespaces.Wanted(resources) by {
      forall n ensures n in Namespaces.Wanted(resources2) <==> n in Namespaces.Wanted(resources) {
        WantedFromEcs(l, parse, c, ecs, tokens, services, resources, n);
        WantedFromEcs(l, parse, c2, ecs, tokens2, services2, resources2, n);
      }
    }
    if l.PartitionsEnabled() { Namespaces.SettledIdle(ok, l, read2, Namespaces.Wanted(resources), order2); }
    AllPresent(l, parse, c2, ecs, tokens2, services2, resources2);
    NothingToDo(ok, Namespaces.ReconcileNamespaces(ok, l, read2, order2).consul, resources2);
  }

  /** What the second round needs of the namespaces, the first has done. */
  lemma FirstRoundSettles(ok: Oracle, l: Lister, parse: Parser, c: Consul, read: Consul, ecs: States,
      tokens: seq<Token>, services: seq<Service>, resources: seq<TaskState>, order: seq<string>)
    requires RoundReads(l, parse, c, ecs, tokens, services, resources) && OnlyCalls(c, read)
    requires Lists(order, Namespaces.Wanted(resources) - read.namespaces.Keys)
    requires Identified(c.tokens, c.services) && l.PartitionsEnabled()
    requires !Namespaces.ReconcileNamespaces(ok, l, read, order).failed
    ensures Namespaces.Settled(RoundEnd(ok, l, read, order, resources).consul, Namespaces.Wanted(resources))
  {
    Namespaces.ReconciledSettles(ok, l, read, resources, order);
    NamespacesKeepTokens(ok, l, read, resources, order);
    var c1 := Namespaces.ReconcileNamespaces(ok, l, read, order).consul;
    RoundDeletesOrphans(ok, l, parse, c, c1, ecs, tokens, services, resources);
  }

  /** What a whole round without failures takes, in plain terms. */
  lemma RoundExactly(ok: Oracle, l: Lister, parse: Parser, c: Consul, read: Consul, ecs: States, tokens: seq<Token>,
      services: seq<Service>, resources: seq<TaskState>, order: seq<string>)
    requires RoundReads(l, parse, c, ecs, tokens, services, resources) && OnlyCalls(c, read)
    requires Lists(order, Namespaces.Wanted(resources) - read.namespaces.Keys)
    requires Identified(c.tokens, c.services) && Housed(l, c)
    requires AllSucceeded(ok, read.calls, RoundEnd(ok, l, read, order, resources).consul.calls)
    ensures var c' := RoundEnd(ok, l, read, order, resources).consul;
      && (forall t :: t in c'.tokens <==>
            t in c.tokens && !TokenIsOrphan(l, parse, c.namespaces.Keys, ecs.Keys, t))
      && (forall s :: s in c'.services <==> s in c.services && !ServiceIsOrphan(l, ecs.Keys, s))
  {
    RoundConverges(ok, l, parse, c, read, ecs, tokens, services, resources, order);
    OrphansExactly(l, parse, c, ecs.Keys);
  }

  /** And whatever fails, a round takes nothing else. */
  lemma RoundSpares(ok: Oracle, l: Lister, parse: Parser, c: Consul, read: Consul, ecs: States, tokens: seq<Token>,
      services: seq<Service>, resources: seq<TaskState>, order: seq<string>)
    requires RoundReads(l, parse, c, ecs, tokens, services, resources) && OnlyCalls(c, read)
    requires Lists(order, Namespaces.Wanted(resources) - read.namespaces.Keys)
    requires Identified(c.tokens, c.services) && Housed(l, c)
    ensures var c' := RoundEnd(ok, l, read, order, resources).consul;
      && (forall t :: t in c.tokens && t !in c'.tokens ==>
            TokenIsOrphan(l, parse, c.namespaces.Keys, ecs.Keys, t))
      && (forall s :: s in c.services && s !in c'.services ==> ServiceIsOrphan(l, ecs.Keys, s))
  {
    RoundShrinksOrphans(ok, l, parse, c, read, ecs, tokens, services, resources, order);
    OrphansExactly(l, parse, c, ecs.Keys);
  }

  /** Two rounds, one after the other, with nothing happening in between. If no call of
      the first fails, nor the first itself, the second changes nothing, whatever
      fails in it. */
  method TwoRounds(l: Lister, parse: Parser, client: EcsClient, consul: Servers)
      returns (err1: bool, err2: bool, ghost middle: Consul)
    requires Identified(consul.state.tokens, consul.state.services) && Housed(l, consul.state)
    requires DistinctTaskIDs(l, client.tasks) && NonEmptyPages(client.pageEnd, |client.tasks|)
    modifies client`calls, consul
    ensures !err1 && AllSucceeded(consul.ok, old(consul.state.calls), middle.calls) ==>
      var ids := Snapshot(l, client.tasks).Keys;
      && (forall id :: id in ids <==> Runs(l, client.tasks, id))
      && (forall t :: t in middle.tokens <==>
            && t in old(consul.state.tokens)
            && !TokenIsOrphan(l, parse, old(consul.state.namespaces.Keys), ids, t))
      && (forall s :: s in middle.services <==> s in old(consul.state.services) && !ServiceIsOrphan(l, ids, s))
      && OnlyCalls(middle, consul.state)
  {
    ghost var c := consul.state;
    var listed, listed2;
    ghost var order, read, ecs, tokens, services;
    err1, listed, order, read, ecs, tokens, services := Reconcile(l, parse, client, consul);
    middle := consul.state;
    ghost var order2, read2, ecs2, tokens2, services2;
    err2, listed2, order2, read2, ecs2, tokens2, services2 := Reconcile(l, parse, client, consul);
    if !err1 && AllSucceeded(consul.ok, c.calls, middle.calls) {
      RoundConverges(consul.ok, l, parse, c, read, ecs, tokens, services, listed.value, order);
      RoundExactly(consul.ok, l, parse, c, read, ecs, tokens, services, listed.value, order);
      forall id ensures id in ecs <==> Runs(l, client.tasks, id) {
        FetchedExactly(l, client.tasks, client.pageEnd, ecs, id);
      }
      if l.PartitionsEnabled() {
        FirstRoundSettles(consul.ok, l, parse, c, read, ecs, tokens, services, listed.value, order);
      }
      if listed2.Some? {
        SecondRoundWritesNothing(consul.ok, l, parse, c, ecs, tokens, services, listed.value,
          middle, read2, tokens2, services2, listed2.value, order2);
      }
    }
  }
}
