/** controller/resource.go and controller/controller.go: joining what ECS, the
    ACL store and the catalog know of each task, and removing what belongs to
    tasks that are gone. */
module Cleanup {
  import opened Prelude
  import opened TaskMetadata
  import opened EcsTasks
  import opened ConsulApi

  const TASK_ID_META := "task-id"

  /** The metadata a login leaves in the token's description; reading it may fail. */
  datatype TokenMeta = TokenMeta(taskID: TaskID, cluster: string)

  type Parser = string -> Option<TokenMeta>

  /** The task a token belongs to, if its description parses and names this cluster. */
  function TokenTask(l: Lister, parse: Parser, t: Token): Option<TaskID> {
    match parse(t.description)
    case Some(meta) =>
      if meta.taskID == "" || meta.cluster == "" || meta.cluster != l.cluster then None else Some(meta.taskID)
    case None => None
  }

  function ServiceTask(s: Service): Option<TaskID> {
    if TASK_ID_META in s.meta then Some(s.meta[TASK_ID_META]) else None
  }

  /** The tokens of one task among those listed, in that order. */
  function TokensOf(l: Lister, parse: Parser, listed: seq<Token>, id: TaskID): seq<Token> {
    if listed == [] then []
    else
      var last := listed[|listed| - 1];
      TokensOf(l, parse, listed[..|listed| - 1], id) + if TokenTask(l, parse, last) == Some(id) then [last] else []
  }

  function ServicesOf(listed: seq<Service>, id: TaskID): seq<Service> {
    if listed == [] then []
    else
      var last := listed[|listed| - 1];
      ServicesOf(listed[..|listed| - 1], id) + if ServiceTask(last) == Some(id) then [last] else []
  }

  function TokenTasks(l: Lister, parse: Parser, listed: seq<Token>): set<TaskID> {
    set t | t in listed && TokenTask(l, parse, t).Some? :: TokenTask(l, parse, t).value
  }

  function ServiceTasks(listed: seq<Service>): set<TaskID> {
    set s | s in listed && ServiceTask(s).Some? :: ServiceTask(s).value
  }

  /** One state per task that any of the three sources knows. */
  function Joined(l: Lister, parse: Parser, ecs: States, tokens: seq<Token>, services: seq<Service>): States {
    map id | id in ecs.Keys + TokenTasks(l, parse, tokens) + ServiceTasks(services) ::
      (if id in ecs then ecs[id] else NewTaskState(id, l.cluster))
        .(tokens := TokensOf(l, parse, tokens, id), services := ServicesOf(services, id))
  }

  // Conservation

  lemma {:induction false} TokensOfExact(l: Lister, parse: Parser, listed: seq<Token>, id: TaskID)
    ensures forall t :: multiset(TokensOf(l, parse, listed, id))[t] ==
                        (if TokenTask(l, parse, t) == Some(id) then multiset(listed)[t] else 0)
  {
    if listed != [] {
      TokensOfExact(l, parse, listed[..|listed| - 1], id);
      assert listed == listed[..|listed| - 1] + [listed[|listed| - 1]];
    }
  }

  lemma {:induction false} ServicesOfExact(listed: seq<Service>, id: TaskID)
    ensures forall s :: multiset(ServicesOf(listed, id))[s] ==
                        (if ServiceTask(s) == Some(id) then multiset(listed)[s] else 0)
  {
    if listed != [] {
      ServicesOfExact(listed[..|listed| - 1], id);
      assert listed == listed[..|listed| - 1] + [listed[|listed| - 1]];
    }
  }

  /** Every listed token that parses for this cluster is in the state of its own
      task as often as it was listed, and in no other; likewise every listed
      service; and a task counts as found exactly if ECS returned it. */
  lemma JoinConserves(l: Lister, parse: Parser, ecs: States, tokens: seq<Token>, services: seq<Service>, id: TaskID)
    requires forall k :: k in ecs ==> ecs[k].found
    ensures var j := Joined(l, parse, ecs, tokens, services);
      && (forall t :: t in tokens && TokenTask(l, parse, t) == Some(id) ==> id in j)
      && (forall s :: s in services && ServiceTask(s) == Some(id) ==> id in j)
      && (id in j ==>
            && (j[id].found <==> id in ecs)
            && (forall t :: multiset(j[id].tokens)[t] ==
                  if TokenTask(l, parse, t) == Some(id) then multiset(tokens)[t] else 0)
            && (forall s :: multiset(j[id].services)[s] ==
                  if ServiceTask(s) == Some(id) then multiset(services)[s] else 0))
  {
    TokensOfExact(l, parse, tokens, id);
    ServicesOfExact(services, id);
    forall t | t in tokens && TokenTask(l, parse, t) == Some(id) ensures id in Joined(l, parse, ecs, tokens, services) {
      assert id in TokenTasks(l, parse, tokens);
    }
    forall s | s in services && ServiceTask(s) == Some(id) ensures id in Joined(l, parse, ecs, tokens, services) {
      assert id in ServiceTasks(services);
    }
  }

  // What the controller sees

  /** The tokens that fetchACLState lists. */
  predicate TokenVisible(l: Lister, namespaces: set<string>, t: Token) {
    t.partition == l.partition && if l.PartitionsEnabled() then t.namespace in namespaces else t.namespace == ""
  }

  function VisibleTokens(l: Lister, c: Consul): set<Token> {
    set t | t in c.tokens && TokenVisible(l, c.namespaces.Keys, t)
  }

  /** The services on the cluster's node, in all namespaces if there are any. */
  function VisibleServices(l: Lister, c: Consul): set<Service> {
    set s | s in c.services && s.node == l.cluster && s.partition == l.partition
            && (l.PartitionsEnabled() || s.namespace == "")
  }

  // Reconciling a task

  /** Delete: it stops at the first token that cannot be deleted. */
  function DeleteTokens(ok: Oracle, c: Consul, tokens: seq<Token>): Outcome {
    if tokens == [] then Outcome(c, false)
    else
      var before := DeleteTokens(ok, c, tokens[..|tokens| - 1]);
      if before.failed then before else DeleteToken(ok, before.consul, tokens[|tokens| - 1])
  }

  /** DeregisterServices: it goes on after a failure, and reports none. */
  function DeregisterServices(ok: Oracle, c: Consul, services: seq<Service>, node: string): Consul {
    if services == [] then c
    else
      var before := DeregisterServices(ok, c, services[..|services| - 1], node);
      DeregisterService(ok, before, services[|services| - 1].(node := node)).consul
  }

  /** TaskState.Reconcile. */
  function ReconcileTask(ok: Oracle, c: Consul, r: TaskState): Outcome {
    if r.found then Outcome(c, false)
    else
      var client := Call(ok, c);
      if client.failed then client
      else
        var deleted := DeleteTokens(ok, client.consul, r.tokens);
        Outcome(DeregisterServices(ok, deleted.consul, r.services, r.clusterARN), deleted.failed)
  }

  /** The loop over the resources goes on after errors. */
  function ReconcileTasks(ok: Oracle, c: Consul, resources: seq<TaskState>): Outcome {
    if resources == [] then Outcome(c, false)
    else
      var before := ReconcileTasks(ok, c, resources[..|resources| - 1]);
      var o := ReconcileTask(ok, before.consul, resources[|resources| - 1]);
      Outcome(o.consul, before.failed || o.failed)
  }

  // What a sequence of deletions does

  function Deleted(writes: seq<Write>): set<Token> {
    set w | w in writes && w.TokenDelete? && w.ok :: w.token
  }

  function Deregistered(writes: seq<Write>): set<Service> {
    set w | w in writes && w.ServiceDeregister? && w.ok :: w.service
  }

  predicate Targets(w: Write, tokens: set<Token>, services: set<Service>) {
    (w.TokenDelete? && w.token in tokens) || (w.ServiceDeregister? && w.service in services)
  }

  /** From c to c' exactly those tokens and services are gone whose deletion
      succeeded, nothing is added, and nothing but these was asked for. */
  predicate Deletes(c: Consul, c': Consul, tokens: set<Token>, services: set<Service>) {
    && c.calls <= c'.calls && c.writes <= c'.writes
    && c'.namespaces == c.namespaces && c'.policy == c.policy
    && c'.tokens == c.tokens - Deleted(c'.writes[|c.writes|..])
    && c'.services == c.services - Deregistered(c'.writes[|c.writes|..])
    && (forall w :: w in c'.writes[|c.writes|..] ==> Targets(w, tokens, services))
  }

  lemma DeletesOneMore(c: Consul, c1: Consul, c2: Consul, w: Write, tokens: set<Token>, services: set<Service>)
    requires Deletes(c, c1, tokens, services) && Targets(w, tokens, services)
    requires c2.writes == c1.writes + [w] && c1.calls <= c2.calls
    requires c2.namespaces == c1.namespaces && c2.policy == c1.policy
    requires c2.tokens == c1.tokens - Deleted([w]) && c2.services == c1.services - Deregistered([w])
    ensures Deletes(c, c2, tokens, services)
  {
    var before, after := c1.writes[|c.writes|..], c2.writes[|c.writes|..];
    assert after == before + [w];
    assert Deleted(after) == Deleted(before) + Deleted([w]);
    assert Deregistered(after) == Deregistered(before) + Deregistered([w]);
  }

  lemma DeleteTokenDeletes(ok: Oracle, c: Consul, c1: Consul, t: Token, tokens: set<Token>, services: set<Service>)
    requires Deletes(c, c1, tokens, services) && t in tokens
    requires Identified(c.tokens + tokens, c.services + services)
    ensures Deletes(c, DeleteToken(ok, c1, t).consul, tokens, services)
  {
    var c2, w := DeleteToken(ok, c1, t).consul, Write.TokenDelete(t, ok(c1.calls));
    assert w in [w] && Deleted([w]) == (if w.ok then {t} else {}) && Deregistered([w]) == {};
    assert c2.tokens == c1.tokens - Deleted([w]);
    DeletesOneMore(c, c1, c2, w, tokens, services);
  }

  lemma DeregisterDeletes(ok: Oracle, c: Consul, c1: Consul, s: Service, tokens: set<Token>, services: set<Service>)
    requires Deletes(c, c1, tokens, services) && s in services
    requires Identified(c.tokens + tokens, c.services + services)
    ensures Deletes(c, DeregisterService(ok, c1, s).consul, tokens, services)
  {
    var c2, w := DeregisterService(ok, c1, s).consul, ServiceDeregister(s, ok(c1.calls));
    assert w in [w] && Deregistered([w]) == (if w.ok then {s} else {}) && Deleted([w]) == {};
    assert c2.services == c1.services - Deregistered([w]);
    DeletesOneMore(c, c1, c2, w, tokens, services);
  }

  lemma {:induction false} DeleteTokensDeletes(ok: Oracle, c: Consul, c1: Consul, list: seq<Token>,
      tokens: set<Token>, services: set<Service>)
    requires Deletes(c, c1, tokens, services) && forall t :: t in list ==> t in tokens
    requires Identified(c.tokens + tokens, c.services + services)
    ensures var o := DeleteTokens(ok, c1, list);
      && Deletes(c, o.consul, tokens, services) && c1.calls <= o.consul.calls && o.consul.tokens <= c1.tokens
      && (!o.failed ==> forall t :: t in list ==> t !in o.consul.tokens)
      && (!o.failed <==> AllSucceeded(ok, c1.calls, o.consul.calls))
  {
    if list != [] {
      var rest := list[..|list| - 1];
      DeleteTokensDeletes(ok, c, c1, rest, tokens, services);
      DeleteTokenDeletes(ok, c, DeleteTokens(ok, c1, rest).consul, list[|list| - 1], tokens, services);
      assert list == rest + [list[|list| - 1]];
    }
  }

  lemma {:induction false} DeregisterServicesDeletes(ok: Oracle, c: Consul, c1: Consul, list: seq<Service>,
      node: string, tokens: set<Token>, services: set<Service>)
    requires Deletes(c, c1, tokens, services) && forall s :: s in list ==> s in services && s.node == node
    requires Identified(c.tokens + tokens, c.services + services)
    ensures var c2 := DeregisterServices(ok, c1, list, node);
      && Deletes(c, c2, tokens, services) && c1.calls <= c2.calls
      && c2.tokens == c1.tokens && c2.services <= c1.services
      && (AllSucceeded(ok, c1.calls, c2.calls) ==> forall s :: s in list ==> s !in c2.services)
  {
    if list != [] {
      var rest := list[..|list| - 1];
      DeregisterServicesDeletes(ok, c, c1, rest, node, tokens, services);
      DeregisterDeletes(ok, c, DeregisterServices(ok, c1, rest, node), list[|list| - 1], tokens, services);
      assert list == rest + [list[|list| - 1]];
    }
  }

  /** What an absent task's state may lead to being deleted. */
  predicate Within(r: TaskState, tokens: set<Token>, services: set<Service>) {
    r.found ||
      ((forall t :: t in r.tokens ==> t in tokens)
        && (forall s :: s in r.services ==> s in services && s.node == r.clusterARN))
  }

  lemma CallDeletesNothing(ok: Oracle, c: Consul, c1: Consul, tokens: set<Token>, services: set<Service>)
    requires Deletes(c, c1, tokens, services)
    ensures Deletes(c, Call(ok, c1).consul, tokens, services)
  {
  }

  lemma ReconcileTaskDeletes(ok: Oracle, c: Consul, c1: Consul, r: TaskState, tokens: set<Token>,
      services: set<Service>)
    requires Deletes(c, c1, tokens, services) && Within(r, tokens, services)
    requires Identified(c.tokens + tokens, c.services + services)
    ensures var o := ReconcileTask(ok, c1, r);
      && Deletes(c, o.consul, tokens, services) && c1.calls <= o.consul.calls
      && o.consul.tokens <= c1.tokens && o.consul.services <= c1.services
      && (!o.failed && !r.found ==> forall t :: t in r.tokens ==> t !in o.consul.tokens)
      && (AllSucceeded(ok, c1.calls, o.consul.calls) ==>
          !o.failed && (!r.found ==> forall s :: s in r.services ==> s !in o.consul.services))
  {
    if !r.found {
      CallDeletesNothing(ok, c, c1, tokens, services);
      var c2 := Call(ok, c1).consul;
      DeleteTokensDeletes(ok, c, c2, r.tokens, tokens, services);
      DeregisterServicesDeletes(ok, c, DeleteTokens(ok, c2, r.tokens).consul, r.services, r.clusterARN, tokens,
        services);
      TokensOnly(ok, c2, r.tokens);
    }
  }

  lemma {:induction false} TokensOnly(ok: Oracle, c: Consul, list: seq<Token>)
    ensures DeleteTokens(ok, c, list).consul.services == c.services
  {
    if list != [] { TokensOnly(ok, c, list[..|list| - 1]); }
  }

  lemma {:induction false} ReconcileTasksDeletes(ok: Oracle, c: Consul, resources: seq<TaskState>, tokens: set<Token>,
      services: set<Service>)
    requires forall r :: r in resources ==> Within(r, tokens, services)
    requires Identified(c.tokens + tokens, c.services + services)
    ensures var o := ReconcileTasks(ok, c, resources);
      && Deletes(c, o.consul, tokens, services)
      && (!o.failed ==> forall r, t :: r in resources && !r.found && t in r.tokens ==> t !in o.consul.tokens)
      && (AllSucceeded(ok, c.calls, o.consul.calls) ==> !o.failed)
      && (AllSucceeded(ok, c.calls, o.consul.calls) ==>
            forall r, s :: r in resources && !r.found && s in r.services ==> s !in o.consul.services)
  {
    if resources != [] {
      var rest, last := resources[..|resources| - 1], resources[|resources| - 1];
      ReconcileTasksDeletes(ok, c, rest, tokens, services);
      ReconcileTaskDeletes(ok, c, ReconcileTasks(ok, c, rest).consul, last, tokens, services);
      assert resources == rest + [last];
    }
  }

  // Rounds

  /** What belongs to tasks of this cluster that a read of ECS did not return. */
  function OrphanTokens(l: Lister, parse: Parser, c: Consul, ids: set<TaskID>): set<Token> {
    set t | t in VisibleTokens(l, c) && TokenTask(l, parse, t).Some? && TokenTask(l, parse, t).value !in ids
  }

  function OrphanServices(l: Lister, c: Consul, ids: set<TaskID>): set<Service> {
    set s | s in VisibleServices(l, c) && ServiceTask(s).Some? && ServiceTask(s).value !in ids
  }

  /** The states of m in some order, each once. */
  ghost predicate ResourcesOf(resources: seq<TaskState>, m: States) {
    && |resources| == |m|
    && (forall r :: r in resources ==> r.taskID in m && m[r.taskID] == r)
    && (forall id :: id in m ==> m[id].taskID == id && m[id] in resources)
  }

  lemma {:induction false} InTokensOf(l: Lister, parse: Parser, listed: seq<Token>, id: TaskID, t: Token)
    ensures t in TokensOf(l, parse, listed, id) <==> t in listed && TokenTask(l, parse, t) == Some(id)
  {
    if listed != [] {
      InTokensOf(l, parse, listed[..|listed| - 1], id, t);
      assert listed == listed[..|listed| - 1] + [listed[|listed| - 1]];
    }
  }

  lemma {:induction false} InServicesOf(listed: seq<Service>, id: TaskID, s: Service)
    ensures s in ServicesOf(listed, id) <==> s in listed && ServiceTask(s) == Some(id)
  {
    if listed != [] {
      InServicesOf(listed[..|listed| - 1], id, s);
      assert listed == listed[..|listed| - 1] + [listed[|listed| - 1]];
    }
  }

  /** A round's view: what it read, and the resources it made of it. */
  ghost predicate RoundReads(l: Lister, parse: Parser, c: Consul, ecs: States, tokens: seq<Token>,
      services: seq<Service>, resources: seq<TaskState>) {
    && (forall id :: id in ecs ==> ecs[id].found)
    && Lists(tokens, VisibleTokens(l, c)) && Lists(services, VisibleServices(l, c))
    && ResourcesOf(resources, Joined(l, parse, ecs, tokens, services))
  }

  lemma ResourceWithin(l: Lister, parse: Parser, c: Consul, ecs: States, tokens: seq<Token>, services: seq<Service>,
      resources: seq<TaskState>, r: TaskState)
    requires RoundReads(l, parse, c, ecs, tokens, services, resources) && r in resources
    ensures Within(r, OrphanTokens(l, parse, c, ecs.Keys), OrphanServices(l, c, ecs.Keys))
    ensures r.found <==> r.taskID in ecs
  {
    JoinConserves(l, parse, ecs, tokens, services, r.taskID);
    if !r.found {
      forall t | t in r.tokens ensures t in OrphanTokens(l, parse, c, ecs.Keys) {
        InTokensOf(l, parse, tokens, r.taskID, t);
      }
      forall s | s in r.services ensures s in OrphanServices(l, c, ecs.Keys) && s.node == r.clusterARN {
        InServicesOf(services, r.taskID, s);
      }
    }
  }

  lemma OrphanHasResource(l: Lister, parse: Parser, c: Consul, ecs: States, tokens: seq<Token>,
      services: seq<Service>, resources: seq<TaskState>)
    requires RoundReads(l, parse, c, ecs, tokens, services, resources)
    ensures forall t :: t in OrphanTokens(l, parse, c, ecs.Keys) ==>
      exists r :: r in resources && !r.found && t in r.tokens
    ensures forall s :: s in OrphanServices(l, c, ecs.Keys) ==>
      exists r :: r in resources && !r.found && s in r.services
  {
    var j := Joined(l, parse, ecs, tokens, services);
    forall t | t in OrphanTokens(l, parse, c, ecs.Keys)
      ensures exists r :: r in resources && !r.found && t in r.tokens
    {
      var id := TokenTask(l, parse, t).value;
      JoinConserves(l, parse, ecs, tokens, services, id);
      InTokensOf(l, parse, tokens, id, t);
      assert j[id] in resources && !j[id].found && t in j[id].tokens;
    }
    forall s | s in OrphanServices(l, c, ecs.Keys) ensures exists r :: r in resources && !r.found && s in r.services {
      var id := ServiceTask(s).value;
      JoinConserves(l, parse, ecs, tokens, services, id);
      InServicesOf(services, id, s);
      assert j[id] in resources && !j[id].found && s in j[id].services;
    }
  }

  lemma IdentifiedPart(c: Consul, tokens: set<Token>, services: set<Service>)
    requires Identified(c.tokens, c.services) && tokens <= c.tokens && services <= c.services
    ensures Identified(c.tokens + tokens, c.services + services)
  {
    assert c.tokens + tokens == c.tokens && c.services + services == c.services;
  }

  /** Whatever fails, a round deletes nothing but orphans: what is gone is what
      was deleted successfully, and all that was asked to be deleted belongs to
      tasks that this round's read of ECS did not return. A round that reports no
      error has deleted every orphan token; one without failures every orphan.
      (c is what the round read, c1 what it finds when it starts deleting.) */
  lemma RoundDeletesOrphans(ok: Oracle, l: Lister, parse: Parser, c: Consul, c1: Consul, ecs: States,
      tokens: seq<Token>, services: seq<Service>, resources: seq<TaskState>)
    requires RoundReads(l, parse, c, ecs, tokens, services, resources) && Identified(c.tokens, c.services)
    requires c1.tokens == c.tokens && c1.services == c.services
    ensures var o := ReconcileTasks(ok, c1, resources);
      var orphanTokens, orphanServices := OrphanTokens(l, parse, c, ecs.Keys), OrphanServices(l, c, ecs.Keys);
      && Deletes(c1, o.consul, orphanTokens, orphanServices)
      && (!o.failed ==> o.consul.tokens == c.tokens - orphanTokens)
      && (AllSucceeded(ok, c1.calls, o.consul.calls) ==>
            !o.failed && o.consul.tokens == c.tokens - orphanTokens && o.consul.services == c.services - orphanServices)
  {
    var orphanTokens, orphanServices := OrphanTokens(l, parse, c, ecs.Keys), OrphanServices(l, c, ecs.Keys);
    forall r | r in resources ensures Within(r, orphanTokens, orphanServices) {
      ResourceWithin(l, parse, c, ecs, tokens, services, resources, r);
    }
    IdentifiedPart(c1, orphanTokens, orphanServices);
    ReconcileTasksDeletes(ok, c1, resources, orphanTokens, orphanServices);
    OrphanHasResource(l, parse, c, ecs, tokens, services, resources);
    var o := ReconcileTasks(ok, c1, resources);
    DeletedAreTargets(c1, o.consul, orphanTokens, orphanServices);
  }

  lemma DeletedAreTargets(c: Consul, c': Consul, tokens: set<Token>, services: set<Service>)
    requires Deletes(c, c', tokens, services)
    ensures c.tokens - c'.tokens <= tokens && c.services - c'.services <= services
    ensures c'.tokens <= c.tokens && c'.services <= c.services
  {
  }

  /** Consul keeps tokens only in namespaces that exist. */
  predicate Housed(l: Lister, c: Consul) {
    forall t :: t in c.tokens && t.partition == l.partition && l.PartitionsEnabled() ==> t.namespace in c.namespaces
  }

  /** A round without failures, on a world that does not change meanwhile, leaves
      of what the controller manages exactly what belongs to present tasks. */
  lemma CleanRoundConverges(ok: Oracle, l: Lister, parse: Parser, c: Consul, c1: Consul, ecs: States,
      tokens: seq<Token>, services: seq<Service>, resources: seq<TaskState>)
    requires RoundReads(l, parse, c, ecs, tokens, services, resources) && Identified(c.tokens, c.services)
    requires c1.tokens == c.tokens && c1.services == c.services && c.namespaces.Keys <= c1.namespaces.Keys
      && Housed(l, c)
    requires AllSucceeded(ok, c1.calls, ReconcileTasks(ok, c1, resources).consul.calls)
    ensures var c' := ReconcileTasks(ok, c1, resources).consul;
      && c'.tokens == c.tokens - OrphanTokens(l, parse, c, ecs.Keys)
      && c'.services == c.services - OrphanServices(l, c, ecs.Keys)
      && OrphanTokens(l, parse, c', ecs.Keys) == {} && OrphanServices(l, c', ecs.Keys) == {}
  {
    RoundDeletesOrphans(ok, l, parse, c, c1, ecs, tokens, services, resources);
    var c' := ReconcileTasks(ok, c1, resources).consul;
    assert forall t :: t in c'.tokens && t in VisibleTokens(l, c') ==> t in VisibleTokens(l, c);
    assert forall s :: s in c'.services && s in VisibleServices(l, c') ==> s in VisibleServices(l, c);
  }

  /** With the ECS tasks as they are, the orphans left after a round are the orphans
      there were without those deleted: their number never grows, and every
      deletion lowers it. (c1 is what the round finds when it starts deleting,
      perhaps with new namespaces.) */
  lemma OrphansOnlyShrink(l: Lister, parse: Parser, c: Consul, c1: Consul, c2: Consul, ids: set<TaskID>)
    requires Housed(l, c)
    requires c1.tokens == c.tokens && c1.services == c.services && c.namespaces.Keys <= c1.namespaces.Keys
    requires Deletes(c1, c2, OrphanTokens(l, parse, c, ids), OrphanServices(l, c, ids))
    ensures var deleted, deregistered := Deleted(c2.writes[|c1.writes|..]), Deregistered(c2.writes[|c1.writes|..]);
      && deleted <= OrphanTokens(l, parse, c, ids) && deregistered <= OrphanServices(l, c, ids)
      && OrphanTokens(l, parse, c2, ids) == OrphanTokens(l, parse, c, ids) - deleted
      && OrphanServices(l, c2, ids) == OrphanServices(l, c, ids) - deregistered
      && Orphans(l, parse, c2, ids) + |deleted| + |deregistered| == Orphans(l, parse, c, ids)
  {
    var tokens, services := OrphanTokens(l, parse, c, ids), OrphanServices(l, c, ids);
    var deleted, deregistered := Deleted(c2.writes[|c1.writes|..]), Deregistered(c2.writes[|c1.writes|..]);
    OrphansWithout(l, parse, c, c2, ids, deleted, deregistered);
    SizeWithout(tokens, deleted);
    SizeWithout(services, deregistered);
  }

  lemma OrphansWithout(l: Lister, parse: Parser, c: Consul, c2: Consul, ids: set<TaskID>, deleted: set<Token>,
      deregistered: set<Service>)
    requires Housed(l, c) && c.namespaces.Keys <= c2.namespaces.Keys
    requires c2.tokens == c.tokens - deleted && c2.services == c.services - deregistered
    ensures OrphanTokens(l, parse, c2, ids) == OrphanTokens(l, parse, c, ids) - deleted
    ensures OrphanServices(l, c2, ids) == OrphanServices(l, c, ids) - deregistered
  {
    assert forall t :: t in c2.tokens ==>
      (TokenVisible(l, c2.namespaces.Keys, t) <==> TokenVisible(l, c.namespaces.Keys, t));
  }

  lemma SizeWithout<T>(s: set<T>, part: set<T>)
    requires part <= s
    ensures |s - part| + |part| == |s|
  {
    assert s == (s - part) + part;
  }

  function Orphans(l: Lister, parse: Parser, c: Consul, ids: set<TaskID>): nat {
    |OrphanTokens(l, parse, c, ids)| + |OrphanServices(l, c, ids)|
  }

  /** When nothing is orphaned, a round makes no call at all after reading. */
  lemma {:induction false} NothingToDo(ok: Oracle, c: Consul, resources: seq<TaskState>)
    requires forall r :: r in resources ==> r.found
    ensures ReconcileTasks(ok, c, resources) == Outcome(c, false)
  {
    if resources != [] {
      var rest := resources[..|resources| - 1];
      NothingToDo(ok, c, rest);
      assert resources[|resources| - 1] in resources;
    }
  }

  /** Where nothing is orphaned every task that a round lists is present. */
  lemma AllPresent(l: Lister, parse: Parser, c: Consul, ecs: States, tokens: seq<Token>, services: seq<Service>,
      resources: seq<TaskState>)
    requires RoundReads(l, parse, c, ecs, tokens, services, resources)
    requires OrphanTokens(l, parse, c, ecs.Keys) == {} && OrphanServices(l, c, ecs.Keys) == {}
    ensures forall r :: r in resources ==> r.found
  {
    forall r | r in resources ensures r.found {
      ResourceWithin(l, parse, c, ecs, tokens, services, resources, r);
      var id := r.taskID;
      if id in TokenTasks(l, parse, tokens) {
        var t :| t in tokens && TokenTask(l, parse, t) == Some(id);
        assert id !in ecs ==> t in OrphanTokens(l, parse, c, ecs.Keys);
      } else if id in ServiceTasks(services) {
        var s :| s in services && ServiceTask(s) == Some(id);
        assert id !in ecs ==> s in OrphanServices(l, c, ecs.Keys);
      }
    }
  }

  // What one task's cleaning leaves behind

  lemma {:induction false} DeleteTokensExactly(ok: Oracle, c: Consul, list: seq<Token>)
    ensures var o := DeleteTokens(ok, c, list);
      && o.consul.services == c.services && c.calls <= o.consul.calls <= c.calls + |list|
      && (!o.failed ==> o.consul.calls == c.calls + |list|)
      && (o.failed <==> !AllSucceeded(ok, c.calls, c.calls + |list|))
  {
    if list != [] {
      var n := |list| - 1;
      DeleteTokensExactly(ok, c, list[..n]);
      assert AllSucceeded(ok, c.calls, c.calls + n + 1) <==> AllSucceeded(ok, c.calls, c.calls + n) && ok(c.calls + n);
    }
  }

  lemma {:induction false} DeleteTokensLeaves(ok: Oracle, c: Consul, list: seq<Token>, t: Token)
    ensures t in DeleteTokens(ok, c, list).consul.tokens <==>
      t in c.tokens && forall k :: 0 <= k < |list| && SameToken(t, list[k]) ==>
        !AllSucceeded(ok, c.calls, c.calls + k + 1)
  {
    if list != [] {
      var n := |list| - 1;
      DeleteTokensExactly(ok, c, list[..n]);
      DeleteTokensLeaves(ok, c, list[..n], t);
      assert DeleteTokens(ok, c, list[..n]).failed <==> !AllSucceeded(ok, c.calls, c.calls + n);
      assert AllSucceeded(ok, c.calls, c.calls + n + 1) <==> AllSucceeded(ok, c.calls, c.calls + n) && ok(c.calls + n);
      assert forall k :: 0 <= k < n ==> list[..n][k] == list[k];
    }
  }

  /** No deregistration meant for s succeeded; the calls start at this count. */
  predicate EveryCallFailed(ok: Oracle, calls: nat, list: seq<Service>, node: string, s: Service) {
    forall k :: 0 <= k < |list| && SameService(s, list[k].(node := node)) ==> !ok(calls + k)
  }

  lemma {:induction false} DeregisteringKeepsTokens(ok: Oracle, c: Consul, list: seq<Service>, node: string)
    ensures DeregisterServices(ok, c, list, node).tokens == c.tokens
  {
    if list != [] { DeregisteringKeepsTokens(ok, c, list[..|list| - 1], node); }
  }

  lemma {:induction false} DeregisterServicesLeaves(ok: Oracle, c: Consul, list: seq<Service>, node: string, s: Service)
    ensures var c' := DeregisterServices(ok, c, list, node);
      && c'.calls == c.calls + |list|
      && (s in c'.services <==> s in c.services && EveryCallFailed(ok, c.calls, list, node, s))
  {
    if list != [] {
      var n := |list| - 1;
      DeregisterServicesLeaves(ok, c, list[..n], node, s);
      assert forall k :: 0 <= k < n ==> list[..n][k] == list[k];
    }
  }

  /** Exactly what reconciling an absent task leaves: an error is reported if and only
      if a token's deletion failed; a token remains unless its own deletion and all
      before it succeeded; a service remains unless a call made for it succeeded,
      and whether it does has no bearing on the error. */
  lemma ReconcileTaskLeaves(ok: Oracle, c: Consul, r: TaskState, t: Token, s: Service)
    requires !r.found && ok(c.calls)
    ensures var o := ReconcileTask(ok, c, r);
      var deregistering := DeleteTokens(ok, Call(ok, c).consul, r.tokens).consul.calls;
      && (o.failed <==> !AllSucceeded(ok, c.calls + 1, c.calls + 1 + |r.tokens|))
      && (t in o.consul.tokens <==>
            t in c.tokens &&
            forall k :: 0 <= k < |r.tokens| && SameToken(t, r.tokens[k]) ==>
              !AllSucceeded(ok, c.calls + 1, c.calls + 1 + k + 1))
      && (s in o.consul.services <==>
          s in c.services && EveryCallFailed(ok, deregistering, r.services, r.clusterARN, s))
  {
    var c1 := Call(ok, c).consul;
    DeleteTokensExactly(ok, c1, r.tokens);
    DeleteTokensLeaves(ok, c1, r.tokens, t);
    DeregisteringKeepsTokens(ok, DeleteTokens(ok, c1, r.tokens).consul, r.services, r.clusterARN);
    DeregisterServicesLeaves(ok, DeleteTokens(ok, c1, r.tokens).consul, r.services, r.clusterARN, s);
  }

  /** Without a client for Consul nothing happens, and that is an error. */
  lemma NoClientNoChange(ok: Oracle, c: Consul, r: TaskState)
    requires !r.found && !ok(c.calls)
    ensures var o := ReconcileTask(ok, c, r); o.failed && o.consul == c.(calls := c.calls + 1)
  {
  }

  /** So reconciled without error does not mean gone: of the services that were there,
      none is left if and only if for each of them some call succeeded. */
  lemma ReconciledWithoutErrorLeaves(ok: Oracle, c: Consul, r: TaskState)
    requires !r.found && !ReconcileTask(ok, c, r).failed
    ensures var c' := ReconcileTask(ok, c, r).consul; var deregistering := c.calls + 1 + |r.tokens|;
      && (forall t :: t in r.tokens ==> t !in c'.tokens)
      && ((forall s :: s in r.services ==> s !in c'.services) <==>
            forall s :: s in r.services && s in c.services ==>
              !EveryCallFailed(ok, deregistering, r.services, r.clusterARN, s))
  {
    var c1 := Call(ok, c).consul;
    DeleteTokensExactly(ok, c1, r.tokens);
    var c' := ReconcileTask(ok, c, r).consul;
    DeregisteringKeepsTokens(ok, DeleteTokens(ok, c1, r.tokens).consul, r.services, r.clusterARN);
    forall t | t in r.tokens ensures t !in c'.tokens {
      DeleteTokensLeaves(ok, c1, r.tokens, t);
      var k :| 0 <= k < |r.tokens| && r.tokens[k] == t;
      assert SameToken(t, r.tokens[k]) && AllSucceeded(ok, c1.calls, c1.calls + k + 1);
    }
    forall s ensures s in c'.services <==>
      s in c.services && EveryCallFailed(ok, c.calls + 1 + |r.tokens|, r.services, r.clusterARN, s)
    {
      DeregisterServicesLeaves(ok, DeleteTokens(ok, c1, r.tokens).consul, r.services, r.clusterARN, s);
    }
  }

  /** A failed deregistration is not reported: the error is dropped, and an absent
      task can be reconciled "successfully" with its service still there. */
  lemma DeregistrationFailureUnreported(ok: Oracle, c: Consul, r: TaskState, s: Service)
    requires !r.found && r.tokens == [] && r.services == [s] && s.node == r.clusterARN && s in c.services
    requires ok(c.calls) && !ok(c.calls + 1)
    ensures !ReconcileTask(ok, c, r).failed && s in ReconcileTask(ok, c, r).consul.services
  {
    var c1 := Call(ok, c).consul;
    assert DeleteTokens(ok, c1, r.tokens) == Outcome(c1, false);
    assert [s][..|[s]| - 1] == [] && s.(node := r.clusterARN) == s;
    assert DeregisterServices(ok, c1, [], r.clusterARN) == c1;
    assert DeregisterServices(ok, c1, [s], r.clusterARN) == DeregisterService(ok, c1, s).consul;
  }

  // Going on after failures

  /** Nothing is left that this task's state lists. */
  predicate Gone(c: Consul, r: TaskState) {
    && (forall t, k :: t in c.tokens && 0 <= k < |r.tokens| ==> !SameToken(t, r.tokens[k]))
    && (forall s, k :: s in c.services && 0 <= k < |r.services| ==>
          !SameService(s, r.services[k].(node := r.clusterARN)))
  }

  lemma {:induction false} DeletingShrinks(ok: Oracle, c: Consul, list: seq<Token>)
    ensures DeleteTokens(ok, c, list).consul.tokens <= c.tokens
  {
    if list != [] { DeletingShrinks(ok, c, list[..|list| - 1]); }
  }

  lemma {:induction false} DeregisteringShrinks(ok: Oracle, c: Consul, list: seq<Service>, node: string)
    ensures DeregisterServices(ok, c, list, node).services <= c.services
  {
    if list != [] { DeregisteringShrinks(ok, c, list[..|list| - 1], node); }
  }

  lemma TaskShrinks(ok: Oracle, c: Consul, r: TaskState)
    ensures var c' := ReconcileTask(ok, c, r).consul; c'.tokens <= c.tokens && c'.services <= c.services
  {
    var c1 := Call(ok, c).consul;
    var c2 := DeleteTokens(ok, c1, r.tokens).consul;
    DeletingShrinks(ok, c1, r.tokens);
    DeleteTokensExactly(ok, c1, r.tokens);
    DeregisteringKeepsTokens(ok, c2, r.services, r.clusterARN);
    DeregisteringShrinks(ok, c2, r.services, r.clusterARN);
  }

  lemma {:induction false} RestShrinks(ok: Oracle, c: Consul, done: seq<TaskState>, rest: seq<TaskState>)
    ensures var c1, c2 := ReconcileTasks(ok, c, done).consul, ReconcileTasks(ok, c, done + rest).consul;
      c2.tokens <= c1.tokens && c2.services <= c1.services
    decreases |rest|
  {
    if rest == [] {
      assert done + rest == done;
    } else {
      var n := |rest| - 1;
      assert (done + rest)[..|done + rest| - 1] == done + rest[..n];
      RestShrinks(ok, c, done, rest[..n]);
      TaskShrinks(ok, ReconcileTasks(ok, c, done + rest[..n]).consul, rest[n]);
    }
  }

  /** An absent task none of whose own calls fails is cleaned up entirely. */
  lemma TaskGone(ok: Oracle, c: Consul, r: TaskState)
    requires !r.found && AllSucceeded(ok, c.calls, c.calls + 1 + |r.tokens| + |r.services|)
    ensures Gone(ReconcileTask(ok, c, r).consul, r)
  {
    var c1, c' := Call(ok, c).consul, ReconcileTask(ok, c, r).consul;
    DeleteTokensExactly(ok, c1, r.tokens);
    var start := DeleteTokens(ok, c1, r.tokens).consul.calls;
    forall t, k | t in c'.tokens && 0 <= k < |r.tokens| ensures !SameToken(t, r.tokens[k]) {
      ReconcileTaskLeavesToken(ok, c, r, t);
      assert AllSucceeded(ok, c.calls + 1, c.calls + 1 + k + 1);
    }
    forall s, k | s in c'.services && 0 <= k < |r.services|
      ensures !SameService(s, r.services[k].(node := r.clusterARN))
    {
      DeregisterServicesLeaves(ok, DeleteTokens(ok, c1, r.tokens).consul, r.services, r.clusterARN, s);
      assert ok(start + k);
    }
  }

  lemma ReconcileTaskLeavesToken(ok: Oracle, c: Consul, r: TaskState, t: Token)
    requires !r.found && ok(c.calls) && t in ReconcileTask(ok, c, r).consul.tokens
    ensures forall k :: 0 <= k < |r.tokens| && SameToken(t, r.tokens[k]) ==>
      !AllSucceeded(ok, c.calls + 1, c.calls + 1 + k + 1)
  {
    var c1 := Call(ok, c).consul;
    DeleteTokensLeaves(ok, c1, r.tokens, t);
    DeregisteringKeepsTokens(ok, DeleteTokens(ok, c1, r.tokens).consul, r.services, r.clusterARN);
  }

  /** The loop goes on: a resource none of whose own calls fails is gone at the end,
      whatever failed for the ones before it or after it. */
  lemma RoundPerseveres(ok: Oracle, c: Consul, before: seq<TaskState>, r: TaskState, after: seq<TaskState>)
    requires !r.found
    requires var calls := ReconcileTasks(ok, c, before).consul.calls;
      AllSucceeded(ok, calls, calls + 1 + |r.tokens| + |r.services|)
    ensures Gone(ReconcileTasks(ok, c, before + [r] + after).consul, r)
  {
    var c1 := ReconcileTasks(ok, c, before).consul;
    TaskGone(ok, c1, r);
    assert (before + [r])[..|before + [r]| - 1] == before;
    assert ReconcileTasks(ok, c, before + [r]).consul == ReconcileTask(ok, c1, r).consul;
    RestShrinks(ok, c, before + [r], after);
  }

  /** The same for every resource of a round. */
  ghost predicate Perseveres(ok: Oracle, c: Consul, resources: seq<TaskState>, end: Consul) {
    forall i :: 0 <= i < |resources| && !resources[i].found && Undisturbed(ok, c, resources, i) ==>
      Gone(end, resources[i])
  }

  /** None of the i-th resource's own calls fails. */
  ghost predicate Undisturbed(ok: Oracle, c: Consul, resources: seq<TaskState>, i: nat)
    requires i < |resources|
  {
    var calls := ReconcileTasks(ok, c, resources[..i]).consul.calls;
    AllSucceeded(ok, calls, calls + 1 + |resources[i].tokens| + |resources[i].services|)
  }

  lemma AllPersevere(ok: Oracle, c: Consul, resources: seq<TaskState>)
    ensures Perseveres(ok, c, resources, ReconcileTasks(ok, c, resources).consul)
  {
    forall i: nat | i < |resources| && !resources[i].found && Undisturbed(ok, c, resources, i)
      ensures Gone(ReconcileTasks(ok, c, resources).consul, resources[i])
    {
      RoundPerseveres(ok, c, resources[..i], resources[i], resources[i + 1..]);
      assert resources[..i] + [resources[i]] + resources[i + 1..] == resources;
    }
  }

  // Orphans, in plain terms

  /** The token is where the controller looks, its description names a task of this
      cluster, and ECS has not returned that task. */
  predicate TokenIsOrphan(l: Lister, parse: Parser, namespaces: set<string>, ids: set<TaskID>, t: Token) {
    && t.partition == l.partition && (if l.partition == "" then t.namespace == "" else t.namespace in namespaces)
    && match parse(t.description)
       case Some(meta) => meta.cluster == l.cluster && meta.cluster != "" && meta.taskID != "" && meta.taskID !in ids
       case None => false
  }

  predicate ServiceIsOrphan(l: Lister, ids: set<TaskID>, s: Service) {
    && s.node == l.cluster && s.partition == l.partition && (l.partition == "" ==> s.namespace == "")
    && "task-id" in s.meta && s.meta["task-id"] !in ids
  }

  lemma OrphansExactly(l: Lister, parse: Parser, c: Consul, ids: set<TaskID>)
    ensures forall t :: t in OrphanTokens(l, parse, c, ids) <==>
      t in c.tokens && TokenIsOrphan(l, parse, c.namespaces.Keys, ids, t)
    ensures forall s :: s in OrphanServices(l, c, ids) <==> s in c.services && ServiceIsOrphan(l, ids, s)
  {
  }
}
