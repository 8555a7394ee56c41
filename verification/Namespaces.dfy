/** controller/resource.go, ReconcileNamespaces: the namespaces of the tasks and
    the cross-namespace read policy. */
module Namespaces {
  import opened Prelude
  import opened EcsTasks
  import opened ConsulApi

  const CROSS_NAMESPACE := "cross-namespace-read"

  /** The namespaces of the resources found in ECS; those known only from tokens
      or services count for none. */
  function Wanted(resources: seq<TaskState>): set<string> {
    set r | r in resources && r.found && r.ns != "" :: r.ns
  }

  /** upsertCrossNSPolicy. */
  function UpsertPolicy(ok: Oracle, c: Consul): Outcome {
    var read := Call(ok, c);
    if read.failed then read
    else
      var created := if c.policy then read else CreatePolicy(ok, read.consul);
      if created.failed then created
      else
        var ns := Call(ok, created.consul);
        if ns.failed || DEFAULT !in c.namespaces then Outcome(ns.consul, true)
        else
          var links := c.namespaces[DEFAULT];
          if CROSS_NAMESPACE in links then ns
          else UpdateNamespace(ok, ns.consul, DEFAULT, links + [CROSS_NAMESPACE])
  }

  /** Creates them in this order, going on after failures. */
  function CreateAll(ok: Oracle, c: Consul, names: seq<string>): Outcome {
    if names == [] then Outcome(c, false)
    else
      var before := CreateAll(ok, c, names[..|names| - 1]);
      var o := CreateNamespace(ok, before.consul, names[|names| - 1], [CROSS_NAMESPACE]);
      Outcome(o.consul, before.failed || o.failed)
  }

  /** ReconcileNamespaces, creating the missing namespaces in the given order. */
  function ReconcileNamespaces(ok: Oracle, l: Lister, c: Consul, order: seq<string>): Outcome {
    if !l.PartitionsEnabled() then Outcome(c, false)
    else
      var client := Call(ok, c);
      if client.failed then client
      else
        var policy := UpsertPolicy(ok, client.consul);
        if policy.failed then policy
        else
          var list := Call(ok, policy.consul);
          if list.failed then list else CreateAll(ok, list.consul, order)
  }

  method UpsertCrossNSPolicy(consul: Servers) returns (err: bool)
    modifies consul
    ensures Outcome(consul.state, err) == UpsertPolicy(consul.ok, old(consul.state))
  {
    err := consul.Read();
    if err { return; }
    if !consul.state.policy {
      err := consul.PolicyCreate();
      if err { return; }
    }
    err := consul.Read();
    if err { return; }
    if DEFAULT !in consul.state.namespaces { return true; }
    var links := consul.state.namespaces[DEFAULT];
    for i := 0 to |links|
      invariant CROSS_NAMESPACE !in links[..i]
    {
      if links[i] == CROSS_NAMESPACE { return; }
    }
    assert links[..|links|] == links;
    err := consul.NamespaceUpdate(DEFAULT, links + [CROSS_NAMESPACE]);
  }

  method CreateNamespaces(consul: Servers, resources: seq<TaskState>) returns (err: bool, order: seq<string>)
    modifies consul
    ensures Lists(order, Wanted(resources) - old(consul.state.namespaces.Keys))
    ensures Outcome(consul.state, err) ==
      var list := Call(consul.ok, old(consul.state));
      if list.failed then list else CreateAll(consul.ok, list.consul, order)
  {
    var ns := {};
    for i := 0 to |resources|
      invariant ns == Wanted(resources[..i])
    {
      assert resources[..i + 1] == resources[..i] + [resources[i]];
      if resources[i].found && resources[i].ns != "" { ns := ns + {resources[i].ns}; }
    }
    assert resources[..|resources|] == resources;

    ghost var before := consul.state;
    var existing := consul.ListNamespaces();
    if existing.Err? {
      order := Enumerate(ns - consul.state.namespaces.Keys);
      return true, order;
    }
    var missing := ns;
    for i := 0 to |existing.value|
      invariant forall n :: n in missing <==> n in ns && n !in existing.value[..i]
    {
      missing := missing - {existing.value[i]};
    }
    assert existing.value[..|existing.value|] == existing.value;
    assert missing == ns - before.namespaces.Keys;
    order := Enumerate(missing);
    err := false;
    for i := 0 to |order|
      invariant Outcome(consul.state, err) == CreateAll(consul.ok, Call(consul.ok, before).consul, order[..i])
    {
      assert order[..i + 1][..i] == order[..i];
      var e := consul.NamespaceCreate(order[i], [CROSS_NAMESPACE]);
      err := err || e;
    }
    assert order[..|order|] == order;
  }

  /** The namespaces and, for the caller's proof, the order of their creation. */
  method Reconcile(l: Lister, consul: Servers, resources: seq<TaskState>) returns (err: bool, order: seq<string>)
    modifies consul
    ensures Outcome(consul.state, err) == ReconcileNamespaces(consul.ok, l, old(consul.state), order)
    ensures Lists(order, Wanted(resources) - old(consul.state.namespaces.Keys))
  {
    order := Enumerate(Wanted(resources) - consul.state.namespaces.Keys);
    if !l.PartitionsEnabled() { return false, order; }
    err := consul.Read();
    if err { return; }
    UpsertKeeps(consul.ok, consul.state);
    err := UpsertCrossNSPolicy(consul);
    if err { return; }
    err, order := CreateNamespaces(consul, resources);
  }

  lemma UpsertKeeps(ok: Oracle, c: Consul)
    ensures var c' := UpsertPolicy(ok, c).consul;
      && c'.namespaces.Keys == c.namespaces.Keys && c'.tokens == c.tokens && c'.services == c.services
      && c.writes <= c'.writes
      && (c.policy ==> c'.policy)
      && (forall n :: n in c.namespaces && n != DEFAULT ==> c'.namespaces[n] == c.namespaces[n])
      && (DEFAULT in c.namespaces ==>
            || c'.namespaces[DEFAULT] == c.namespaces[DEFAULT]
            || c'.namespaces[DEFAULT] == WithPolicy(c.namespaces[DEFAULT]))
  {
  }

  /** The links of default: as before, with the policy's added at the end only if it is absent. */
  function WithPolicy(links: seq<string>): seq<string> {
    if CROSS_NAMESPACE in links then links else links + [CROSS_NAMESPACE]
  }

  lemma {:induction false} CreateAllEffect(ok: Oracle, c: Consul, names: seq<string>)
    requires Distinct(names) && forall n :: n in names ==> n !in c.namespaces
    ensures var o := CreateAll(ok, c, names); var c' := o.consul;
      && c'.tokens == c.tokens && c'.services == c.services && c'.policy == c.policy && c.writes <= c'.writes
      && (forall n :: n in c.namespaces ==> n in c'.namespaces && c'.namespaces[n] == c.namespaces[n])
      && (forall n :: n in c'.namespaces && n !in c.namespaces ==> n in names && c'.namespaces[n] == [CROSS_NAMESPACE])
      && (!o.failed ==> forall n :: n in names ==> n in c'.namespaces)
  {
    if names != [] {
      CreateAllEffect(ok, c, names[..|names| - 1]);
      assert names == names[..|names| - 1] + [names[|names| - 1]];
    }
  }

  /** None of the writes is a deletion. */
  predicate KeepsAll(writes: seq<Write>) {
    forall w :: w in writes ==> !w.TokenDelete? && !w.ServiceDeregister?
  }

  lemma {:induction false} CreateAllKeepsAll(ok: Oracle, c: Consul, names: seq<string>)
    ensures var c' := CreateAll(ok, c, names).consul;
      c.calls <= c'.calls && c.writes <= c'.writes && KeepsAll(c'.writes[|c.writes|..])
  {
    if names != [] {
      var rest := names[..|names| - 1];
      CreateAllKeepsAll(ok, c, rest);
      var before, after := CreateAll(ok, c, rest).consul.writes, CreateAll(ok, c, names).consul.writes;
      assert after[|c.writes|..] == before[|c.writes|..] + [after[|before|]];
    }
  }

  lemma UpsertKeepsAll(ok: Oracle, c: Consul)
    ensures var c' := UpsertPolicy(ok, c).consul;
      c.calls <= c'.calls && c.writes <= c'.writes && KeepsAll(c'.writes[|c.writes|..])
  {
  }

  lemma ReconcileKeepsAll(ok: Oracle, l: Lister, c: Consul, order: seq<string>)
    ensures var c' := ReconcileNamespaces(ok, l, c, order).consul;
      c.calls <= c'.calls && c.writes <= c'.writes && KeepsAll(c'.writes[|c.writes|..])
  {
    var c1 := Call(ok, c).consul;
    UpsertKeepsAll(ok, c1);
    var c2 := Call(ok, UpsertPolicy(ok, c1).consul).consul;
    CreateAllKeepsAll(ok, c2, order);
    var c3 := CreateAll(ok, c2, order).consul;
    assert c3.writes[|c.writes|..] == c2.writes[|c.writes|..] + c3.writes[|c2.writes|..];
  }

  /** What reconciling may change, even if calls fail: namespaces of present
      tasks are created, with the policy and nothing else; default may gain the
      policy after its own links; no other namespace, token or service changes.
      If it succeeds, all of that has happened. */
  lemma NamespacesReconciled(ok: Oracle, l: Lister, c: Consul, resources: seq<TaskState>, order: seq<string>)
    requires l.PartitionsEnabled() && Lists(order, Wanted(resources) - c.namespaces.Keys)
    ensures var o := ReconcileNamespaces(ok, l, c, order); var c' := o.consul;
      && c'.tokens == c.tokens && c'.services == c.services
      && c.namespaces.Keys <= c'.namespaces.Keys <= c.namespaces.Keys + Wanted(resources)
      && (forall n :: n in c'.namespaces && n !in c.namespaces ==>
            && c'.namespaces[n] == [CROSS_NAMESPACE]
            && c'.policy && WithPolicy(c'.namespaces[DEFAULT]) == c'.namespaces[DEFAULT])
      && (forall n :: n in c.namespaces && n != DEFAULT ==> c'.namespaces[n] == c.namespaces[n])
      && (DEFAULT in c.namespaces ==>
            || c'.namespaces[DEFAULT] == c.namespaces[DEFAULT]
            || c'.namespaces[DEFAULT] == WithPolicy(c.namespaces[DEFAULT]))
      && (!o.failed ==>
            && c'.policy && Wanted(resources) <= c'.namespaces.Keys
            && DEFAULT in c.namespaces && c'.namespaces[DEFAULT] == WithPolicy(c.namespaces[DEFAULT]))
  {
    var c1 := Call(ok, c).consul;
    UpsertKeeps(ok, c1);
    CreateAllEffect(ok, Call(ok, UpsertPolicy(ok, c1).consul).consul, order);
  }

  /** A namespace is created only for a task that was found in ECS and is in it, and
      without an error for every such task; without partitions nothing is done. */
  lemma CreatesExactly(ok: Oracle, l: Lister, c: Consul, resources: seq<TaskState>, order: seq<string>)
    requires Lists(order, Wanted(resources) - c.namespaces.Keys)
    ensures var o := ReconcileNamespaces(ok, l, c, order);
      && (!l.PartitionsEnabled() ==> o == Outcome(c, false))
      && (forall n :: n in o.consul.namespaces && n !in c.namespaces ==>
            n != "" && exists r :: r in resources && r.found && r.ns == n)
      && (l.PartitionsEnabled() && !o.failed ==>
            forall r :: r in resources && r.found && r.ns != "" ==> r.ns in o.consul.namespaces)
  {
    if l.PartitionsEnabled() { NamespacesReconciled(ok, l, c, resources, order); }
  }

  /** Nothing is left to do for these namespaces. */
  predicate Settled(c: Consul, wanted: set<string>) {
    && c.policy && wanted <= c.namespaces.Keys
    && DEFAULT in c.namespaces && CROSS_NAMESPACE in c.namespaces[DEFAULT]
  }

  lemma ReconciledSettles(ok: Oracle, l: Lister, c: Consul, resources: seq<TaskState>, order: seq<string>)
    requires l.PartitionsEnabled() && Lists(order, Wanted(resources) - c.namespaces.Keys)
    requires !ReconcileNamespaces(ok, l, c, order).failed
    ensures Settled(ReconcileNamespaces(ok, l, c, order).consul, Wanted(resources))
  {
    NamespacesReconciled(ok, l, c, resources, order);
    var links := WithPolicy(c.namespaces[DEFAULT]);
    assert CROSS_NAMESPACE !in c.namespaces[DEFAULT] ==> links[|links| - 1] == CROSS_NAMESPACE;
  }

  /** Repeating it for the same namespaces writes nothing, whether or not the
      reads succeed. */
  lemma SettledIdle(ok: Oracle, l: Lister, c: Consul, wanted: set<string>, order: seq<string>)
    requires Settled(c, wanted) && Lists(order, wanted - c.namespaces.Keys)
    ensures var c' := ReconcileNamespaces(ok, l, c, order).consul; c' == c.(calls := c'.calls) && c.calls <= c'.calls
  {
    ListsEmpty(order, wanted - c.namespaces.Keys);
  }

  /** The policy is linked, and namespaces are created, only once it exists. */
  lemma LinkedOnlyIfThere(ok: Oracle, c: Consul)
    requires DEFAULT in c.namespaces && CROSS_NAMESPACE !in c.namespaces[DEFAULT]
    ensures var c' := UpsertPolicy(ok, c).consul; CROSS_NAMESPACE in c'.namespaces[DEFAULT] ==> c'.policy
  {
  }

  lemma UpsertFailsExactly(ok: Oracle, c: Consul)
    ensures var o := UpsertPolicy(ok, c);
      && c.calls <= o.consul.calls
      && (!o.failed ==> AllSucceeded(ok, c.calls, o.consul.calls) && DEFAULT in c.namespaces)
      && (o.failed ==> !AllSucceeded(ok, c.calls, o.consul.calls) || DEFAULT !in c.namespaces)
      // The first failure ends it.
      && (o.failed ==> o.consul.calls > c.calls && AllSucceeded(ok, c.calls, o.consul.calls - 1))
  {
  }

  /** An error is reported exactly if a call failed, or there is no default namespace;
      and if the policy could not be seen to, no namespace is created. */
  lemma ReconcileFailsExactly(ok: Oracle, l: Lister, c: Consul, order: seq<string>)
    requires l.PartitionsEnabled()
    ensures var o := ReconcileNamespaces(ok, l, c, order);
      && (!o.failed ==> AllSucceeded(ok, c.calls, o.consul.calls) && DEFAULT in c.namespaces)
      && (o.failed ==> !AllSucceeded(ok, c.calls, o.consul.calls) || DEFAULT !in c.namespaces)
      && (UpsertPolicy(ok, Call(ok, c).consul).failed ==> o.consul.namespaces.Keys == c.namespaces.Keys)
  {
    var c1 := Call(ok, c).consul;
    UpsertFailsExactly(ok, c1);
    UpsertKeeps(ok, c1);
    var c2 := UpsertPolicy(ok, c1).consul;
    CreateAllPerseveres(ok, Call(ok, c2).consul, order);
  }

  /** The creations go on after failures: one that does not fail itself is made. */
  lemma {:induction false} CreateAllPerseveres(ok: Oracle, c: Consul, names: seq<string>)
    ensures var o := CreateAll(ok, c, names);
      && o.consul.calls == c.calls + |names| && (!o.failed <==> AllSucceeded(ok, c.calls, c.calls + |names|))
      && (forall n :: n in c.namespaces ==> n in o.consul.namespaces)
      && (forall k :: 0 <= k < |names| && ok(c.calls + k) ==> names[k] in o.consul.namespaces)
  {
    if names != [] {
      var n := |names| - 1;
      CreateAllPerseveres(ok, c, names[..n]);
      assert AllSucceeded(ok, c.calls, c.calls + n + 1) <==> AllSucceeded(ok, c.calls, c.calls + n) && ok(c.calls + n);
      assert forall k :: 0 <= k < n ==> names[..n][k] == names[k];
    }
  }

  /** Once the policy is in place and the namespaces are listed, every wanted namespace
      whose own creation succeeds exists, whatever became of the others. */
  lemma ReconcilePerseveres(ok: Oracle, l: Lister, c: Consul, resources: seq<TaskState>, order: seq<string>, k: nat)
    requires l.PartitionsEnabled() && Lists(order, Wanted(resources) - c.namespaces.Keys) && k < |order|
    requires ok(c.calls) && !UpsertPolicy(ok, Call(ok, c).consul).failed
    requires var listing := UpsertPolicy(ok, Call(ok, c).consul).consul.calls; ok(listing) && ok(listing + 1 + k)
    ensures order[k] in ReconcileNamespaces(ok, l, c, order).consul.namespaces
  {
    CreateAllPerseveres(ok, Call(ok, UpsertPolicy(ok, Call(ok, c).consul).consul).consul, order);
  }
}
