/** The Consul servers as the controller sees them: state, and the calls it
    makes, each of which may fail. */
module ConsulApi {
  import opened Prelude
  import opened EcsTasks

  datatype Write =
    | TokenDelete(token: Token, ok: bool)
    | ServiceDeregister(service: Service, ok: bool)
    | PolicyCreate(ok: bool)
    | NamespaceUpdate(name: string, links: seq<string>, ok: bool)
    | NamespaceCreate(name: string, links: seq<string>, ok: bool)

  /** ACL tokens; catalog services; the partition's namespaces with the policies
      linked to each; whether the cross-namespace policy exists; the number of
      calls made so far, reads and client set-ups included; the writes among them. */
  datatype Consul = Consul(
    tokens: set<Token>, services: set<Service>,
    namespaces: map<string, seq<string>>, policy: bool,
    calls: nat, writes: seq<Write>)

  datatype Outcome = Outcome(consul: Consul, failed: bool)

  predicate SameToken(t: Token, u: Token) {
    t.accessor == u.accessor && t.partition == u.partition && t.namespace == u.namespace
  }

  predicate SameService(s: Service, u: Service) {
    s.id == u.id && s.node == u.node && s.partition == u.partition && s.namespace == u.namespace
  }

  /** Accessors identify tokens, and IDs on a node identify services. */
  predicate Identified(tokens: set<Token>, services: set<Service>) {
    && (forall t, u :: t in tokens && u in tokens && SameToken(t, u) ==> t == u)
    && (forall s, u :: s in services && u in services && SameService(s, u) ==> s == u)
  }

  /** s lists exactly the elements, each once. */
  ghost predicate Lists<T(!new)>(s: seq<T>, elements: set<T>) {
    Distinct(s) && (forall x :: x in s <==> x in elements)
  }

  lemma ListsEmpty<T(!new)>(s: seq<T>, elements: set<T>)
    requires Lists(s, elements)
    ensures s == [] <==> elements == {}
  {
    if s != [] { assert s[0] in elements; }
  }

  method Enumerate<T(==,!new)>(elements: set<T>) returns (s: seq<T>)
    ensures Lists(s, elements)
  {
    s := [];
    var rest := elements;
    while rest != {}
      invariant rest <= elements && Lists(s, elements - rest)
    {
      var x :| x in rest;
      rest, s := rest - {x}, s + [x];
    }
  }

  function TokensWithout(tokens: set<Token>, t: Token): set<Token> {
    set u | u in tokens && !SameToken(u, t)
  }

  function ServicesWithout(services: set<Service>, s: Service): set<Service> {
    set u | u in services && !SameService(u, s)
  }

  function DeleteToken(ok: Oracle, c: Consul, t: Token): Outcome {
    var done := ok(c.calls);
    Outcome(
      c.(tokens := if done then TokensWithout(c.tokens, t) else c.tokens,
         calls := c.calls + 1, writes := c.writes + [TokenDelete(t, done)]),
      !done)
  }

  function DeregisterService(ok: Oracle, c: Consul, s: Service): Outcome {
    var done := ok(c.calls);
    Outcome(
      c.(services := if done then ServicesWithout(c.services, s) else c.services,
         calls := c.calls + 1, writes := c.writes + [ServiceDeregister(s, done)]),
      !done)
  }

  function CreatePolicy(ok: Oracle, c: Consul): Outcome {
    var done := ok(c.calls);
    Outcome(c.(policy := c.policy || done, calls := c.calls + 1, writes := c.writes + [PolicyCreate(done)]), !done)
  }

  function UpdateNamespace(ok: Oracle, c: Consul, name: string, links: seq<string>): Outcome {
    var done := ok(c.calls);
    Outcome(
      c.(namespaces := if done then c.namespaces[name := links] else c.namespaces,
         calls := c.calls + 1, writes := c.writes + [NamespaceUpdate(name, links, done)]),
      !done)
  }

  function CreateNamespace(ok: Oracle, c: Consul, name: string, links: seq<string>): Outcome {
    var done := ok(c.calls);
    Outcome(
      c.(namespaces := if done then c.namespaces[name := links] else c.namespaces,
         calls := c.calls + 1, writes := c.writes + [NamespaceCreate(name, links, done)]),
      !done)
  }

  /** A read, or setting up a client. */
  function Call(ok: Oracle, c: Consul): Outcome {
    Outcome(c.(calls := c.calls + 1), !ok(c.calls))
  }

  class Servers {
    const ok: Oracle
    var state: Consul

    constructor (ok: Oracle, state: Consul)
      ensures this.ok == ok && this.state == state
    {
      this.ok, this.state := ok, state;
    }

    method Read() returns (err: bool)
      modifies this
      ensures Outcome(state, err) == Call(ok, old(state))
    {
      err := !ok(state.calls);
      state := state.(calls := state.calls + 1);
    }

    method ListNamespaces() returns (r: Result<seq<string>, ()>)
      modifies this
      ensures Outcome(state, r.Err?) == Call(ok, old(state))
      ensures r.Ok? ==> Lists(r.value, state.namespaces.Keys)
    {
      var err := Read();
      if err { return Err(()); }
      var names := Enumerate(state.namespaces.Keys);
      return Ok(names);
    }

    method ListTokens(partition: string, namespace: string) returns (r: Result<seq<Token>, ()>)
      modifies this
      ensures Outcome(state, r.Err?) == Call(ok, old(state))
      ensures r.Ok? ==> Lists(r.value,
        set t | t in state.tokens && t.partition == partition && t.namespace == namespace)
    {
      var err := Read();
      if err { return Err(()); }
      var tokens := Enumerate(set t | t in state.tokens && t.partition == partition && t.namespace == namespace);
      return Ok(tokens);
    }

    /** The services of a node in one partition, in every namespace or only
        where none is named. */
    method ListNodeServices(node: string, partition: string, wildcard: bool) returns (r: Result<seq<Service>, ()>)
      modifies this
      ensures Outcome(state, r.Err?) == Call(ok, old(state))
      ensures r.Ok? ==> Lists(r.value,
        set s | s in state.services && s.node == node && s.partition == partition && (wildcard || s.namespace == ""))
    {
      var err := Read();
      if err { return Err(()); }
      var services := Enumerate(
        set s | s in state.services && s.node == node && s.partition == partition && (wildcard || s.namespace == ""));
      return Ok(services);
    }

    method TokenDelete(t: Token) returns (err: bool)
      modifies this
      ensures Outcome(state, err) == DeleteToken(ok, old(state), t)
    {
      var o := DeleteToken(ok, state, t);
      state, err := o.consul, o.failed;
    }

    method Deregister(s: Service) returns (err: bool)
      modifies this
      ensures Outcome(state, err) == DeregisterService(ok, old(state), s)
    {
      var o := DeregisterService(ok, state, s);
      state, err := o.consul, o.failed;
    }

    method PolicyCreate() returns (err: bool)
      modifies this
      ensures Outcome(state, err) == CreatePolicy(ok, old(state))
    {
      var o := CreatePolicy(ok, state);
      state, err := o.consul, o.failed;
    }

    method NamespaceUpdate(name: string, links: seq<string>) returns (err: bool)
      modifies this
      ensures Outcome(state, err) == UpdateNamespace(ok, old(state), name, links)
    {
      var o := UpdateNamespace(ok, state, name, links);
      state, err := o.consul, o.failed;
    }

    method NamespaceCreate(name: string, links: seq<string>) returns (err: bool)
      modifies this
      ensures Outcome(state, err) == CreateNamespace(ok, old(state), name, links)
    {
      var o := CreateNamespace(ok, state, name, links);
      state, err := o.consul, o.failed;
    }
  }
}
