/** subcommand/controller/command.go: the upserts as the controller makes them, one
    API call at a time, any of which may fail. Stopping at a failed call leaves what
    a crash just before it would leave. */
module StartupCommand {
  import opened Prelude
  import opened AuthMethods
  import opened Startup
  import opened StartupSteps
  import StartupGrants

  datatype Failure = Failed

  /** A binding rule under the ID that the server gave it. */
  datatype StoredRule = StoredRule(id: string, rule: Rule)

  function Plain(stored: seq<StoredRule>): seq<Rule> {
    if stored == [] then [] else [stored[0].rule] + Plain(stored[1..])
  }

  function IDs(stored: seq<StoredRule>): set<string> {
    set s | s in stored :: s.id
  }

  predicate DistinctIDs(stored: seq<StoredRule>) {
    && (forall i :: 0 <= i < |stored| ==> stored[i].id != "")
    && (forall i, j :: 0 <= i < j < |stored| ==> stored[i].id != stored[j].id)
  }

  function Listed(stored: seq<StoredRule>, partition: string, authMethod: string): seq<StoredRule> {
    if stored == [] then []
    else if stored[0].rule.partition == partition && stored[0].rule.authMethod == authMethod then
      [stored[0]] + Listed(stored[1..], partition, authMethod)
    else Listed(stored[1..], partition, authMethod)
  }

  /** The ID of the first rule that is to be updated, "" if there is none. */
  function FirstID(stored: seq<StoredRule>, r: Rule): string {
    if stored == [] then "" else if SameRule(stored[0].rule, r) then stored[0].id else FirstID(stored[1..], r)
  }

  /** The server's update of the rule with an ID. */
  function Replace(stored: seq<StoredRule>, id: string, r: Rule): seq<StoredRule> {
    if stored == [] then []
    else if stored[0].id == id then [StoredRule(id, r)] + stored[1..]
    else [stored[0]] + Replace(stored[1..], id, r)
  }

  lemma {:induction false} ListedRules(stored: seq<StoredRule>, r: Rule)
    ensures forall s :: s in Listed(stored, r.partition, r.authMethod) ==>
      s in stored && s.rule.partition == r.partition && s.rule.authMethod == r.authMethod
    ensures FirstID(Listed(stored, r.partition, r.authMethod), r) == FirstID(stored, r)
  {
    if stored != [] { ListedRules(stored[1..], r); }
  }

  lemma {:induction false} FirstIDIsThere(stored: seq<StoredRule>, r: Rule)
    requires DistinctIDs(stored)
    ensures FirstID(stored, r) == "" ==> Put(Plain(stored), r) == Plain(stored) + [r]
    ensures FirstID(stored, r) != "" ==> FirstID(stored, r) in IDs(stored)
  {
    if stored != [] {
      FirstIDIsThere(stored[1..], r);
      assert stored == [stored[0]] + stored[1..];
      assert stored[0].id != "";
    }
  }

  lemma {:induction false} ReplaceKeepsIDs(stored: seq<StoredRule>, id: string, r: Rule)
    ensures |Replace(stored, id, r)| == |stored|
    ensures forall i :: 0 <= i < |stored| ==> Replace(stored, id, r)[i].id == stored[i].id
  {
    if stored != [] { ReplaceKeepsIDs(stored[1..], id, r); }
  }

  /** Updating by the ID found in the listing replaces the first matching rule. */
  lemma {:induction false} UpdateIsPut(stored: seq<StoredRule>, r: Rule)
    requires DistinctIDs(stored) && FirstID(stored, r) != ""
    ensures Plain(Replace(stored, FirstID(stored, r), r)) == Put(Plain(stored), r)
  {
    var id := FirstID(stored, r);
    if SameRule(stored[0].rule, r) {
      assert ([StoredRule(id, r)] + stored[1..])[1..] == stored[1..];
    } else {
      FirstIDIsThere(stored[1..], r);
      assert stored[0].id != id;
      UpdateIsPut(stored[1..], r);
      assert ([stored[0]] + Replace(stored[1..], id, r))[1..] == Replace(stored[1..], id, r);
    }
  }

  lemma FoundOrAdded(stored: seq<StoredRule>, r: Rule)
    requires DistinctIDs(stored)
    ensures Put(Plain(stored), r) ==
      if FirstID(stored, r) == "" then Plain(stored) + [r] else Plain(Replace(stored, FirstID(stored, r), r))
  {
    FirstIDIsThere(stored, r);
    if FirstID(stored, r) != "" { UpdateIsPut(stored, r); }
  }

  lemma SetRuleStored(acl: Acl, stored: seq<StoredRule>, r: Rule)
    requires acl.rules == Plain(stored) && DistinctIDs(stored)
    ensures var id := FirstID(stored, r);
      Apply(acl, SetRule(r)) ==
      acl.(rules := if id == "" then acl.rules + [r] else Plain(Replace(stored, id, r)))
  {
    FoundOrAdded(stored, r);
  }

  lemma {:induction false} PlainAppend(stored: seq<StoredRule>, s: StoredRule)
    ensures Plain(stored + [s]) == Plain(stored) + [s.rule]
  {
    if stored == [] {
      assert stored + [s] == [s];
    } else {
      assert (stored + [s])[1..] == stored[1..] + [s];
      PlainAppend(stored[1..], s);
    }
  }

  // Progress through a list of steps

  /** Some of the steps were made, in order, and all of them if ok. */
  ghost predicate Progress(before: Acl, after: Acl, ops: seq<Op>, ok: bool) {
    exists k: nat :: k <= |ops| && after == Run(before, ops[..k]) && (ok ==> k == |ops|)
  }

  lemma NoProgress(acl: Acl, ops: seq<Op>)
    ensures Progress(acl, acl, ops, false)
  {
    assert Run(acl, ops[..0]) == acl;
  }

  lemma ProgressOne(acl: Acl, op: Op)
    ensures Progress(acl, Apply(acl, op), [op], true)
  {
    assert [op][..1] == [op] && [op][..0] == [];
    assert Run(acl, [op][..1]) == Apply(acl, op);
  }

  lemma ProgressThen(a: Acl, b: Acl, c: Acl, these: seq<Op>, those: seq<Op>, ok: bool)
    requires Progress(a, b, these, true) && Progress(b, c, those, ok)
    ensures Progress(a, c, these + those, ok)
  {
    assert these[..|these|] == these;
    var k: nat :| k <= |those| && c == Run(b, those[..k]) && (ok ==> k == |those|);
    RunAppend(a, these, those[..k]);
    assert (these + those)[..|these| + k] == these + those[..k];
  }

  lemma ProgressStops(a: Acl, b: Acl, these: seq<Op>, those: seq<Op>)
    requires Progress(a, b, these, false)
    ensures Progress(a, b, these + those, false)
  {
    var k: nat :| k <= |these| && b == Run(a, these[..k]);
    assert (these + those)[..k] == these[..k];
  }

  lemma AllAnonymousSteps(cfg: Config, acl: Acl)
    ensures var steps := AnonymousSteps(cfg, true); var made := Apply(acl, steps[0]);
      && Progress(acl, made, steps, false)
      && Progress(acl, Apply(made, AttachAnonymousPolicy), steps, true)
  {
    var steps := AnonymousSteps(cfg, true);
    var made := Apply(acl, steps[0]);
    ProgressOne(acl, steps[0]);
    ProgressOne(made, steps[1]);
    NoProgress(made, [steps[1]]);
    ProgressThen(acl, made, made, [steps[0]], [steps[1]], false);
    ProgressThen(acl, made, Apply(made, steps[1]), [steps[0]], [steps[1]], true);
    assert [steps[0]] + [steps[1]] == steps;
  }

  lemma AlreadyAttached(cfg: Config, acl: Acl)
    requires ANONYMOUS_POLICY_NAME in acl.anonymous
    ensures Progress(acl, acl, AnonymousSteps(cfg, true), true)
  {
    AllAnonymousSteps(cfg, acl);
  }

  /** A completed run from a state without the controller's resources grants what it
      should. */
  lemma CompletedGrants(cfg: Config, primary: bool, start: Acl, end: Acl, ok: bool)
    requires Progress(start, end, Steps(cfg, primary), ok)
    ensures ok && StartupGrants.Fresh(cfg, start) ==> forall kind :: StartupGrants.Granted(cfg, end, kind)
  {
    if ok && StartupGrants.Fresh(cfg, start) {
      Completed(start, end, Steps(cfg, primary));
      forall kind ensures StartupGrants.Granted(cfg, end, kind) {
        StartupGrants.StartUpGrants(cfg, primary, start, [], kind);
      }
    }
  }

  lemma Completed(start: Acl, end: Acl, ops: seq<Op>)
    requires Progress(start, end, ops, true)
    ensures end == Run(start, ops)
  {
    assert ops[..|ops|] == ops;
  }

  // Consul

  class Server {
    var acl: Acl
    var stored: seq<StoredRule>
    var calls: nat
    const agent: Agent
    const succeeds: Oracle
    const newID: set<string> -> string

    /** A server with no binding rules yet. */
    constructor (acl: Acl, agent: Agent, succeeds: Oracle, newID: set<string> -> string)
      requires acl.rules == [] && forall used: set<string> :: newID(used) != "" && newID(used) !in used
      ensures Valid() && this.acl == acl && this.agent == agent && this.succeeds == succeeds
    {
      this.acl, this.stored, this.calls := acl, [], 0;
      this.agent, this.succeeds, this.newID := agent, succeeds, newID;
    }

    ghost predicate Valid() reads this {
      && acl.rules == Plain(stored) && DistinctIDs(stored)
      && forall used: set<string> :: newID(used) != "" && newID(used) !in used
    }

    method Attempt() returns (ok: bool)
      modifies this`calls
      ensures ok == succeeds(old(calls)) && calls == old(calls) + 1
    {
      ok := succeeds(calls);
      calls := calls + 1;
    }

    method PolicyRead(key: Key) returns (r: Result<Option<Policy>, Failure>)
      modifies this`calls
      ensures r.Ok? == succeeds(old(calls)) && calls == old(calls) + 1
      ensures r.Ok? ==> r.value == Stored(acl.policies, key)
    {
      var ok := Attempt();
      r := if ok then Ok(Stored(acl.policies, key)) else Err(Failed);
    }

    method PolicyCreate(key: Key, policy: Policy) returns (ok: bool)
      requires Valid()
      modifies this`acl, this`calls
      ensures Valid()
      ensures ok == succeeds(old(calls)) && calls == old(calls) + 1
      ensures acl == if ok then old(acl).(policies := old(acl).policies[key := policy]) else old(acl)
    {
      ok := Attempt();
      if ok { acl := acl.(policies := acl.policies[key := policy]); }
    }

    method RoleWrite(key: Key, role: Role) returns (ok: bool)
      requires Valid()
      modifies this`acl, this`calls
      ensures Valid()
      ensures ok == succeeds(old(calls)) && calls == old(calls) + 1
      ensures acl == if ok then old(acl).(roles := old(acl).roles[key := role]) else old(acl)
    {
      ok := Attempt();
      if ok { acl := acl.(roles := acl.roles[key := role]); }
    }

    method AuthMethodWrite(key: Key, m: AuthMethod) returns (ok: bool)
      requires Valid()
      modifies this`acl, this`calls
      ensures Valid()
      ensures ok == succeeds(old(calls)) && calls == old(calls) + 1
      ensures acl == if ok then old(acl).(authMethods := old(acl).authMethods[key := m]) else old(acl)
    {
      ok := Attempt();
      if ok { acl := acl.(authMethods := acl.authMethods[key := m]); }
    }

    method BindingRuleCreate(r: Rule) returns (ok: bool)
      requires Valid()
      modifies this`acl, this`stored, this`calls
      ensures Valid()
      ensures ok == succeeds(old(calls)) && calls == old(calls) + 1
      ensures acl == if ok then old(acl).(rules := old(acl).rules + [r]) else old(acl)
    {
      ok := Attempt();
      if ok {
        var id := newID(IDs(stored));
        assert forall i :: 0 <= i < |stored| ==> stored[i].id in IDs(stored);
        PlainAppend(stored, StoredRule(id, r));
        stored := stored + [StoredRule(id, r)];
        acl := acl.(rules := acl.rules + [r]);
      }
    }

    method BindingRuleUpdate(id: string, r: Rule) returns (ok: bool)
      requires Valid()
      modifies this`acl, this`stored, this`calls
      ensures Valid()
      ensures ok == succeeds(old(calls)) && calls == old(calls) + 1
      ensures acl == if ok then old(acl).(rules := Plain(Replace(old(stored), id, r))) else old(acl)
    {
      ok := Attempt();
      if ok {
        ReplaceKeepsIDs(stored, id, r);
        stored := Replace(stored, id, r);
        acl := acl.(rules := Plain(stored));
      }
    }
  }

  // The upserts

  class Command {
    const cfg: Config
    const server: Server

    constructor (cfg: Config, server: Server)
      ensures this.cfg == cfg && this.server == server
    {
      this.cfg, this.server := cfg, server;
    }

    method UpsertPartition() returns (ok: bool)
      requires server.Valid()
      modifies server`acl, server`calls
      ensures server.Valid()
      ensures ok == AllSucceeded(server.succeeds, old(server.calls), server.calls) && server.calls > old(server.calls)
      ensures server.acl == if ok then Apply(old(server.acl), EnsurePartition(Home(cfg))) else old(server.acl)
    {
      var listed := server.Attempt();
      if !listed { return false; }
      if Home(cfg) in server.acl.partitions {
        SettledIsIdle(server.acl, EnsurePartition(Home(cfg)));
        return true;
      }
      ok := server.Attempt();
      if ok { server.acl := server.acl.(partitions := server.acl.partitions + {Home(cfg)}); }
    }

    method UpsertConsulPolicy(key: Key, policy: Policy) returns (ok: bool)
      requires server.Valid()
      modifies server`acl, server`calls
      ensures server.Valid()
      ensures ok == AllSucceeded(server.succeeds, old(server.calls), server.calls) && server.calls > old(server.calls)
      ensures server.acl == if ok then Apply(old(server.acl), EnsurePolicy(key, policy)) else old(server.acl)
    {
      var read := server.PolicyRead(key);
      if read.Err? { return false; }
      if read.value.Some? { return true; }
      ok := server.PolicyCreate(key, policy);
    }

    method UpsertRole(key: Key, description: string, policyName: string) returns (ok: bool)
      requires server.Valid()
      modifies server`acl, server`calls
      ensures server.Valid()
      ensures ok == AllSucceeded(server.succeeds, old(server.calls), server.calls) && server.calls > old(server.calls)
      ensures server.acl ==
        if ok then Apply(old(server.acl), EnsureRole(key, description, policyName)) else old(server.acl)
    {
      var read := server.Attempt();
      if !read { return false; }
      if key in server.acl.roles {
        var role := server.acl.roles[key];
        if |role.policies| == 0 && policyName != "" {
          role := role.(policies := [policyName]);
          ok := server.RoleWrite(key, role);
          return;
        }
        return true;
      }
      var policies := [];
      if policyName != "" { policies := [policyName]; }
      ok := server.RoleWrite(key, Role(description, policies));
    }

    method UpsertAuthMethod(key: Key, ours: AuthMethod) returns (ok: bool)
      requires server.Valid()
      modifies server`acl, server`calls
      ensures server.Valid()
      ensures ok == AllSucceeded(server.succeeds, old(server.calls), server.calls) && server.calls > old(server.calls)
      ensures server.acl == if ok then Apply(old(server.acl), MergeAuthMethod(key, ours)) else old(server.acl)
    {
      var read := server.Attempt();
      if !read { return false; }
      if key in server.acl.authMethods {
        var current := server.acl.authMethods[key];
        var principals := UniqueStrings(current.principals + ours.principals);
        var tags := UniqueStrings(current.tags + ours.tags);
        if principals == current.principals && tags == current.tags { return true; }
        ok := server.AuthMethodWrite(key, ours.(principals := principals, tags := tags));
      } else {
        ok := server.AuthMethodWrite(key, ours);
      }
    }

    /** The ID of the rule to update, from the server's list. */
    method FindRuleID(r: Rule) returns (id: string)
      ensures id == FirstID(server.stored, r)
    {
      ListedRules(server.stored, r);
      var rules := Listed(server.stored, r.partition, r.authMethod);
      for i := 0 to |rules|
        invariant FirstID(rules[i..], r) == FirstID(rules, r)
      {
        assert rules[i] in rules && rules[i..][1..] == rules[i + 1..];
        if rules[i].rule.bindName == r.bindName && rules[i].rule.description == r.description {
          return rules[i].id;
        }
      }
      return "";
    }

    method UpsertBindingRule(r: Rule) returns (ok: bool)
      requires server.Valid()
      modifies server`acl, server`stored, server`calls
      ensures server.Valid()
      ensures ok == AllSucceeded(server.succeeds, old(server.calls), server.calls) && server.calls > old(server.calls)
      ensures server.acl == if ok then Apply(old(server.acl), SetRule(r)) else old(server.acl)
    {
      var read := server.Attempt();
      if !read { return false; }
      SetRuleStored(server.acl, server.stored, r);
      var id := FindRuleID(r);
      if id != "" {
        ok := server.BindingRuleUpdate(id, r);
      } else {
        ok := server.BindingRuleCreate(r);
      }
    }

    method UpsertAnonymousTokenPolicy() returns (ok: bool)
      requires server.Valid()
      modifies server`acl, server`calls
      ensures server.Valid()
      ensures ok <==> AllSucceeded(server.succeeds, old(server.calls), server.calls) && Datacenters(server.agent).Some?
      ensures server.calls >= old(server.calls)
      ensures Progress(old(server.acl), server.acl, AnonymousSteps(cfg, InPrimary(server.agent)), ok)
    {
      NoProgress(server.acl, AnonymousSteps(cfg, InPrimary(server.agent)));
      var datacenters := Datacenters(server.agent);
      if datacenters.None? { return false; }
      if datacenters.value.0 != datacenters.value.1 { return true; }
      ok := ConfigureAnonymousToken();
    }

    /** The primary datacenter's case. */
    method ConfigureAnonymousToken() returns (ok: bool)
      requires server.Valid()
      modifies server`acl, server`calls
      ensures server.Valid() && server.calls >= old(server.calls)
      ensures ok <==> AllSucceeded(server.succeeds, old(server.calls), server.calls)
      ensures Progress(old(server.acl), server.acl, AnonymousSteps(cfg, true), ok)
    {
      ghost var before := server.acl;
      NoProgress(before, AnonymousSteps(cfg, true));
      var read := server.Attempt();
      if !read { return false; }
      if ANONYMOUS_POLICY_NAME in server.acl.anonymous {
        AlreadyAttached(cfg, before);
        return true;
      }
      var created := UpsertConsulPolicy(ANONYMOUS_POLICY_KEY, AnonymousPolicy(cfg));
      if !created { return false; }
      AllAnonymousSteps(cfg, before);
      ok := server.Attempt();
      if ok {
        server.acl := server.acl.(anonymous := server.acl.anonymous + [ANONYMOUS_POLICY_NAME]);
      }
    }

    method RegisterNode() returns (ok: bool)
      requires server.Valid()
      modifies server`acl, server`calls
      ensures server.Valid()
      ensures ok == AllSucceeded(server.succeeds, old(server.calls), server.calls) && server.calls > old(server.calls)
      ensures server.acl == if ok then Run(old(server.acl), NodeSteps(cfg)) else old(server.acl)
    {
      var node := Node(cfg.nodeIP, map["synthetic-node" := "true"]);
      ok := server.Attempt();
      if ok {
        server.acl := server.acl.(nodes := server.acl.nodes[Key(Home(cfg), cfg.clusterArn) := node]);
      }
      assert NodeSteps(cfg)[..0] == [];
    }

    method UpsertApiGatewayPolicyAndRole() returns (ok: bool)
      requires server.Valid()
      modifies server`acl, server`calls
      ensures server.Valid()
      ensures ok == AllSucceeded(server.succeeds, old(server.calls), server.calls) && server.calls > old(server.calls)
      ensures Progress(old(server.acl), server.acl, RoleSteps(cfg)[..2], ok)
    {
      ok := UpsertPolicyAndRole(RoleSteps(cfg)[0], RoleSteps(cfg)[1]);
      assert RoleSteps(cfg)[..2] == [RoleSteps(cfg)[0], RoleSteps(cfg)[1]];
    }

    method UpsertMeshGatewayPolicyAndRole() returns (ok: bool)
      requires server.Valid()
      modifies server`acl, server`calls
      ensures server.Valid()
      ensures ok == AllSucceeded(server.succeeds, old(server.calls), server.calls) && server.calls > old(server.calls)
      ensures Progress(old(server.acl), server.acl, RoleSteps(cfg)[2..4], ok)
    {
      ok := UpsertPolicyAndRole(RoleSteps(cfg)[2], RoleSteps(cfg)[3]);
      assert RoleSteps(cfg)[2..4] == [RoleSteps(cfg)[2], RoleSteps(cfg)[3]];
    }

    method UpsertPolicyAndRole(policy: Op, role: Op) returns (ok: bool)
      requires server.Valid() && policy.EnsurePolicy? && role.EnsureRole?
      modifies server`acl, server`calls
      ensures server.Valid()
      ensures ok == AllSucceeded(server.succeeds, old(server.calls), server.calls) && server.calls > old(server.calls)
      ensures Progress(old(server.acl), server.acl, [policy, role], ok)
    {
      ghost var before := server.acl;
      NoProgress(before, [policy, role]);
      ok := UpsertConsulPolicy(policy.policyKey, policy.policy);
      if !ok { return; }
      ghost var between := server.acl;
      ProgressOne(before, policy);
      NoProgress(between, [role]);
      ProgressOne(between, role);
      ok := UpsertRole(role.roleKey, role.description, role.policyName);
      ProgressThen(before, between, server.acl, [policy], [role], ok);
      assert [policy] + [role] == [policy, role];
    }

    method UpsertBindingRules() returns (ok: bool)
      requires server.Valid()
      modifies server`acl, server`stored, server`calls
      ensures server.Valid()
      ensures ok == AllSucceeded(server.succeeds, old(server.calls), server.calls) && server.calls > old(server.calls)
      ensures Progress(old(server.acl), server.acl, RuleSteps(cfg), ok)
    {
      ghost var before, steps := server.acl, RuleSteps(cfg);
      var rules := BindingRules(cfg);
      NoProgress(before, []);
      ok := true;
      for i := 0 to |rules|
        invariant ok && server.Valid() && server.calls >= old(server.calls) + i
        invariant AllSucceeded(server.succeeds, old(server.calls), server.calls)
        invariant server.acl == Run(before, steps[..i])
      {
        assert steps[..i + 1][..i] == steps[..i] && steps[i] == SetRule(rules[i]);
        ok := UpsertBindingRule(rules[i]);
        if !ok { return; }
      }
      assert steps[..4] == steps;
    }

    /** upsertConsulResources makes the controller's steps in order, and all of them
        unless a call fails or the configuration is not accepted. */
    method UpsertConsulResources() returns (ok: bool)
      requires server.Valid()
      modifies server`acl, server`stored, server`calls
      ensures server.Valid()
      ensures ok <==> AllSucceeded(server.succeeds, old(server.calls), server.calls) && Accepted(cfg, server.agent)
      ensures Progress(old(server.acl), server.acl, Steps(cfg, InPrimary(server.agent)), ok)
      ensures !cfg.partitionsEnabled && cfg.partition != "" ==> server.acl == old(server.acl)
      ensures ok && StartupGrants.Fresh(cfg, old(server.acl)) ==>
        forall kind :: StartupGrants.Granted(cfg, server.acl, kind)
    {
      ghost var start, first, rest := server.acl, PartitionSteps(cfg), InPartitionSteps(cfg, InPrimary(server.agent));
      ok := ManagePartition();
      if !ok {
        ProgressStops(start, server.acl, first, rest);
        return;
      }
      ghost var mid := server.acl;
      ok := UpsertIntoPartition();
      ProgressThen(start, mid, server.acl, first, rest, ok);
      CompletedGrants(cfg, InPrimary(server.agent), start, server.acl, ok);
    }

    method UpsertIntoPartition() returns (ok: bool)
      requires server.Valid()
      modifies server`acl, server`stored, server`calls
      ensures server.Valid() && server.calls >= old(server.calls)
      ensures ok <==> AllSucceeded(server.succeeds, old(server.calls), server.calls) && Datacenters(server.agent).Some?
      ensures Progress(old(server.acl), server.acl, InPartitionSteps(cfg, InPrimary(server.agent)), ok)
    {
      ghost var start, middle := server.acl, RoleSteps(cfg) + RuleSteps(cfg);
      ghost var last := LastSteps(cfg, InPrimary(server.agent));
      ok := UpsertRolesAndRules();
      if !ok {
        ProgressStops(start, server.acl, middle, last);
        return;
      }
      ghost var mid := server.acl;
      ok := UpsertTokenAndNode();
      ProgressThen(start, mid, server.acl, middle, last, ok);
    }

    /** Reads the agent's own configuration, then sees to the partition. */
    method ManagePartition() returns (ok: bool)
      requires server.Valid()
      modifies server`acl, server`calls
      ensures server.Valid() && server.calls >= old(server.calls)
      ensures ok <==>
        AllSucceeded(server.succeeds, old(server.calls), server.calls) && (cfg.partitionsEnabled || cfg.partition == "")
      ensures Progress(old(server.acl), server.acl, PartitionSteps(cfg), ok)
      ensures !cfg.partitionsEnabled ==> server.acl == old(server.acl)
    {
      ghost var start := server.acl;
      NoProgress(start, PartitionSteps(cfg));
      ok := server.Attempt();
      if !ok { return; }
      if cfg.partitionsEnabled {
        ProgressOne(start, EnsurePartition(Home(cfg)));
        ok := UpsertPartition();
      } else if cfg.partition != "" {
        ok := false;
      }
    }

    method UpsertRolesAndRules() returns (ok: bool)
      requires server.Valid()
      modifies server`acl, server`stored, server`calls
      ensures server.Valid()
      ensures ok == AllSucceeded(server.succeeds, old(server.calls), server.calls) && server.calls > old(server.calls)
      ensures Progress(old(server.acl), server.acl, RoleSteps(cfg) + RuleSteps(cfg), ok)
    {
      ghost var start := server.acl;
      ok := UpsertRolesAndMethod();
      if !ok {
        ProgressStops(start, server.acl, RoleSteps(cfg), RuleSteps(cfg));
        return;
      }
      ghost var mid := server.acl;
      ok := UpsertBindingRules();
      ProgressThen(start, mid, server.acl, RoleSteps(cfg), RuleSteps(cfg), ok);
    }

    method UpsertTokenAndNode() returns (ok: bool)
      requires server.Valid()
      modifies server`acl, server`calls
      ensures server.Valid() && server.calls >= old(server.calls)
      ensures ok <==> AllSucceeded(server.succeeds, old(server.calls), server.calls) && Datacenters(server.agent).Some?
      ensures Progress(old(server.acl), server.acl, LastSteps(cfg, InPrimary(server.agent)), ok)
    {
      ghost var start, token, node := server.acl, AnonymousSteps(cfg, InPrimary(server.agent)), NodeSteps(cfg);
      ok := UpsertAnonymousTokenPolicy();
      if !ok {
        ProgressStops(start, server.acl, token, node);
        return;
      }
      ghost var mid := server.acl;
      NoProgress(mid, node);
      ProgressOne(mid, node[0]);
      assert node == [node[0]];
      ok := RegisterNode();
      ProgressThen(start, mid, server.acl, token, node, ok);
    }

    method UpsertRolesAndMethod() returns (ok: bool)
      requires server.Valid()
      modifies server`acl, server`calls
      ensures server.Valid()
      ensures ok == AllSucceeded(server.succeeds, old(server.calls), server.calls) && server.calls > old(server.calls)
      ensures Progress(old(server.acl), server.acl, RoleSteps(cfg), ok)
    {
      ghost var start, steps := server.acl, RoleSteps(cfg);
      ok := UpsertApiGatewayPolicyAndRole();
      if !ok {
        ProgressStops(start, server.acl, steps[..2], steps[2..]);
        assert steps[..2] + steps[2..] == steps;
        return;
      }
      ghost var mid := server.acl;
      ok := UpsertMeshGatewayPolicyAndRole();
      ProgressThen(start, mid, server.acl, steps[..2], steps[2..4], ok);
      assert steps[..2] + steps[2..4] == steps[..4];
      if !ok {
        ProgressStops(start, server.acl, steps[..4], steps[4..]);
        assert steps[..4] + steps[4..] == steps;
        return;
      }
      mid := server.acl;
      ok := UpsertTerminatingRoleAndMethod();
      ProgressThen(start, mid, server.acl, steps[..4], steps[4..], ok);
      assert steps[..4] + steps[4..] == steps;
    }

    method UpsertTerminatingRoleAndMethod() returns (ok: bool)
      requires server.Valid()
      modifies server`acl, server`calls
      ensures server.Valid()
      ensures ok == AllSucceeded(server.succeeds, old(server.calls), server.calls) && server.calls > old(server.calls)
      ensures Progress(old(server.acl), server.acl, RoleSteps(cfg)[4..], ok)
    {
      ghost var start, role, merge := server.acl, RoleSteps(cfg)[4], RoleSteps(cfg)[5];
      assert RoleSteps(cfg)[4..] == [role, merge] == [role] + [merge];
      NoProgress(start, [role, merge]);
      ok := UpsertRole(Key(Home(cfg), TERMINATING_GATEWAY_ROLE), "Terminating Gateway Role for ECS", "");
      if !ok { return; }
      ghost var mid := server.acl;
      ProgressOne(start, role);
      NoProgress(mid, [merge]);
      ProgressOne(mid, merge);
      ok := UpsertAuthMethod(Key(Home(cfg), AUTH_METHOD_NAME), ServiceAuthMethod(cfg));
      ProgressThen(start, mid, server.acl, [role], [merge], ok);
    }
  }
}
