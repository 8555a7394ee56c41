/** subcommand/controller/command.go: the steps of one controller's start-up, in
    order, and what holds of them however often the controller crashes. */
module StartupSteps {
  import opened Prelude
  import opened Strings
  import opened AuthMethods
  import opened Startup

  /** Datacenter names from the agent: Config's two and DebugConfig's primary. */
  datatype Agent = Agent(datacenter: string, primary: string, debugPrimary: string)

  datatype Config = Config(
    partitionsEnabled: bool, partition: string, iamRolePath: string, account: string, clusterArn: string,
    nodeIP: string)

  /** consulDatacenterList: this datacenter and the primary one. */
  function Datacenters(agent: Agent): Option<(string, string)> {
    if agent.datacenter == "" || (agent.primary == "" && agent.debugPrimary == "") then None
    else Some((agent.datacenter, if agent.primary != "" then agent.primary else agent.debugPrimary))
  }

  predicate InPrimary(agent: Agent) {
    var datacenters := Datacenters(agent);
    datacenters.Some? && datacenters.value.0 == datacenters.value.1
  }

  /** A partition needs partitions enabled; the agent must name the datacenters. */
  predicate Accepted(cfg: Config, agent: Agent) {
    (cfg.partitionsEnabled || cfg.partition == "") && Datacenters(agent).Some?
  }

  function Home(cfg: Config): string {
    if cfg.partitionsEnabled && cfg.partition != "" then cfg.partition else DEFAULT_PARTITION
  }

  const TAG_STEM := "consul.hashicorp.com."
  const GATEWAY_KIND_TAG := TAG_STEM + "gateway-kind"
  const NAMESPACE_TAG := TAG_STEM + "namespace"
  const SERVICE_NAME_TAG := TAG_STEM + "service-name"
  const AUTH_METHOD_NAME := "iam-ecs-service-token"
  const API_GATEWAY_ROLE := "consul-ecs-api-gateway-role"
  const API_GATEWAY_POLICY := "consul-ecs-api-gateway-policy"
  const TERMINATING_GATEWAY_ROLE := "consul-ecs-terminating-gateway-role"
  const MESH_GATEWAY_ROLE := "consul-ecs-mesh-gateway-role"
  const MESH_GATEWAY_POLICY := "consul-ecs-mesh-gateway-policy"

  /** strings.Trim for one character. */
  function TrimRight(s: string, c: char): string {
    if s != "" && s[|s| - 1] == c then TrimRight(s[..|s| - 1], c) else s
  }

  function Trim(s: string, c: char): string {
    if s != "" && s[0] == c then Trim(s[1..], c) else TrimRight(s, c)
  }

  function BoundArnPattern(cfg: Config): string {
    var path := Trim(cfg.iamRolePath, '/');
    "arn:aws:iam::" + cfg.account + ":role/" + (if path != "" then path + "/" else "") + "*"
  }

  function ServiceAuthMethod(cfg: Config): AuthMethod {
    AuthMethod(
      [BoundArnPattern(cfg)], [GATEWAY_KIND_TAG, NAMESPACE_TAG, SERVICE_NAME_TAG],
      if cfg.partitionsEnabled then
        [NamespaceRule("entity_tags[\"" + NAMESPACE_TAG + "\"] != \"\"", "${entity_tags." + NAMESPACE_TAG + "}")]
      else [])
  }

  function KindIs(kind: string): string {
    "entity_tags[\"" + GATEWAY_KIND_TAG + "\"] == \"" + kind + "\""
  }

  function ServiceRule(cfg: Config): Rule {
    Rule(Home(cfg), AUTH_METHOD_NAME, "${entity_tags." + SERVICE_NAME_TAG + "}",
      "Bind a service identity from IAM role tag for ECS", BindService, "")
  }

  function GatewayRule(cfg: Config, kind: string, role: string, description: string): Rule {
    Rule(Home(cfg), AUTH_METHOD_NAME, role, description, BindRole, KindIs(kind))
  }

  function BindingRules(cfg: Config): seq<Rule> {
    [ ServiceRule(cfg),
      GatewayRule(cfg, "api-gateway", API_GATEWAY_ROLE,
        "Bind a Consul role from IAM role tag for ECS based API gateways"),
      GatewayRule(cfg, "terminating-gateway", TERMINATING_GATEWAY_ROLE,
        "Bind a Consul role from IAM role tag for ECS based Terminating gateways"),
      GatewayRule(cfg, "mesh-gateway", MESH_GATEWAY_ROLE,
        "Bind a Consul role from IAM role tag for ECS based mesh gateways") ]
  }

  function PolicyStep(cfg: Config, name: string, description: string, text: RuleText): Op {
    EnsurePolicy(Key(Home(cfg), name), Policy(description, text))
  }

  function RoleStep(cfg: Config, name: string, description: string, policyName: string): Op {
    EnsureRole(Key(Home(cfg), name), description, policyName)
  }

  function PartitionSteps(cfg: Config): seq<Op> {
    if cfg.partitionsEnabled then [EnsurePartition(Home(cfg))] else []
  }

  /** The policies and roles, and the auth method. */
  function RoleSteps(cfg: Config): seq<Op> {
    [ PolicyStep(cfg, API_GATEWAY_POLICY, "API Gateway token Policy", ApiGatewayText(cfg.partitionsEnabled)),
      RoleStep(cfg, API_GATEWAY_ROLE, "API Gateway Role for ECS", API_GATEWAY_POLICY),
      PolicyStep(cfg, MESH_GATEWAY_POLICY, "Mesh Gateway token Policy",
        MeshGatewayText(cfg.partitionsEnabled && Home(cfg) == DEFAULT_PARTITION)),
      RoleStep(cfg, MESH_GATEWAY_ROLE, "Mesh Gateway Role for ECS", MESH_GATEWAY_POLICY),
      RoleStep(cfg, TERMINATING_GATEWAY_ROLE, "Terminating Gateway Role for ECS", ""),
      MergeAuthMethod(Key(Home(cfg), AUTH_METHOD_NAME), ServiceAuthMethod(cfg)) ]
  }

  function RuleSteps(cfg: Config): seq<Op> {
    var rules := BindingRules(cfg);
    [SetRule(rules[0]), SetRule(rules[1]), SetRule(rules[2]), SetRule(rules[3])]
  }

  function AnonymousPolicy(cfg: Config): Policy {
    Policy("Anonymous token Policy", AnonymousText(cfg.partitionsEnabled))
  }

  /** Only the primary datacenter's controllers look after the anonymous token. */
  function AnonymousSteps(cfg: Config, primary: bool): seq<Op> {
    if primary then
      [EnsureAnonymousPolicy(AnonymousPolicy(cfg)), AttachAnonymousPolicy]
    else []
  }

  function NodeSteps(cfg: Config): seq<Op> {
    [RegisterNode(Key(Home(cfg), cfg.clusterArn), Node(cfg.nodeIP, map["synthetic-node" := "true"]))]
  }

  function LastSteps(cfg: Config, primary: bool): seq<Op> {
    AnonymousSteps(cfg, primary) + NodeSteps(cfg)
  }

  /** The steps within the controller's partition. */
  function InPartitionSteps(cfg: Config, primary: bool): seq<Op> {
    RoleSteps(cfg) + RuleSteps(cfg) + LastSteps(cfg, primary)
  }

  function Steps(cfg: Config, primary: bool): seq<Op> {
    PartitionSteps(cfg) + InPartitionSteps(cfg, primary)
  }

  // Two controllers never undo each other

  lemma OurMethodIsSorted(cfg: Config)
    ensures Sorted(ServiceAuthMethod(cfg))
  {
    SuffixOrder(TAG_STEM, "gateway-kind", "namespace");
    SuffixOrder(TAG_STEM, "gateway-kind", "service-name");
    SuffixOrder(TAG_STEM, "namespace", "service-name");
  }

  lemma {:induction false} SuffixOrder(stem: string, a: string, b: string)
    requires a != "" && b != "" && a[0] < b[0]
    ensures Less(stem + a, stem + b)
  {
    if stem == "" {
      assert stem + a == a && stem + b == b;
    } else {
      SuffixOrder(stem[1..], a, b);
      assert (stem + a)[1..] == stem[1..] + a && (stem + b)[1..] == stem[1..] + b;
    }
  }

  /** The node's address aside, which the last registration decides. */
  predicate SameNodeAddress(a: Config, b: Config) {
    a.clusterArn == b.clusterArn && Home(a) == Home(b) ==> a.nodeIP == b.nodeIP
  }

  lemma RulesDistinct(a: Config, b: Config, i: nat, j: nat)
    requires i < 4 && j < 4
    ensures var r, s := BindingRules(a)[i], BindingRules(b)[j]; r == s || !SameRule(r, s)
  {
    var r, s := BindingRules(a)[i], BindingRules(b)[j];
    if i != j {
      assert |r.description| != |s.description|;
    }
  }

  lemma WhatStepsDo(cfg: Config, primary: bool, op: Op)
    requires op in Steps(cfg, primary)
    ensures op.SetRule? ==> exists i: nat :: i < 4 && op.rule == BindingRules(cfg)[i]
    ensures op.MergeAuthMethod? ==> op.authMethod == ServiceAuthMethod(cfg)
    ensures op.RegisterNode? ==>
      && op.nodeKey == Key(Home(cfg), cfg.clusterArn)
      && op.node.address == cfg.nodeIP && op.node.meta == map["synthetic-node" := "true"]
  {
    if op.SetRule? {
      assert op in RuleSteps(cfg);
      var i: nat :| i < 4 && op == RuleSteps(cfg)[i];
      assert op.rule == BindingRules(cfg)[i];
    }
  }

  lemma StepsCompatible(a: Config, b: Config, primaryA: bool, primaryB: bool)
    requires SameNodeAddress(a, b)
    ensures AllCompatible(Steps(a, primaryA), Steps(b, primaryB))
  {
    OurMethodIsSorted(a);
    OurMethodIsSorted(b);
    forall x, y | x in Steps(a, primaryA) && y in Steps(b, primaryB) ensures Compatible(x, y) {
      WhatStepsDo(a, primaryA, x);
      WhatStepsDo(b, primaryB, y);
      if x.SetRule? && y.SetRule? {
        var i: nat :| i < 4 && x.rule == BindingRules(a)[i];
        var j: nat :| j < 4 && y.rule == BindingRules(b)[j];
        RulesDistinct(a, b, i, j);
      }
    }
  }

  // The controller's order

  lemma HomeMade(cfg: Config, before: seq<Op>)
    requires PartitionSteps(cfg) <= before
    ensures PartitionMade(before, Home(cfg))
  {
    if cfg.partitionsEnabled {
      assert before[0] in before && MakesPartition(before[0], Home(cfg));
    }
  }

  lemma RoleStepsJustified(cfg: Config, k: nat)
    requires k < 6
    ensures Justified(PartitionSteps(cfg) + RoleSteps(cfg)[..k], RoleSteps(cfg)[k])
  {
    var before := PartitionSteps(cfg) + RoleSteps(cfg)[..k];
    HomeMade(cfg, before);
    if k == 1 || k == 3 {
      assert RoleSteps(cfg)[k - 1] == RoleSteps(cfg)[..k][k - 1];
      assert RoleSteps(cfg)[k - 1] in before;
      assert MakesPolicy(RoleSteps(cfg)[k - 1], Key(Home(cfg), RoleSteps(cfg)[k].policyName));
    }
  }

  lemma RuleStepsJustified(cfg: Config, before: seq<Op>, k: nat)
    requires k < 4 && forall op :: op in RoleSteps(cfg) ==> op in before
    ensures Justified(before, RuleSteps(cfg)[k])
  {
    var roles, r := RoleSteps(cfg), BindingRules(cfg)[k];
    assert roles[5] in before && MakesMethod(roles[5], Key(r.partition, r.authMethod));
    if k > 0 {
      var maker := if k == 1 then roles[1] else if k == 2 then roles[4] else roles[3];
      assert maker in roles;
      assert MakesRole(maker, Key(r.partition, r.bindName));
    }
  }

  lemma LastStepsJustified(cfg: Config, primary: bool, before: seq<Op>, k: nat)
    requires k < |LastSteps(cfg, primary)| && PartitionSteps(cfg) <= before
    ensures Justified(before + LastSteps(cfg, primary)[..k], LastSteps(cfg, primary)[k])
  {
    var last := LastSteps(cfg, primary);
    var made := before + last[..k];
    if last[k].AttachAnonymousPolicy? {
      assert last[..k][0] == last[0];
      assert last[0] in made && last[0].EnsureAnonymousPolicy?;
    } else if k == |last| - 1 {
      assert PartitionSteps(cfg) <= made;
      HomeMade(cfg, made);
    }
  }

  /** The steps of a list in four parts are in sequence if each part's are. */
  lemma SequencedParts(a: seq<Op>, b: seq<Op>, c: seq<Op>, d: seq<Op>)
    requires forall k :: 0 <= k < |a| ==> Justified(a[..k], a[k])
    requires forall k :: 0 <= k < |b| ==> Justified(a + b[..k], b[k])
    requires forall k :: 0 <= k < |c| ==> Justified(a + b + c[..k], c[k])
    requires forall k :: 0 <= k < |d| ==> Justified(a + b + c + d[..k], d[k])
    ensures Sequenced(a + (b + c + d))
  {
    var ops := a + (b + c + d);
    forall k | 0 <= k < |ops| ensures Justified(ops[..k], ops[k]) {
      if k < |a| {
        assert ops[..k] == a[..k];
      } else if k < |a| + |b| {
        assert ops[..k] == a + b[..k - |a|];
      } else if k < |a| + |b| + |c| {
        assert ops[..k] == a + b + c[..k - |a| - |b|];
      } else {
        assert ops[..k] == a + b + c + d[..k - |a| - |b| - |c|];
      }
    }
  }

  lemma StepsSequenced(cfg: Config, primary: bool)
    ensures Sequenced(Steps(cfg, primary))
  {
    var first, roles, rules, last := PartitionSteps(cfg), RoleSteps(cfg), RuleSteps(cfg), LastSteps(cfg, primary);
    forall k | 0 <= k < |roles| ensures Justified(first + roles[..k], roles[k]) {
      RoleStepsJustified(cfg, k);
    }
    forall k | 0 <= k < |rules| ensures Justified(first + roles + rules[..k], rules[k]) {
      RuleStepsJustified(cfg, first + roles + rules[..k], k);
    }
    forall k | 0 <= k < |last| ensures Justified(first + roles + rules + last[..k], last[k]) {
      LastStepsJustified(cfg, primary, first + roles + rules, k);
    }
    SequencedParts(first, roles, rules, last);
  }

  // The main results

  /** Stopped after any write, any number of times, and then run to its end, the
      start-up leaves exactly what one uninterrupted run leaves. */
  lemma CrashRestartConverges(cfg: Config, primary: bool, acl: Acl, stops: seq<nat>)
    requires Within(stops, |Steps(cfg, primary)|)
    ensures Run(Restarts(acl, Steps(cfg, primary), stops), Steps(cfg, primary)) == Run(acl, Steps(cfg, primary))
  {
    StepsCompatible(cfg, cfg, primary, primary);
    RestartsConverge(acl, Steps(cfg, primary), stops);
  }

  /** At whatever point it was stopped, however often: no role names a policy that
      does not exist, no rule a missing auth method, no token a missing policy; and
      the next write will refer only to what is there. */
  lemma NothingDangles(cfg: Config, primary: bool, acl: Acl, stops: seq<nat>)
    requires Intact(acl) && Within(stops, |Steps(cfg, primary)|)
    ensures Intact(Restarts(acl, Steps(cfg, primary), stops))
    ensures forall k :: 0 <= k < |Steps(cfg, primary)| ==>
      Ready(Run(acl, Steps(cfg, primary)[..k]), Steps(cfg, primary)[k])
  {
    var ops := Steps(cfg, primary);
    StepsCompatible(cfg, cfg, primary, primary);
    StepsSequenced(cfg, primary);
    RestartsReach(acl, ops, stops);
    RunIntact(acl, ops, Furthest(stops));
    forall k | 0 <= k < |ops| ensures Ready(Run(acl, ops[..k]), ops[k]) {
      RunIntact(acl, ops, k);
    }
  }

  /** A completed start-up leaves each of the four binding rules once, unless there
      were duplicates already, and links the anonymous token at most once more. */
  lemma NoDuplicates(cfg: Config, primary: bool, acl: Acl, r: Rule)
    requires r in BindingRules(cfg)
    ensures var end := Run(acl, Steps(cfg, primary));
      && Count(end.rules, r) == Max(1, Count(acl.rules, r))
      && First(end.rules, r) == Some(r)
  {
    var ops := Steps(cfg, primary);
    RuleStepIsThere(cfg, primary, r);
    StepsCompatible(cfg, cfg, primary, primary);
    SetRuleOnce(acl, ops, r);
  }

  lemma RuleStepIsThere(cfg: Config, primary: bool, r: Rule)
    requires r in BindingRules(cfg)
    ensures SetRule(r) in Steps(cfg, primary)
  {
    var i: nat :| i < 4 && r == BindingRules(cfg)[i];
    assert RuleSteps(cfg)[i] == SetRule(r);
    assert SetRule(r) in RuleSteps(cfg);
  }

  lemma SetRuleOnce(acl: Acl, ops: seq<Op>, r: Rule)
    requires AllCompatible(ops, ops) && SetRule(r) in ops
    ensures Count(Run(acl, ops).rules, r) == Max(1, Count(acl.rules, r)) && First(Run(acl, ops).rules, r) == Some(r)
  {
    var i :| 0 <= i < |ops| && ops[i] == SetRule(r);
    assert SetsIt(ops[i], r);
    RunAddsNoDuplicate(acl, ops, r);
    RunSettles(acl, ops);
    assert Settled(Run(acl, ops), SetRule(r));
  }
}
