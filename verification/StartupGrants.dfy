/** subcommand/controller/command.go: what a completed start-up amounts to where there
    was nothing before. For each kind of gateway: which role a login of that kind is
    bound to, and what that role may do. */
module StartupGrants {
  import opened Prelude
  import opened Strings
  import opened AuthMethods
  import opened Startup
  import opened StartupSteps
  import opened StartupOutcome

  datatype Kind = ApiGateway | MeshGateway | TerminatingGateway

  /** The value of the gateway-kind tag. */
  function TagOf(kind: Kind): string {
    match kind
    case ApiGateway => "api-gateway"
    case MeshGateway => "mesh-gateway"
    case TerminatingGateway => "terminating-gateway"
  }

  function RoleOf(kind: Kind): string {
    match kind
    case ApiGateway => "consul-ecs-api-gateway-role"
    case MeshGateway => "consul-ecs-mesh-gateway-role"
    case TerminatingGateway => "consul-ecs-terminating-gateway-role"
  }

  function PoliciesOf(kind: Kind): seq<string> {
    match kind
    case ApiGateway => ["consul-ecs-api-gateway-policy"]
    case MeshGateway => ["consul-ecs-mesh-gateway-policy"]
    case TerminatingGateway => []
  }

  /** A terminating gateway has no policy of the controller's. */
  function TextOf(kind: Kind, cfg: Config): RuleText {
    match kind
    case MeshGateway =>
      MeshGatewayText(cfg.partitionsEnabled && (cfg.partition == "" || cfg.partition == "default"))
    case _ => ApiGatewayText(cfg.partitionsEnabled)
  }

  /** The partition that the configuration names, or the default one. */
  function PartitionOf(cfg: Config): string {
    if cfg.partitionsEnabled && cfg.partition != "" then cfg.partition else "default"
  }

  // The binding rules

  lemma KindIsInjective(a: string, b: string)
    requires KindIs(a) == KindIs(b)
    ensures a == b
  {
    var before := "entity_tags[\"" + GATEWAY_KIND_TAG + "\"] == \"";
    assert KindIs(a) == before + a + "\"" && KindIs(b) == before + b + "\"";
    Unwrap(before, a, "\"");
    Unwrap(before, b, "\"");
  }

  lemma Unwrap(before: string, s: string, after: string)
    ensures (before + s + after)[|before|..|before + s + after| - |after|] == s
  {
  }

  function SetRulesOf(ops: seq<Op>): seq<Rule> {
    if ops == [] then []
    else SetRulesOf(ops[..|ops| - 1]) + if ops[|ops| - 1].SetRule? then [ops[|ops| - 1].rule] else []
  }

  function PutAll(rules: seq<Rule>, rs: seq<Rule>): seq<Rule> {
    if rs == [] then rules else Put(PutAll(rules, rs[..|rs| - 1]), rs[|rs| - 1])
  }

  lemma {:induction false} RunRules(acl: Acl, ops: seq<Op>)
    ensures Run(acl, ops).rules == PutAll(acl.rules, SetRulesOf(ops))
  {
    if ops != [] {
      var rest, last := ops[..|ops| - 1], ops[|ops| - 1];
      RunRules(acl, rest);
      if last.SetRule? {
        assert (SetRulesOf(rest) + [last.rule])[..|SetRulesOf(rest)|] == SetRulesOf(rest);
      } else {
        assert SetRulesOf(rest) + [] == SetRulesOf(rest);
      }
    }
  }

  lemma {:induction false} SetRulesAppend(a: seq<Op>, b: seq<Op>)
    ensures SetRulesOf(a + b) == SetRulesOf(a) + SetRulesOf(b)
    decreases |b|
  {
    if b == [] {
      assert a + b == a;
    } else {
      assert (a + b)[..|a + b| - 1] == a + b[..|b| - 1];
      SetRulesAppend(a, b[..|b| - 1]);
    }
  }

  lemma {:induction false} NoSetRules(ops: seq<Op>)
    requires forall op :: op in ops ==> !op.SetRule?
    ensures SetRulesOf(ops) == []
  {
    if ops != [] {
      assert ops[|ops| - 1] in ops;
      NoSetRules(ops[..|ops| - 1]);
    }
  }

  lemma {:induction false} PutNew(rules: seq<Rule>, r: Rule)
    requires forall s :: s in rules ==> !SameRule(s, r)
    ensures Put(rules, r) == rules + [r]
  {
    if rules != [] {
      assert rules[0] in rules;
      PutNew(rules[1..], r);
    }
  }

  lemma {:induction false} PutAllNew(rules: seq<Rule>, rs: seq<Rule>)
    requires forall s, i :: s in rules && 0 <= i < |rs| ==> !SameRule(s, rs[i])
    requires forall i, j :: 0 <= i < j < |rs| ==> !SameRule(rs[i], rs[j])
    ensures PutAll(rules, rs) == rules + rs
  {
    if rs != [] {
      var n := |rs| - 1;
      PutAllNew(rules, rs[..n]);
      forall s | s in rules + rs[..n] ensures !SameRule(s, rs[n]) {}
      PutNew(rules + rs[..n], rs[n]);
    }
  }

  lemma RuleStepsSet(cfg: Config)
    ensures SetRulesOf(RuleSteps(cfg)) == BindingRules(cfg)
  {
    var ops, rules := RuleSteps(cfg), BindingRules(cfg);
    FourRules(rules[0], rules[1], rules[2], rules[3]);
    assert rules == [rules[0], rules[1], rules[2], rules[3]];
  }

  lemma FourRules(a: Rule, b: Rule, c: Rule, d: Rule)
    ensures SetRulesOf([SetRule(a), SetRule(b), SetRule(c), SetRule(d)]) == [a, b, c, d]
  {
    SetRulesAppend([SetRule(a), SetRule(b), SetRule(c)], [SetRule(d)]);
    SetRulesAppend([SetRule(a), SetRule(b)], [SetRule(c)]);
    SetRulesAppend([SetRule(a)], [SetRule(b)]);
    OneRule(a);
    OneRule(b);
    OneRule(c);
    OneRule(d);
    assert [SetRule(a), SetRule(b), SetRule(c)] + [SetRule(d)] == [SetRule(a), SetRule(b), SetRule(c), SetRule(d)];
    assert [SetRule(a), SetRule(b)] + [SetRule(c)] == [SetRule(a), SetRule(b), SetRule(c)];
    assert [SetRule(a)] + [SetRule(b)] == [SetRule(a), SetRule(b)];
  }

  lemma OneRule(a: Rule)
    ensures SetRulesOf([SetRule(a)]) == [a]
  {
    assert [SetRule(a)][..0] == [];
  }

  lemma SetRulesParts(a: seq<Op>, b: seq<Op>, c: seq<Op>, d: seq<Op>)
    requires SetRulesOf(a) == [] && SetRulesOf(b) == [] && SetRulesOf(d) == []
    ensures SetRulesOf(a + (b + c + d)) == SetRulesOf(c)
  {
    SetRulesAppend(a, b + c + d);
    SetRulesAppend(b + c, d);
    SetRulesAppend(b, c);
  }

  lemma OthersSetNone(cfg: Config, primary: bool)
    ensures SetRulesOf(PartitionSteps(cfg)) == [] && SetRulesOf(LastSteps(cfg, primary)) == []
  {
    NoSetRules(PartitionSteps(cfg));
    NoSetRules(LastSteps(cfg, primary));
  }

  lemma RoleStepsSetNone(cfg: Config)
    ensures SetRulesOf(RoleSteps(cfg)) == []
  {
    NoSetRules(RoleSteps(cfg));
  }

  lemma StepsSet(cfg: Config, primary: bool)
    ensures SetRulesOf(Steps(cfg, primary)) == BindingRules(cfg)
  {
    OthersSetNone(cfg, primary);
    RoleStepsSetNone(cfg);
    RuleStepsSet(cfg);
    SetRulesParts(PartitionSteps(cfg), RoleSteps(cfg), RuleSteps(cfg), LastSteps(cfg, primary));
  }

  /** Nothing of the controller's is there yet. */
  predicate Fresh(cfg: Config, acl: Acl) {
    var p := PartitionOf(cfg);
    && (forall kind :: Key(p, RoleOf(kind)) !in acl.roles)
    && (forall kind, i :: 0 <= i < |PoliciesOf(kind)| ==> Key(p, PoliciesOf(kind)[i]) !in acl.policies)
    && Key(p, "iam-ecs-service-token") !in acl.authMethods
    && (forall r :: r in acl.rules ==> !OfMethod(cfg, r))
  }

  predicate OfMethod(cfg: Config, r: Rule) {
    r.partition == PartitionOf(cfg) && r.authMethod == "iam-ecs-service-token"
  }

  /** The rules are added after those that were there. */
  lemma RulesAdded(cfg: Config, primary: bool, acl: Acl)
    requires forall r :: r in acl.rules ==> !OfMethod(cfg, r)
    ensures Run(acl, Steps(cfg, primary)).rules == acl.rules + BindingRules(cfg)
  {
    var rs := BindingRules(cfg);
    RunRules(acl, Steps(cfg, primary));
    StepsSet(cfg, primary);
    forall i, j | 0 <= i < j < |rs| ensures !SameRule(rs[i], rs[j]) {
      assert |rs[i].description| != |rs[j].description|;
    }
    PutAllNew(acl.rules, rs);
  }

  /** Each kind's own rule, and the one for services. */
  lemma RulesAre(cfg: Config, i: nat)
    requires i < 4
    ensures var r := BindingRules(cfg)[i];
      && OfMethod(cfg, r)
      && (i == 0 ==> r.bindType.BindService? && r.selector == "")
      && (i > 0 ==>
            var kind := if i == 1 then ApiGateway else if i == 2 then TerminatingGateway else MeshGateway;
            r.bindType.BindRole? && r.selector == KindIs(TagOf(kind)) && r.bindName == RoleOf(kind))
  {
  }

  /** What is said of the rules for one kind. */
  ghost predicate BindsOnly(cfg: Config, rules: seq<Rule>, kind: Kind) {
    && (forall r :: r in rules && OfMethod(cfg, r) && r.selector == KindIs(TagOf(kind)) ==>
          r.bindType.BindRole? && r.bindName == RoleOf(kind))
    && (exists r :: r in rules && OfMethod(cfg, r) && r.selector == KindIs(TagOf(kind)))
  }

  lemma TagsDiffer(a: Kind, b: Kind)
    ensures TagOf(a) == TagOf(b) ==> a == b
  {
    assert a != b ==> |TagOf(a)| != |TagOf(b)|;
  }

  lemma BindsEachKind(cfg: Config, before: seq<Rule>, kind: Kind)
    requires forall r :: r in before ==> !OfMethod(cfg, r)
    ensures BindsOnly(cfg, before + BindingRules(cfg), kind)
  {
    var rs := BindingRules(cfg);
    var own := if kind.ApiGateway? then 1 else if kind.TerminatingGateway? then 2 else 3;
    RulesAre(cfg, own);
    assert rs[own] in before + rs;
    forall r | r in before + rs && OfMethod(cfg, r) && r.selector == KindIs(TagOf(kind))
      ensures r.bindType.BindRole? && r.bindName == RoleOf(kind)
    {
      assert r in rs;
      var i: nat :| i < 4 && rs[i] == r;
      RulesAre(cfg, i);
      OwnKind(i, kind);
    }
  }

  lemma OwnKind(i: nat, kind: Kind)
    requires i < 4
    ensures i == 0 ==> KindIs(TagOf(kind)) != ""
    ensures i > 0 ==>
      var other := if i == 1 then ApiGateway else if i == 2 then TerminatingGateway else MeshGateway;
      KindIs(TagOf(other)) == KindIs(TagOf(kind)) ==> other == kind
  {
    if i == 0 {
      assert |KindIs(TagOf(kind))| > 0;
    } else {
      var other := if i == 1 then ApiGateway else if i == 2 then TerminatingGateway else MeshGateway;
      if KindIs(TagOf(other)) == KindIs(TagOf(kind)) {
        KindIsInjective(TagOf(other), TagOf(kind));
        TagsDiffer(other, kind);
      }
    }
  }

  // Roles and policies

  lemma FreshRole(acl: Acl, ops: seq<Op>, i: nat)
    requires Disjoint(ops) && i < |ops| && ops[i].EnsureRole? && ops[i].roleKey !in acl.roles
    ensures var name := ops[i].policyName;
      Stored(Run(acl, ops).roles, ops[i].roleKey) ==
        Some(Role(ops[i].description, if name == "" then [] else [name]))
  {
    OutcomeAt(acl, ops, |ops|, i);
    AllOf(ops);
  }

  lemma FreshPolicy(acl: Acl, ops: seq<Op>, i: nat)
    requires Disjoint(ops) && i < |ops| && ops[i].EnsurePolicy? && ops[i].policyKey !in acl.policies
    ensures Stored(Run(acl, ops).policies, ops[i].policyKey) == Some(ops[i].policy)
  {
    OutcomeAt(acl, ops, |ops|, i);
    AllOf(ops);
  }

  /** The i-th step is the one for this kind's role, and the one before it, if it has a
      policy, for that. */
  predicate KindAt(cfg: Config, ops: seq<Op>, i: nat, kind: Kind) {
    && 0 < i < |ops| && ops[i].EnsureRole? && ops[i].roleKey == Key(PartitionOf(cfg), RoleOf(kind))
    && (if ops[i].policyName == "" then [] else [ops[i].policyName]) == PoliciesOf(kind)
    && (!kind.TerminatingGateway? ==>
          && ops[i - 1].EnsurePolicy? && ops[i - 1].policyKey == Key(PartitionOf(cfg), PoliciesOf(kind)[0])
          && ops[i - 1].policy.text == TextOf(kind, cfg))
  }

  function RoleIndex(kind: Kind): nat {
    if kind.ApiGateway? then 1 else if kind.MeshGateway? then 3 else 4
  }

  lemma RoleStepsOfKind(cfg: Config, kind: Kind)
    ensures KindAt(cfg, RoleSteps(cfg), RoleIndex(kind), kind)
  {
  }

  lemma KindAtWithin(cfg: Config, a: seq<Op>, b: seq<Op>, c: seq<Op>, i: nat, kind: Kind)
    requires KindAt(cfg, b, i, kind)
    ensures KindAt(cfg, a + (b + c), |a| + i, kind)
  {
  }

  lemma StepsOfKind(cfg: Config, primary: bool, kind: Kind)
    ensures KindAt(cfg, Steps(cfg, primary), |PartitionSteps(cfg)| + RoleIndex(kind), kind)
  {
    RoleStepsOfKind(cfg, kind);
    var after := RuleSteps(cfg) + LastSteps(cfg, primary);
    KindAtWithin(cfg, PartitionSteps(cfg), RoleSteps(cfg), after, RoleIndex(kind), kind);
    assert RoleSteps(cfg) + RuleSteps(cfg) + LastSteps(cfg, primary) == RoleSteps(cfg) + after;
  }

  /** What a kind's role may do. */
  predicate Grants(cfg: Config, acl: Acl, kind: Kind) {
    var p := PartitionOf(cfg);
    && Key(p, RoleOf(kind)) in acl.roles && acl.roles[Key(p, RoleOf(kind))].policies == PoliciesOf(kind)
    && (forall i :: 0 <= i < |PoliciesOf(kind)| ==>
          Key(p, PoliciesOf(kind)[i]) in acl.policies
          && acl.policies[Key(p, PoliciesOf(kind)[i])].text == TextOf(kind, cfg))
  }

  lemma GrantsKindAt(cfg: Config, acl: Acl, ops: seq<Op>, i: nat, kind: Kind)
    requires Fresh(cfg, acl) && Disjoint(ops) && KindAt(cfg, ops, i, kind)
    ensures Grants(cfg, Run(acl, ops), kind)
  {
    FreshRole(acl, ops, i);
    if !kind.TerminatingGateway? { FreshPolicy(acl, ops, i - 1); }
  }

  lemma GrantsEachKind(cfg: Config, primary: bool, acl: Acl, kind: Kind)
    requires Fresh(cfg, acl)
    ensures Grants(cfg, Run(acl, Steps(cfg, primary)), kind)
  {
    StepsOfKind(cfg, primary, kind);
    StepsDisjoint(cfg, primary);
    GrantsKindAt(cfg, acl, Steps(cfg, primary), |PartitionSteps(cfg)| + RoleIndex(kind), kind);
  }

  /** Logins of this kind get this kind's role, and it has this kind's policy. */
  ghost predicate Granted(cfg: Config, acl: Acl, kind: Kind) {
    BindsOnly(cfg, acl.rules, kind) && Grants(cfg, acl, kind)
  }

  // The main result

  /** Where nothing was before, a completed start-up, however often restarted, binds
      the logins of each kind of gateway to that kind's role and to no other, and the
      role has that kind's policy and no other: none for a terminating gateway. */
  lemma StartUpGrants(cfg: Config, primary: bool, acl: Acl, stops: seq<nat>, kind: Kind)
    requires Within(stops, |Steps(cfg, primary)|) && Fresh(cfg, acl)
    ensures var ops := Steps(cfg, primary);
      var end := Run(Restarts(acl, ops, stops), ops);
      Granted(cfg, end, kind)
  {
    CrashRestartConverges(cfg, primary, acl, stops);
    RulesAdded(cfg, primary, acl);
    BindsEachKind(cfg, acl.rules, kind);
    GrantsEachKind(cfg, primary, acl, kind);
  }

  /** Any other login is bound to the service that its tag names. */
  lemma StartUpBindsServices(cfg: Config, primary: bool, acl: Acl)
    requires Fresh(cfg, acl)
    ensures var rules := Run(acl, Steps(cfg, primary)).rules;
      && |rules| == |acl.rules| + 4 && acl.rules <= rules
      && OfMethod(cfg, rules[|acl.rules|]) && rules[|acl.rules|].selector == ""
      && rules[|acl.rules|].bindType.BindService?
      && rules[|acl.rules|].bindName == "${entity_tags." + SERVICE_NAME_TAG + "}"
  {
    RulesAdded(cfg, primary, acl);
    RulesAre(cfg, 0);
  }

  /** Logins are accepted from the roles at the configured path of the account, and the
      three tags are looked at. */
  lemma StartUpTrusts(cfg: Config, primary: bool, acl: Acl)
    requires Fresh(cfg, acl)
    ensures var end, key := Run(acl, Steps(cfg, primary)), Key(PartitionOf(cfg), "iam-ecs-service-token");
      && key in end.authMethods
      && (var path := Trim(cfg.iamRolePath, '/');
          end.authMethods[key].principals ==
            ["arn:aws:iam::" + cfg.account + ":role/" + (if path == "" then "" else path + "/") + "*"])
      && end.authMethods[key].tags == [
           "consul.hashicorp.com." + "gateway-kind", "consul.hashicorp.com." + "namespace",
           "consul.hashicorp.com." + "service-name"]
      && end.authMethods[key].namespaceRules ==
           (if !cfg.partitionsEnabled then []
            else [NamespaceRule("entity_tags[\"" + ("consul.hashicorp.com." + "namespace") + "\"] != \"\"",
                                "${entity_tags." + ("consul.hashicorp.com." + "namespace") + "}")])
  {
    MethodOf(cfg, primary, acl);
    PatternIs(cfg);
  }

  lemma PatternIs(cfg: Config)
    ensures var path := Trim(cfg.iamRolePath, '/');
      BoundArnPattern(cfg) ==
        "arn:aws:iam::" + cfg.account + ":role/" + (if path == "" then "" else path + "/") + "*"
  {
  }

  /** Whatever was there before, the partition is there afterwards if partitions are
      enabled, and the cluster's node is registered in it at its present address. */
  lemma StartUpRegisters(cfg: Config, primary: bool, acl: Acl)
    ensures var end, node := Run(acl, Steps(cfg, primary)), Key(PartitionOf(cfg), cfg.clusterArn);
      && (cfg.partitionsEnabled ==> PartitionOf(cfg) in end.partitions)
      && node in end.nodes && end.nodes[node] == Node(cfg.nodeIP, map["synthetic-node" := "true"])
  {
    var ops := Steps(cfg, primary);
    StepsDisjoint(cfg, primary);
    AllOf(ops);
    if cfg.partitionsEnabled {
      assert ops[0] == EnsurePartition(PartitionOf(cfg));
      OutcomeAt(acl, ops, |ops|, 0);
    }
    assert ops[|ops| - 1] == NodeSteps(cfg)[0];
    OutcomeAt(acl, ops, |ops|, |ops| - 1);
  }

  /** The anonymous token is seen to exactly in the primary datacenter. */
  lemma StartUpAttaches(cfg: Config, primary: bool, acl: Acl)
    ensures ANONYMOUS_POLICY_NAME in Run(acl, Steps(cfg, primary)).anonymous <==>
      primary || ANONYMOUS_POLICY_NAME in acl.anonymous
  {
    var ops := Steps(cfg, primary);
    StepsDisjoint(cfg, primary);
    if primary {
      var i := |ops| - 2;
      assert ops[i] == AnonymousSteps(cfg, true)[1];
      OutcomeAt(acl, ops, |ops|, i);
      AllOf(ops);
    } else {
      forall op | op in ops ensures !op.AttachAnonymousPolicy? {
        var i: nat :| i < |ops| && ops[i] == op;
        StepAt(cfg, primary, i);
      }
      LinksStay(acl, ops);
    }
  }

  /** Its policy, where there was none, is the one for the anonymous token. */
  lemma StartUpCreatesAnonymousPolicy(cfg: Config, acl: Acl)
    requires ANONYMOUS_POLICY_NAME !in acl.anonymous && ANONYMOUS_POLICY_KEY !in acl.policies
    ensures var end := Run(acl, Steps(cfg, true)).policies;
      && Key("default", "anonymous-token-policy") in end
      && end[Key("default", "anonymous-token-policy")].text == AnonymousText(cfg.partitionsEnabled)
  {
    var ops := Steps(cfg, true);
    StepsDisjoint(cfg, true);
    var i := |ops| - 3;
    assert ops[i] == AnonymousSteps(cfg, true)[0];
    OutcomeAt(acl, ops, |ops|, i);
    AllOf(ops);
  }

  lemma {:induction false} LinksStay(acl: Acl, ops: seq<Op>)
    requires forall op :: op in ops ==> !op.AttachAnonymousPolicy?
    ensures Run(acl, ops).anonymous == acl.anonymous
  {
    if ops != [] {
      assert ops[|ops| - 1] in ops;
      LinksStay(acl, ops[..|ops| - 1]);
    }
  }

  /** This is the primary datacenter if it has the name that the agent's configuration
      gives as the primary's, or failing that its debug configuration. */
  lemma PrimaryExactly(agent: Agent)
    ensures Datacenters(agent).None? <==> agent.datacenter == "" || (agent.primary == "" && agent.debugPrimary == "")
    ensures InPrimary(agent) <==>
      && agent.datacenter != ""
      && (agent.datacenter == agent.primary || (agent.primary == "" && agent.datacenter == agent.debugPrimary))
  {
  }

  // The path of the principals

  function Repeated(c: char, n: nat): string {
    seq(n, _ => c)
  }

  lemma {:induction false} TrimRightExactly(s: string, c: char) returns (n: nat)
    ensures var t := TrimRight(s, c);
      s == t + Repeated(c, n) && (t == "" || t[|t| - 1] != c) && TrimRight(s, c) <= s
  {
    n := 0;
    if s != "" && s[|s| - 1] == c {
      var m := TrimRightExactly(s[..|s| - 1], c);
      n := m + 1;
      assert s == s[..|s| - 1] + [c];
      assert Repeated(c, m) + [c] == Repeated(c, n);
    }
  }

  /** What is left has no such character at either end, and nothing else is gone. */
  lemma {:induction false} TrimExactly(s: string, c: char) returns (m: nat, n: nat)
    ensures var t := Trim(s, c);
      s == Repeated(c, m) + t + Repeated(c, n) && (t != "" ==> t[0] != c && t[|t| - 1] != c)
  {
    m := 0;
    if s != "" && s[0] == c {
      m, n := TrimExactly(s[1..], c);
      assert s == [c] + s[1..];
      assert [c] + Repeated(c, m) == Repeated(c, m + 1);
      m := m + 1;
    } else {
      n := TrimRightExactly(s, c);
    }
  }
}
