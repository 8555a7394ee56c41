/** subcommand/controller/command.go: what a completed start-up leaves, which is not
    always what its steps are for. A step that finds something under the name it
    looks for mostly leaves that as it is; and an auth method that it does update
    loses the namespace rules it had. */
module StartupOutcome {
  import opened Prelude
  import opened Strings
  import opened AuthMethods
  import opened Startup
  import opened StartupSteps

  // Purposes

  /** What a step is for. */
  predicate Achieved(acl: Acl, op: Op) {
    match op
    case EnsurePartition(p) => p in acl.partitions
    case EnsurePolicy(key, policy) => Stored(acl.policies, key) == Some(policy)
    case EnsureRole(key, _, policyName) =>
      key in acl.roles && (policyName == "" || policyName in acl.roles[key].policies)
    case MergeAuthMethod(key, ours) =>
      Settled(acl, op) && acl.authMethods[key].namespaceRules == ours.namespaceRules
    case SetRule(r) => First(acl.rules, r) == Some(r)
    case EnsureAnonymousPolicy(policy) => Stored(acl.policies, ANONYMOUS_POLICY_KEY) == Some(policy)
    case AttachAnonymousPolicy => ANONYMOUS_POLICY_NAME in acl.anonymous
    case RegisterNode(key, node) => Stored(acl.nodes, key) == Some(node)
  }

  /** Nothing else is in its place that the step would leave there. */
  predicate Attainable(acl: Acl, op: Op) {
    match op
    case EnsurePolicy(key, policy) => key in acl.policies ==> acl.policies[key] == policy
    case EnsureRole(key, _, policyName) =>
      (policyName != "" && key in acl.roles && acl.roles[key].policies != []) ==> policyName in acl.roles[key].policies
    case MergeAuthMethod(key, ours) =>
      (key in acl.authMethods && UpToDate(acl.authMethods[key], ours)) ==>
        acl.authMethods[key].namespaceRules == ours.namespaceRules
    case EnsureAnonymousPolicy(policy) =>
      if ANONYMOUS_POLICY_KEY in acl.policies then acl.policies[ANONYMOUS_POLICY_KEY] == policy
      else ANONYMOUS_POLICY_NAME !in acl.anonymous
    case _ => true
  }

  /** A step achieves its purpose exactly then. */
  lemma ApplyAchieves(acl: Acl, op: Op)
    requires Compatible(op, op)
    ensures Achieved(Apply(acl, op), op) <==> Attainable(acl, op)
  {
    ApplySettles(acl, op);
    if op.MergeAuthMethod? { UpsertRules(Stored(acl.authMethods, op.methodKey), op.authMethod); }
  }

  /** An update overwrites the namespace rules; a skipped one leaves them. */
  lemma UpsertRules(stored: Option<AuthMethod>, ours: AuthMethod)
    ensures Upsert(stored, ours).namespaceRules ==
      if stored.Some? && UpToDate(stored.value, ours) then stored.value.namespaceRules else ours.namespaceRules
  {
  }

  // Steps that have nothing to do with each other

  /** The other step leaves alone what this one is about. */
  predicate Apart(op: Op, other: Op) {
    match op
    case EnsurePolicy(key, _) =>
      && (other.EnsurePolicy? ==> other.policyKey != key)
      && (other.EnsureAnonymousPolicy? ==> key != ANONYMOUS_POLICY_KEY)
    case EnsureRole(key, _, _) => other.EnsureRole? ==> other.roleKey != key
    case MergeAuthMethod(key, _) => other.MergeAuthMethod? ==> other.methodKey != key
    case SetRule(r) => other.SetRule? ==> !SameRule(r, other.rule)
    case EnsureAnonymousPolicy(_) =>
      !other.EnsureAnonymousPolicy? && (other.EnsurePolicy? ==> other.policyKey != ANONYMOUS_POLICY_KEY)
    case RegisterNode(key, _) => other.RegisterNode? ==> other.nodeKey != key
    case EnsurePartition(_) => !other.EnsurePartition?
    case AttachAnonymousPolicy => !other.AttachAnonymousPolicy?
  }

  /** a and b have the same in the place that a step is about. */
  predicate SamePlace(a: Acl, b: Acl, op: Op) {
    match op
    case EnsurePartition(p) => p in a.partitions <==> p in b.partitions
    case EnsurePolicy(key, _) => Stored(a.policies, key) == Stored(b.policies, key)
    case EnsureRole(key, _, _) => Stored(a.roles, key) == Stored(b.roles, key)
    case MergeAuthMethod(key, _) => Stored(a.authMethods, key) == Stored(b.authMethods, key)
    case SetRule(r) => First(a.rules, r) == First(b.rules, r)
    case EnsureAnonymousPolicy(_) =>
      Stored(a.policies, ANONYMOUS_POLICY_KEY) == Stored(b.policies, ANONYMOUS_POLICY_KEY)
    case AttachAnonymousPolicy => ANONYMOUS_POLICY_NAME in a.anonymous <==> ANONYMOUS_POLICY_NAME in b.anonymous
    case RegisterNode(key, _) => Stored(a.nodes, key) == Stored(b.nodes, key)
  }

  /** And the same links of the anonymous token, which its policy's step looks at. */
  predicate SameInput(a: Acl, b: Acl, op: Op) {
    SamePlace(a, b, op) && (op.EnsureAnonymousPolicy? ==> SamePlace(a, b, AttachAnonymousPolicy))
  }

  predicate Undisturbed(op: Op, other: Op) {
    Apart(op, other) && (op.EnsureAnonymousPolicy? ==> !other.AttachAnonymousPolicy?)
  }

  lemma ApartKeepsPlace(acl: Acl, op: Op, other: Op)
    requires Apart(op, other)
    ensures SamePlace(Apply(acl, other), acl, op)
  {
    if op.SetRule? && other.SetRule? { PutElsewhere(acl.rules, op.rule, other.rule); }
  }

  lemma UndisturbedKeepsInput(acl: Acl, op: Op, other: Op)
    requires Undisturbed(op, other)
    ensures SameInput(Apply(acl, other), acl, op)
  {
    ApartKeepsPlace(acl, op, other);
  }

  /** A step does the same to its place wherever it finds the same. */
  lemma SameEffect(a: Acl, b: Acl, op: Op)
    requires SameInput(a, b, op)
    ensures SamePlace(Apply(a, op), Apply(b, op), op)
  {
    if op.SetRule? {
      PutIsFirst(a.rules, op.rule);
      PutIsFirst(b.rules, op.rule);
    }
  }

  lemma {:induction false} RunKeepsInput(acl: Acl, ops: seq<Op>, op: Op)
    requires forall other :: other in ops ==> Undisturbed(op, other)
    ensures SameInput(Run(acl, ops), acl, op)
  {
    if ops != [] {
      var rest, last := ops[..|ops| - 1], ops[|ops| - 1];
      assert last in ops;
      RunKeepsInput(acl, rest, op);
      UndisturbedKeepsInput(Run(acl, rest), op, last);
    }
  }

  lemma {:induction false} RunKeepsPlace(acl: Acl, ops: seq<Op>, op: Op)
    requires forall other :: other in ops ==> Apart(op, other)
    ensures SamePlace(Run(acl, ops), acl, op)
  {
    if ops != [] {
      var rest, last := ops[..|ops| - 1], ops[|ops| - 1];
      assert last in ops;
      RunKeepsPlace(acl, rest, op);
      ApartKeepsPlace(Run(acl, rest), op, last);
    }
  }

  /** A run leaves in the place of a step what that step alone would have left. */
  lemma RunOutcome(acl: Acl, before: seq<Op>, op: Op, after: seq<Op>)
    requires forall other :: other in before ==> Undisturbed(op, other)
    requires forall other :: other in after ==> Apart(op, other)
    ensures SamePlace(Run(acl, before + [op] + after), Apply(acl, op), op)
  {
    var first := Run(acl, before);
    RunKeepsInput(acl, before, op);
    SameEffect(first, acl, op);
    RunAppend(acl, before, [op]);
    RunAppend(acl, before + [op], after);
    assert [op][..0] == [];
    assert Run(first, [op]) == Apply(first, op);
    RunKeepsPlace(Apply(first, op), after, op);
  }

  lemma SamePlaceAchieves(a: Acl, b: Acl, op: Op)
    requires SamePlace(a, b, op)
    ensures Achieved(a, op) <==> Achieved(b, op)
  {
  }

  /** No two steps are about the same, nor one about what another looks at before. */
  predicate PairDisjoint(ops: seq<Op>, i: int, j: int)
    requires 0 <= i < |ops| && 0 <= j < |ops|
  {
    Apart(ops[i], ops[j]) && (j < i ==> Undisturbed(ops[i], ops[j]))
  }

  predicate Disjoint(ops: seq<Op>) {
    forall i, j :: 0 <= i < |ops| && 0 <= j < |ops| && i != j ==> PairDisjoint(ops, i, j)
  }

  /** In the place of each step a run of the first n steps leaves what that step
      alone would have left. */
  lemma OutcomeAt(acl: Acl, ops: seq<Op>, n: nat, i: nat)
    requires Disjoint(ops) && i < n <= |ops|
    ensures SamePlace(Run(acl, ops[..n]), Apply(acl, ops[i]), ops[i])
  {
    forall other | other in ops[..i] ensures Undisturbed(ops[i], other) {
      var j :| 0 <= j < i && ops[j] == other;
      assert PairDisjoint(ops, i, j);
    }
    forall other | other in ops[i + 1..n] ensures Apart(ops[i], other) {
      var j :| i + 1 <= j < n && ops[j] == other;
      assert PairDisjoint(ops, i, j);
    }
    RunOutcome(acl, ops[..i], ops[i], ops[i + 1..n]);
    assert ops[..i] + [ops[i]] + ops[i + 1..n] == ops[..n];
  }

  lemma RunAchieves(acl: Acl, ops: seq<Op>, op: Op)
    requires Disjoint(ops) && AllCompatible(ops, ops) && op in ops
    ensures Achieved(Run(acl, ops), op) <==> Attainable(acl, op)
  {
    var i: nat :| i < |ops| && ops[i] == op;
    OutcomeAt(acl, ops, |ops|, i);
    assert ops[..|ops|] == ops;
    SamePlaceAchieves(Run(acl, ops), Apply(acl, op), op);
    ApplyAchieves(acl, op);
  }

  /** What the first n steps do to the auth methods, the i-th being the one about them. */
  lemma MethodsAfter(acl: Acl, ops: seq<Op>, n: nat, i: nat, k: Key)
    requires Disjoint(ops) && n <= |ops| && i < |ops| && ops[i].MergeAuthMethod?
    requires forall j :: 0 <= j < |ops| && ops[j].MergeAuthMethod? ==> j == i
    ensures Stored(Run(acl, ops[..n]).authMethods, k) ==
      if k == ops[i].methodKey && i < n then Some(Upsert(Stored(acl.authMethods, k), ops[i].authMethod))
      else Stored(acl.authMethods, k)
  {
    if k == ops[i].methodKey && i < n {
      OutcomeAt(acl, ops, n, i);
    } else {
      forall op | op in ops[..n] && op.MergeAuthMethod? ensures op.methodKey != k {
        var j: nat :| j < n && ops[j] == op;
      }
      OtherMethodKept(acl, ops[..n], k);
    }
  }

  lemma NodesAfter(acl: Acl, ops: seq<Op>, n: nat, i: nat, k: Key)
    requires Disjoint(ops) && n <= |ops| && i < |ops| && ops[i].RegisterNode?
    requires forall j :: 0 <= j < |ops| && ops[j].RegisterNode? ==> j == i
    ensures Stored(Run(acl, ops[..n]).nodes, k) ==
      if k == ops[i].nodeKey && i < n then Some(ops[i].node) else Stored(acl.nodes, k)
  {
    if k == ops[i].nodeKey && i < n {
      OutcomeAt(acl, ops, n, i);
    } else {
      forall op | op in ops[..n] && op.RegisterNode? ensures op.nodeKey != k {
        var j: nat :| j < n && ops[j] == op;
      }
      OtherNodeKept(acl, ops[..n], k);
    }
  }

  /** A method under another name or in another partition is nobody's business. */
  lemma {:induction false} OtherMethodKept(acl: Acl, ops: seq<Op>, k: Key)
    requires forall op :: op in ops && op.MergeAuthMethod? ==> op.methodKey != k
    ensures Stored(Run(acl, ops).authMethods, k) == Stored(acl.authMethods, k)
  {
    if ops != [] {
      assert ops[|ops| - 1] in ops;
      OtherMethodKept(acl, ops[..|ops| - 1], k);
    }
  }

  lemma {:induction false} OtherNodeKept(acl: Acl, ops: seq<Op>, k: Key)
    requires forall op :: op in ops && op.RegisterNode? ==> op.nodeKey != k
    ensures Stored(Run(acl, ops).nodes, k) == Stored(acl.nodes, k)
  {
    if ops != [] {
      assert ops[|ops| - 1] in ops;
      OtherNodeKept(acl, ops[..|ops| - 1], k);
    }
  }

  // The controller's steps

  /** Where the steps come from, by their kind. */
  datatype Group = PartitionGroup | RoleGroup | RuleGroup | AnonymousGroup | NodeGroup

  function GroupOf(op: Op): Group {
    match op
    case EnsurePartition(_) => PartitionGroup
    case EnsurePolicy(_, _) => RoleGroup
    case EnsureRole(_, _, _) => RoleGroup
    case MergeAuthMethod(_, _) => RoleGroup
    case SetRule(_) => RuleGroup
    case EnsureAnonymousPolicy(_) => AnonymousGroup
    case AttachAnonymousPolicy => AnonymousGroup
    case RegisterNode(_, _) => NodeGroup
  }

  lemma RoleStepsApart(cfg: Config, i: nat, j: nat)
    requires i < 6 && j < 6 && i != j
    ensures Apart(RoleSteps(cfg)[i], RoleSteps(cfg)[j])
  {
    assert |API_GATEWAY_POLICY| != |MESH_GATEWAY_POLICY|;
    assert |API_GATEWAY_ROLE| != |MESH_GATEWAY_ROLE|;
    assert |API_GATEWAY_ROLE| != |TERMINATING_GATEWAY_ROLE|;
    assert |MESH_GATEWAY_ROLE| != |TERMINATING_GATEWAY_ROLE|;
  }

  lemma RuleStepsApart(cfg: Config, i: nat, j: nat)
    requires i < 4 && j < 4 && i != j
    ensures Apart(RuleSteps(cfg)[i], RuleSteps(cfg)[j])
  {
    assert |BindingRules(cfg)[i].description| != |BindingRules(cfg)[j].description|;
  }

  /** Policies of the controller's own are not the anonymous token's. */
  lemma RoleStepsGrouped(cfg: Config, op: Op)
    requires op in RoleSteps(cfg)
    ensures GroupOf(op).RoleGroup? && (op.EnsurePolicy? ==> op.policyKey != ANONYMOUS_POLICY_KEY)
  {
    assert |API_GATEWAY_POLICY| != |ANONYMOUS_POLICY_NAME| && |MESH_GATEWAY_POLICY| != |ANONYMOUS_POLICY_NAME|;
  }

  lemma GroupsApart(op: Op, other: Op)
    requires GroupOf(op) != GroupOf(other)
    requires op.EnsurePolicy? ==> op.policyKey != ANONYMOUS_POLICY_KEY
    requires other.EnsurePolicy? ==> other.policyKey != ANONYMOUS_POLICY_KEY
    ensures Undisturbed(op, other)
  {
  }

  /** The i-th step, and its group. */
  lemma StepAt(cfg: Config, primary: bool, i: nat)
    requires i < |Steps(cfg, primary)|
    ensures var first, op := |PartitionSteps(cfg)|, Steps(cfg, primary)[i];
      && (op.EnsurePolicy? ==> op.policyKey != ANONYMOUS_POLICY_KEY)
      && (if i < first then i == 0 && GroupOf(op).PartitionGroup?
          else if i < first + 6 then op == RoleSteps(cfg)[i - first] && GroupOf(op).RoleGroup?
          else if i < first + 10 then op == RuleSteps(cfg)[i - first - 6] && GroupOf(op).RuleGroup?
          else op == LastSteps(cfg, primary)[i - first - 10])
  {
    var first, op := |PartitionSteps(cfg)|, Steps(cfg, primary)[i];
    if first <= i < first + 6 {
      assert op == RoleSteps(cfg)[i - first] && op in RoleSteps(cfg);
      RoleStepsGrouped(cfg, op);
    }
  }

  lemma StepsPair(cfg: Config, primary: bool, i: nat, j: nat)
    requires i < |Steps(cfg, primary)| && j < |Steps(cfg, primary)| && i != j
    ensures Apart(Steps(cfg, primary)[i], Steps(cfg, primary)[j])
    ensures j < i ==> Undisturbed(Steps(cfg, primary)[i], Steps(cfg, primary)[j])
  {
    var first, op, other := |PartitionSteps(cfg)|, Steps(cfg, primary)[i], Steps(cfg, primary)[j];
    StepAt(cfg, primary, i);
    StepAt(cfg, primary, j);
    if GroupOf(op) != GroupOf(other) {
      GroupsApart(op, other);
    } else if GroupOf(op).RoleGroup? {
      RoleStepsApart(cfg, i - first, j - first);
    } else if GroupOf(op).RuleGroup? {
      RuleStepsApart(cfg, i - first - 6, j - first - 6);
    }
  }

  lemma StepsDisjoint(cfg: Config, primary: bool)
    ensures Disjoint(Steps(cfg, primary))
  {
    forall i, j | 0 <= i < |Steps(cfg, primary)| && 0 <= j < |Steps(cfg, primary)| && i != j
      ensures PairDisjoint(Steps(cfg, primary), i, j)
    {
      StepsPair(cfg, primary, i, j);
    }
  }

  // The main results

  /** A completed start-up, however often it was restarted on the way, achieves the
      purpose of each of its steps exactly if nothing else was in its place. */
  lemma StartUpAchieves(cfg: Config, primary: bool, acl: Acl, stops: seq<nat>, op: Op)
    requires Within(stops, |Steps(cfg, primary)|) && op in Steps(cfg, primary)
    ensures var ops := Steps(cfg, primary);
      Achieved(Run(Restarts(acl, ops, stops), ops), op) <==> Attainable(acl, op)
  {
    CrashRestartConverges(cfg, primary, acl, stops);
    StepsDisjoint(cfg, primary);
    StepsCompatible(cfg, cfg, primary, primary);
    RunAchieves(acl, Steps(cfg, primary), op);
  }

  function MethodKey(cfg: Config): Key { Key(Home(cfg), AUTH_METHOD_NAME) }

  function NodeKey(cfg: Config): Key { Key(Home(cfg), cfg.clusterArn) }

  /** The position of the step that merges the auth method. */
  function MergeIndex(cfg: Config): nat { |PartitionSteps(cfg)| + 5 }

  lemma MergeAt(cfg: Config, primary: bool)
    ensures MergeIndex(cfg) < |Steps(cfg, primary)|
    ensures Steps(cfg, primary)[MergeIndex(cfg)] == MergeAuthMethod(MethodKey(cfg), ServiceAuthMethod(cfg))
    ensures var ops := Steps(cfg, primary);
      forall j :: 0 <= j < |ops| && ops[j].MergeAuthMethod? ==> j == MergeIndex(cfg)
  {
    StepAt(cfg, primary, MergeIndex(cfg));
  }

  lemma NodeAt(cfg: Config, primary: bool)
    ensures |Steps(cfg, primary)| > 0
    ensures Steps(cfg, primary)[|Steps(cfg, primary)| - 1] == RegisterNode(NodeKey(cfg), OwnNode(cfg))
    ensures var ops := Steps(cfg, primary); forall j :: 0 <= j < |ops| && ops[j].RegisterNode? ==> j == |ops| - 1
  {
  }

  function OwnNode(cfg: Config): Node { Node(cfg.nodeIP, map["synthetic-node" := "true"]) }

  /** What the first n steps leave as the auth methods. */
  lemma MethodsOf(cfg: Config, primary: bool, acl: Acl, n: nat, k: Key)
    requires n <= |Steps(cfg, primary)|
    ensures Stored(Run(acl, Steps(cfg, primary)[..n]).authMethods, k) ==
      if k == MethodKey(cfg) && MergeIndex(cfg) < n
        then Some(Upsert(Stored(acl.authMethods, k), ServiceAuthMethod(cfg)))
      else Stored(acl.authMethods, k)
  {
    MergeAt(cfg, primary);
    StepsDisjoint(cfg, primary);
    MethodsAfter(acl, Steps(cfg, primary), n, MergeIndex(cfg), k);
  }

  lemma MethodOf(cfg: Config, primary: bool, acl: Acl)
    ensures Stored(Run(acl, Steps(cfg, primary)).authMethods, MethodKey(cfg)) ==
      Some(Upsert(Stored(acl.authMethods, MethodKey(cfg)), ServiceAuthMethod(cfg)))
  {
    MergeAt(cfg, primary);
    MethodsOf(cfg, primary, acl, |Steps(cfg, primary)|, MethodKey(cfg));
    AllOf(Steps(cfg, primary));
  }

  lemma AllOf<T>(s: seq<T>)
    ensures s[..|s|] == s
  {
  }

  /** The namespace rules of a completed start-up are this controller's own exactly if
      the auth method was not there, or had to be updated, or had them already. */
  lemma NamespaceRulesAfter(cfg: Config, primary: bool, acl: Acl)
    ensures var k, ours, end := MethodKey(cfg), ServiceAuthMethod(cfg), Run(acl, Steps(cfg, primary));
      && k in end.authMethods
      && (end.authMethods[k].namespaceRules == ours.namespaceRules <==>
            || k !in acl.authMethods || !UpToDate(acl.authMethods[k], ours)
            || acl.authMethods[k].namespaceRules == ours.namespaceRules)
  {
    MethodOf(cfg, primary, acl);
    UpsertRules(Stored(acl.authMethods, MethodKey(cfg)), ServiceAuthMethod(cfg));
  }

  /** A gateway role of a completed start-up is linked to the controller's policy
      exactly if it was not there, or had no links, or had this one already. */
  lemma RoleLinkAfter(cfg: Config, primary: bool, acl: Acl, mesh: bool)
    ensures var role := Key(Home(cfg), if mesh then MESH_GATEWAY_ROLE else API_GATEWAY_ROLE);
      var policy := if mesh then MESH_GATEWAY_POLICY else API_GATEWAY_POLICY;
      var end := Run(acl, Steps(cfg, primary));
      && role in end.roles
      && (policy in end.roles[role].policies <==>
            role !in acl.roles || acl.roles[role].policies == [] || policy in acl.roles[role].policies)
  {
    var i := |PartitionSteps(cfg)| + if mesh then 3 else 1;
    StepAt(cfg, primary, i);
    StepsDisjoint(cfg, primary);
    LinkAfter(acl, Steps(cfg, primary), i);
  }

  lemma LinkAfter(acl: Acl, ops: seq<Op>, i: nat)
    requires Disjoint(ops) && i < |ops| && ops[i].EnsureRole? && ops[i].policyName != ""
    ensures var role, end := ops[i].roleKey, Run(acl, ops);
      && role in end.roles
      && (ops[i].policyName in end.roles[role].policies <==>
            || role !in acl.roles || acl.roles[role].policies == [] || ops[i].policyName in acl.roles[role].policies)
  {
    OutcomeAt(acl, ops, |ops|, i);
    AllOf(ops);
  }

  // A controller whose task is replaced gets another address

  /** Equal but for what is registered as this node. */
  predicate EqualButNode(a: Acl, b: Acl, k: Key) {
    a.(nodes := a.nodes - {k}) == b.(nodes := b.nodes - {k})
  }

  predicate SameButNode(a: Op, b: Op, k: Key) {
    a == b || (a.RegisterNode? && b.RegisterNode? && a.nodeKey == k && b.nodeKey == k)
  }

  lemma ApplyButNode(a: Acl, b: Acl, op: Op, other: Op, k: Key)
    requires EqualButNode(a, b, k) && SameButNode(op, other, k)
    ensures EqualButNode(Apply(a, op), Apply(b, other), k)
  {
    if op.RegisterNode? {
      NodesButOne(a.nodes, b.nodes, op.nodeKey, op.node, other.node, k);
    } else {
      assert Apply(a, op).nodes == a.nodes && Apply(b, op).nodes == b.nodes;
    }
  }

  lemma NodesButOne(a: map<Key, Node>, b: map<Key, Node>, key: Key, x: Node, y: Node, k: Key)
    requires a - {k} == b - {k} && (x == y || key == k)
    ensures a[key := x] - {k} == b[key := y] - {k}
  {
    if key == k {
      assert a[key := x] - {k} == a - {k} && b[key := y] - {k} == b - {k};
    } else {
      assert a[key := x] - {k} == (a - {k})[key := x] && b[key := y] - {k} == (b - {k})[key := y];
    }
  }

  lemma {:induction false} RunButNode(a: Acl, b: Acl, these: seq<Op>, those: seq<Op>, k: Key)
    requires EqualButNode(a, b, k) && |these| == |those|
    requires forall i :: 0 <= i < |these| ==> SameButNode(these[i], those[i], k)
    ensures EqualButNode(Run(a, these), Run(b, those), k)
  {
    if these != [] {
      var n := |these| - 1;
      RunButNode(a, b, these[..n], those[..n], k);
      ApplyButNode(Run(a, these[..n]), Run(b, those[..n]), these[n], those[n], k);
    }
  }

  /** One list of steps is another's beginning, but for the node. */
  predicate BeginsButNode(these: seq<Op>, ops: seq<Op>, k: Key) {
    |these| <= |ops| && forall i :: 0 <= i < |these| ==> SameButNode(these[i], ops[i], k)
  }

  /** These runs one after the other. */
  function RunAll(acl: Acl, runs: seq<seq<Op>>): Acl {
    if runs == [] then acl else Run(RunAll(acl, runs[..|runs| - 1]), runs[|runs| - 1])
  }

  function Lengths(runs: seq<seq<Op>>): seq<nat> {
    seq(|runs|, i requires 0 <= i < |runs| => |runs[i]|)
  }

  lemma {:induction false} RunsButNode(acl: Acl, ops: seq<Op>, runs: seq<seq<Op>>, k: Key)
    requires forall i :: 0 <= i < |runs| ==> BeginsButNode(runs[i], ops, k)
    ensures Within(Lengths(runs), |ops|)
    ensures EqualButNode(RunAll(acl, runs), Restarts(acl, ops, Lengths(runs)), k)
  {
    if runs != [] {
      var n := |runs| - 1;
      RunsButNode(acl, ops, runs[..n], k);
      assert Lengths(runs)[..n] == Lengths(runs[..n]);
      RunButNode(RunAll(acl, runs[..n]), Restarts(acl, ops, Lengths(runs[..n])), runs[n], ops[..|runs[n]|], k);
    }
  }

  /** However often the steps were begun, at whatever address, and left off: going
      through all of them leaves what it would have left at once. */
  lemma RunsConverge(acl: Acl, ops: seq<Op>, runs: seq<seq<Op>>, k: Key, node: Node)
    requires forall i :: 0 <= i < |runs| ==> BeginsButNode(runs[i], ops, k)
    requires AllCompatible(ops, ops) && ops != [] && ops[|ops| - 1] == RegisterNode(k, node)
    ensures Run(RunAll(acl, runs), ops) == Run(acl, ops)
  {
    var n := |ops| - 1;
    RunsButNode(acl, ops, runs, k);
    var a, b := RunAll(acl, runs), Restarts(acl, ops, Lengths(runs));
    RestartsConverge(acl, ops, Lengths(runs));
    RunButNode(a, b, ops[..n], ops[..n], k);
    SameOnceRegistered(Run(a, ops[..n]), Run(b, ops[..n]), k, node);
  }

  /** One start of the controller: its task's address, and after how many steps it
      stops, if it does not get to the end. */
  datatype Start = Start(nodeIP: string, steps: nat)

  function StepsOf(cfg: Config, primary: bool, start: Start): seq<Op> {
    var ops := Steps(cfg.(nodeIP := start.nodeIP), primary);
    if start.steps < |ops| then ops[..start.steps] else ops
  }

  function RunsOf(cfg: Config, primary: bool, starts: seq<Start>): seq<seq<Op>> {
    seq(|starts|, i requires 0 <= i < |starts| => StepsOf(cfg, primary, starts[i]))
  }

  lemma BeginsAppend(a: seq<Op>, b: seq<Op>, c: seq<Op>, d: seq<Op>, k: Key)
    requires |a| == |b| && BeginsButNode(a, b, k) && BeginsButNode(c, d, k)
    ensures BeginsButNode(a + c, b + d, k)
  {
  }

  lemma RoleStepsStay(cfg: Config, nodeIP: string)
    ensures RoleSteps(cfg.(nodeIP := nodeIP)) == RoleSteps(cfg) && RuleSteps(cfg.(nodeIP := nodeIP)) == RuleSteps(cfg)
  {
  }

  lemma LastStepsStay(cfg: Config, nodeIP: string, primary: bool)
    ensures BeginsButNode(LastSteps(cfg.(nodeIP := nodeIP), primary), LastSteps(cfg, primary), NodeKey(cfg))
  {
  }

  lemma StepsStay(cfg: Config, nodeIP: string, primary: bool)
    ensures BeginsButNode(Steps(cfg.(nodeIP := nodeIP), primary), Steps(cfg, primary), NodeKey(cfg))
  {
    var moved, k := cfg.(nodeIP := nodeIP), NodeKey(cfg);
    RoleStepsStay(cfg, nodeIP);
    LastStepsStay(cfg, nodeIP, primary);
    var roles := RoleSteps(cfg) + RuleSteps(cfg);
    BeginsAppend(roles, roles, LastSteps(moved, primary), LastSteps(cfg, primary), k);
    BeginsAppend(PartitionSteps(moved), PartitionSteps(cfg), InPartitionSteps(moved, primary),
      InPartitionSteps(cfg, primary), k);
  }

  /** Stopped after any write, any number of times and each time replaced by a task at
      another address, and then run to its end at the last one: the start-up leaves
      exactly what one uninterrupted run at that address leaves. */
  lemma ReplacedTaskConverges(acl: Acl, cfg: Config, primary: bool, starts: seq<Start>)
    ensures Run(RunAll(acl, RunsOf(cfg, primary, starts)), Steps(cfg, primary)) == Run(acl, Steps(cfg, primary))
  {
    forall i | 0 <= i < |starts|
      ensures BeginsButNode(RunsOf(cfg, primary, starts)[i], Steps(cfg, primary), NodeKey(cfg))
    {
      StepsStay(cfg, starts[i].nodeIP, primary);
    }
    NodeAt(cfg, primary);
    StepsCompatible(cfg, cfg, primary, primary);
    RunsConverge(acl, Steps(cfg, primary), RunsOf(cfg, primary, starts), NodeKey(cfg), OwnNode(cfg));
  }

  lemma SameOnceRegistered(a: Acl, b: Acl, k: Key, node: Node)
    requires EqualButNode(a, b, k)
    ensures Apply(a, RegisterNode(k, node)) == Apply(b, RegisterNode(k, node))
  {
    assert a.nodes[k := node] == (a.nodes - {k})[k := node] && b.nodes[k := node] == (b.nodes - {k})[k := node];
  }

  // What a start-up takes away

  /** The first n steps overwrite the stored namespace rules: they get to the auth
      method, find something to add to its lists, and have other rules. */
  predicate OverwritesRules(cfg: Config, n: nat, acl: Acl, k: Key)
    requires k in acl.authMethods
  {
    && k == MethodKey(cfg) && n > MergeIndex(cfg)
    && !UpToDate(acl.authMethods[k], ServiceAuthMethod(cfg))
    && acl.authMethods[k].namespaceRules != ServiceAuthMethod(cfg).namespaceRules
  }

  predicate OverwritesNode(cfg: Config, primary: bool, n: nat, acl: Acl, k: Key)
    requires k in acl.nodes
  {
    k == NodeKey(cfg) && n == |Steps(cfg, primary)| && acl.nodes[k] != OwnNode(cfg)
  }

  lemma RulesKeptUnless(cfg: Config, primary: bool, acl: Acl, n: nat, k: Key)
    requires n <= |Steps(cfg, primary)| && k in acl.authMethods
    ensures var after := Run(acl, Steps(cfg, primary)[..n]);
      && k in after.authMethods
      && (after.authMethods[k].namespaceRules == acl.authMethods[k].namespaceRules <==>
          !OverwritesRules(cfg, n, acl, k))
  {
    MethodsOf(cfg, primary, acl, n, k);
    UpsertRules(Some(acl.authMethods[k]), ServiceAuthMethod(cfg));
  }

  lemma NodeKeptUnless(cfg: Config, primary: bool, acl: Acl, n: nat, k: Key)
    requires n <= |Steps(cfg, primary)| && k in acl.nodes
    ensures var after := Run(acl, Steps(cfg, primary)[..n]);
      && k in after.nodes
      && (after.nodes[k] == acl.nodes[k] <==> !OverwritesNode(cfg, primary, n, acl, k))
  {
    NodeAt(cfg, primary);
    StepsDisjoint(cfg, primary);
    NodesAfter(acl, Steps(cfg, primary), n, |Steps(cfg, primary)| - 1, k);
  }

  /** A start-up, stopped anywhere and however often, takes nothing away but, exactly
      under these conditions, the auth method's namespace rules and the node's
      address. It leaves everyone else's binding rules as they were. */
  lemma NothingElseIsLost(cfg: Config, primary: bool, acl: Acl, stops: seq<nat>)
    requires Within(stops, |Steps(cfg, primary)|)
    ensures var after, n := Restarts(acl, Steps(cfg, primary), stops), Furthest(stops);
      && Extends(acl, after)
      && Foreign(after.rules, BindingRules(cfg)) == Foreign(acl.rules, BindingRules(cfg))
      && (forall k :: k in acl.authMethods ==>
            (after.authMethods[k].namespaceRules == acl.authMethods[k].namespaceRules <==>
              !OverwritesRules(cfg, n, acl, k)))
      && (forall k :: k in acl.nodes ==> (after.nodes[k] == acl.nodes[k] <==> !OverwritesNode(cfg, primary, n, acl, k)))
  {
    var ops, n := Steps(cfg, primary), Furthest(stops);
    StepsCompatible(cfg, cfg, primary, primary);
    RestartsReach(acl, ops, stops);
    RunExtends(acl, ops[..n]);
    forall op | op in ops[..n] && op.SetRule? ensures op.rule in BindingRules(cfg) {
      assert op in ops;
      WhatStepsDo(cfg, primary, op);
    }
    RunKeepsForeign(acl, ops[..n], BindingRules(cfg));
    forall k | k in acl.authMethods
      ensures var after := Run(acl, ops[..n]).authMethods[k];
        after.namespaceRules == acl.authMethods[k].namespaceRules <==> !OverwritesRules(cfg, n, acl, k)
    {
      RulesKeptUnless(cfg, primary, acl, n, k);
    }
    forall k | k in acl.nodes
      ensures Run(acl, ops[..n]).nodes[k] == acl.nodes[k] <==> !OverwritesNode(cfg, primary, n, acl, k)
    {
      NodeKeptUnless(cfg, primary, acl, n, k);
    }
  }

  // Several controllers

  lemma AchievedStays(acl: Acl, op: Op, next: Op)
    requires Achieved(acl, op) && Compatible(op, next) && !op.MergeAuthMethod?
    ensures Achieved(Apply(acl, next), op)
  {
    if op.SetRule? { SettledStays(acl, op, next); }
  }

  lemma {:induction false} AchievedForever(acl: Acl, op: Op, later: seq<Op>)
    requires Achieved(acl, op) && !op.MergeAuthMethod?
    requires forall next :: next in later ==> Compatible(op, next)
    ensures Achieved(Run(acl, later), op)
  {
    if later != [] {
      assert later[|later| - 1] in later;
      AchievedForever(acl, op, later[..|later| - 1]);
      AchievedStays(Run(acl, later[..|later| - 1]), op, later[|later| - 1]);
    }
  }

  /** After any steps of another controller's start-up, a completed one has nothing to
      do, and everything it achieved is still so, but for the namespace rules: they
      are as it left them exactly if the other does not overwrite them. */
  lemma ControllersCoexist(cfg: Config, other: Config, primary: bool, otherPrimary: bool, acl: Acl, n: nat)
    requires SameNodeAddress(cfg, other) && n <= |Steps(other, otherPrimary)|
    ensures var done, k := Run(acl, Steps(cfg, primary)), MethodKey(cfg);
      var after := Run(done, Steps(other, otherPrimary)[..n]);
      && AllSettled(after, Steps(cfg, primary)) && Run(after, Steps(cfg, primary)) == after
      && (forall op :: op in Steps(cfg, primary) && !op.MergeAuthMethod? && Achieved(done, op) ==> Achieved(after, op))
      && k in done.authMethods && k in after.authMethods
      && (after.authMethods[k].namespaceRules == done.authMethods[k].namespaceRules <==>
          !OverwritesRules(other, n, done, k))
  {
    var ours, theirs := Steps(cfg, primary), Steps(other, otherPrimary)[..n];
    var done := Run(acl, ours);
    StepsCompatible(cfg, cfg, primary, primary);
    StepsCompatible(cfg, other, primary, otherPrimary);
    RunSettles(acl, ours);
    SettledForever(done, ours, theirs);
    SettledRunIsIdle(Run(done, theirs), ours);
    forall op | op in ours && !op.MergeAuthMethod? && Achieved(done, op) ensures Achieved(Run(done, theirs), op) {
      AchievedForever(done, op, theirs);
    }
    NamespaceRulesAfter(cfg, primary, acl);
    RulesKeptUnless(other, otherPrimary, done, n, MethodKey(cfg));
  }

  /** Overwriting happens: after a controller with partitions has started, one
      without, which adds its own principals, removes the namespace rules; and the
      first, restarted, does not put them back. */
  lemma OtherControllerDropsRules(cfg: Config, other: Config, primary: bool, otherPrimary: bool, acl: Acl)
    requires cfg.partitionsEnabled && Home(cfg) == DEFAULT_PARTITION && !other.partitionsEnabled
    requires BoundArnPattern(cfg) != BoundArnPattern(other) && SameNodeAddress(cfg, other)
    requires MethodKey(cfg) !in acl.authMethods
    ensures var done, k := Run(acl, Steps(cfg, primary)), MethodKey(cfg);
      var after := Run(done, Steps(other, otherPrimary));
      && k in done.authMethods && done.authMethods[k].namespaceRules == ServiceAuthMethod(cfg).namespaceRules != []
      && k in after.authMethods && after.authMethods[k].namespaceRules == []
      && Run(after, Steps(cfg, primary)) == after
  {
    var done := Run(acl, Steps(cfg, primary));
    MethodOf(cfg, primary, acl);
    OtherPatternUpdates(cfg, other);
    MethodOf(other, otherPrimary, done);
    ControllersCoexist(cfg, other, primary, otherPrimary, acl, |Steps(other, otherPrimary)|);
    AllOf(Steps(other, otherPrimary));
  }

  lemma OtherPatternUpdates(cfg: Config, other: Config)
    requires BoundArnPattern(cfg) != BoundArnPattern(other)
    ensures !UpToDate(ServiceAuthMethod(cfg), ServiceAuthMethod(other))
  {
    SkipExactly(ServiceAuthMethod(cfg), ServiceAuthMethod(other));
    assert BoundArnPattern(other) in Elements(ServiceAuthMethod(other).principals);
    assert Elements(ServiceAuthMethod(cfg).principals) == {BoundArnPattern(cfg)};
  }

  /** And a controller that was first run without partitions does not write its
      namespace rules when it is restarted with them, in the same partition. */
  lemma EnablingPartitionsAddsNoRules(cfg: Config, primary: bool, again: bool, acl: Acl)
    requires cfg.partitionsEnabled && Home(cfg) == DEFAULT_PARTITION && MethodKey(cfg) !in acl.authMethods
    ensures var k := MethodKey(cfg);
      var before := Run(acl, Steps(cfg.(partitionsEnabled := false, partition := ""), primary));
      var after := Run(before, Steps(cfg, again));
      && AllSettled(after, Steps(cfg, again))
      && k in after.authMethods && after.authMethods[k].namespaceRules == [] != ServiceAuthMethod(cfg).namespaceRules
  {
    var plain := cfg.(partitionsEnabled := false, partition := "");
    var before := Run(acl, Steps(plain, primary));
    MethodOf(plain, primary, acl);
    OurMethodIsSorted(cfg);
    SkipExactly(ServiceAuthMethod(plain), ServiceAuthMethod(cfg));
    MethodOf(cfg, again, before);
    StepsCompatible(cfg, cfg, again, again);
    RunSettles(before, Steps(cfg, again));
  }
}
