/** subcommand/controller/command.go: what the controller sets up in Consul when it
    starts, as a sequence of read-then-write steps. Each step reads what is there
    and makes at most one write, so a crash always falls between two steps. */
module Startup {
  import opened Prelude
  import opened Strings
  import opened AuthMethods

  const DEFAULT_PARTITION := "default"

  datatype Key = Key(partition: string, name: string)

  /** The policy texts, each by what its template depends on. */
  datatype RuleText =
    | ApiGatewayText(enterprise: bool)
    | MeshGatewayText(defaultPartition: bool)
    | AnonymousText(enterprise: bool)

  datatype Policy = Policy(description: string, text: RuleText)
  datatype Role = Role(description: string, policies: seq<string>)
  datatype BindType = BindService | BindRole
  datatype Rule = Rule(partition: string, authMethod: string, bindName: string, description: string,
      bindType: BindType, selector: string)
  datatype Node = Node(address: string, meta: map<string, string>)

  /** Consul's state, without the IDs it gives to binding rules. The rules are in
      the order in which the server lists them; anonymous holds the policy names
      of the anonymous token. */
  datatype Acl = Acl(
    partitions: set<string>, policies: map<Key, Policy>, roles: map<Key, Role>,
    authMethods: map<Key, AuthMethod>, rules: seq<Rule>, anonymous: seq<string>, nodes: map<Key, Node>)

  datatype Op =
    | EnsurePartition(partition: string)
    | EnsurePolicy(policyKey: Key, policy: Policy)
    | EnsureRole(roleKey: Key, description: string, policyName: string)
    | MergeAuthMethod(methodKey: Key, authMethod: AuthMethod)
    | SetRule(rule: Rule)
    | EnsureAnonymousPolicy(anonymousPolicy: Policy)
    | AttachAnonymousPolicy
    | RegisterNode(nodeKey: Key, node: Node)

  // Binding rules

  predicate SameRule(a: Rule, b: Rule) {
    && a.partition == b.partition && a.authMethod == b.authMethod
    && a.bindName == b.bindName && a.description == b.description
  }

  /** The first rule with r's bind name and description is replaced; without one,
      r is added. */
  function Put(rules: seq<Rule>, r: Rule): seq<Rule> {
    if rules == [] then [r]
    else if SameRule(rules[0], r) then [r] + rules[1..]
    else [rules[0]] + Put(rules[1..], r)
  }

  function First(rules: seq<Rule>, r: Rule): Option<Rule> {
    if rules == [] then None
    else if SameRule(rules[0], r) then Some(rules[0])
    else First(rules[1..], r)
  }

  function Count(rules: seq<Rule>, r: Rule): nat {
    if rules == [] then 0 else (if SameRule(rules[0], r) then 1 else 0) + Count(rules[1..], r)
  }

  function Others(rules: seq<Rule>, r: Rule): seq<Rule> {
    if rules == [] then []
    else if SameRule(rules[0], r) then Others(rules[1..], r)
    else [rules[0]] + Others(rules[1..], r)
  }

  lemma {:induction false} PutIsFirst(rules: seq<Rule>, r: Rule)
    ensures First(Put(rules, r), r) == Some(r)
    ensures First(rules, r) == Some(r) ==> Put(rules, r) == rules
  {
    if rules != [] && !SameRule(rules[0], r) {
      PutIsFirst(rules[1..], r);
      assert ([rules[0]] + Put(rules[1..], r))[1..] == Put(rules[1..], r);
    }
  }

  lemma {:induction false} PutElsewhere(rules: seq<Rule>, r: Rule, s: Rule)
    requires !SameRule(r, s)
    ensures First(Put(rules, s), r) == First(rules, r)
    ensures Count(Put(rules, s), r) == Count(rules, r)
  {
    if rules != [] {
      assert ([s] + rules[1..])[1..] == rules[1..];
      assert ([rules[0]] + Put(rules[1..], s))[1..] == Put(rules[1..], s);
      PutElsewhere(rules[1..], r, s);
    }
  }

  /** No duplicate is ever added, and no other rule touched or moved. */
  lemma {:induction false} PutAddsNoDuplicate(rules: seq<Rule>, r: Rule)
    ensures Count(Put(rules, r), r) == if Count(rules, r) == 0 then 1 else Count(rules, r)
    ensures Others(Put(rules, r), r) == Others(rules, r)
  {
    if rules != [] {
      assert ([r] + rules[1..])[1..] == rules[1..];
      assert ([rules[0]] + Put(rules[1..], r))[1..] == Put(rules[1..], r);
      PutAddsNoDuplicate(rules[1..], r);
    }
  }

  lemma {:induction false} PutElements(rules: seq<Rule>, r: Rule)
    ensures forall s :: s in Put(rules, r) ==> s in rules || s == r
  {
    if rules != [] { PutElements(rules[1..], r); }
  }

  // The steps

  const ANONYMOUS_POLICY_NAME := "anonymous-token-policy"

  const ANONYMOUS_POLICY_KEY := Key(DEFAULT_PARTITION, ANONYMOUS_POLICY_NAME)

  function Stored<V>(m: map<Key, V>, k: Key): Option<V> {
    if k in m then Some(m[k]) else None
  }

  function Apply(acl: Acl, op: Op): Acl {
    match op
    case EnsurePartition(p) => acl.(partitions := acl.partitions + {p})
    case EnsurePolicy(key, policy) =>
      if key in acl.policies then acl else acl.(policies := acl.policies[key := policy])
    case EnsureRole(key, description, policyName) =>
      var links := if policyName == "" then [] else [policyName];
      if key !in acl.roles then acl.(roles := acl.roles[key := Role(description, links)])
      else if acl.roles[key].policies == [] && policyName != "" then
        acl.(roles := acl.roles[key := acl.roles[key].(policies := links)])
      else acl
    case MergeAuthMethod(key, ours) =>
      acl.(authMethods := acl.authMethods[key := Upsert(Stored(acl.authMethods, key), ours)])
    case SetRule(r) => acl.(rules := Put(acl.rules, r))
    case EnsureAnonymousPolicy(policy) =>
      if ANONYMOUS_POLICY_NAME in acl.anonymous || ANONYMOUS_POLICY_KEY in acl.policies then acl
      else acl.(policies := acl.policies[ANONYMOUS_POLICY_KEY := policy])
    case AttachAnonymousPolicy =>
      if ANONYMOUS_POLICY_NAME in acl.anonymous then acl
      else acl.(anonymous := acl.anonymous + [ANONYMOUS_POLICY_NAME])
    case RegisterNode(key, node) => acl.(nodes := acl.nodes[key := node])
  }

  function Run(acl: Acl, ops: seq<Op>): Acl {
    if ops == [] then acl else Apply(Run(acl, ops[..|ops| - 1]), ops[|ops| - 1])
  }

  /** The guard under which a step finds nothing to do. It may be met although the
      step's purpose is not: StartupOutcome says when. */
  predicate Settled(acl: Acl, op: Op) {
    match op
    case EnsurePartition(p) => p in acl.partitions
    case EnsurePolicy(key, _) => key in acl.policies
    case EnsureRole(key, _, policyName) => key in acl.roles && (policyName == "" || acl.roles[key].policies != [])
    case MergeAuthMethod(key, ours) =>
      key in acl.authMethods && Sorted(acl.authMethods[key])
      && Elements(ours.principals) <= Elements(acl.authMethods[key].principals)
      && Elements(ours.tags) <= Elements(acl.authMethods[key].tags)
    case SetRule(r) => First(acl.rules, r) == Some(r)
    case EnsureAnonymousPolicy(_) => ANONYMOUS_POLICY_NAME in acl.anonymous || ANONYMOUS_POLICY_KEY in acl.policies
    case AttachAnonymousPolicy => ANONYMOUS_POLICY_NAME in acl.anonymous
    case RegisterNode(key, node) => Stored(acl.nodes, key) == Some(node)
  }

  ghost predicate AllSettled(acl: Acl, ops: seq<Op>) {
    forall op :: op in ops ==> Settled(acl, op)
  }

  /** Steps that do not undo each other's guards. */
  predicate Compatible(a: Op, b: Op) {
    match (a, b)
    case (SetRule(r), SetRule(s)) => r == s || !SameRule(r, s)
    case (RegisterNode(key, node), RegisterNode(key', node')) => key == key' ==> node == node'
    case (MergeAuthMethod(_, m), MergeAuthMethod(_, m')) => Sorted(m) && Sorted(m')
    case _ => true
  }

  ghost predicate AllCompatible(these: seq<Op>, those: seq<Op>) {
    forall a, b :: a in these && b in those ==> Compatible(a, b)
  }

  lemma ApplySettles(acl: Acl, op: Op)
    requires Compatible(op, op)
    ensures Settled(Apply(acl, op), op)
  {
    match op
    case MergeAuthMethod(key, ours) => UpsertIsUnion(Stored(acl.authMethods, key), ours);
    case SetRule(r) => PutIsFirst(acl.rules, r);
    case _ =>
  }

  /** A step whose guard is met changes nothing. */
  lemma SettledIsIdle(acl: Acl, op: Op)
    requires Settled(acl, op)
    ensures Apply(acl, op) == acl
  {
    match op
    case EnsurePartition(p) => assert acl.partitions + {p} == acl.partitions;
    case MergeAuthMethod(key, ours) => SkipExactly(acl.authMethods[key], ours);
    case SetRule(r) => PutIsFirst(acl.rules, r);
    case _ =>
  }

  /** And no compatible step undoes it. */
  lemma SettledStays(acl: Acl, op: Op, next: Op)
    requires Settled(acl, op) && Compatible(op, next)
    ensures Settled(Apply(acl, next), op)
  {
    match next
    case MergeAuthMethod(key, ours) =>
      if op.MergeAuthMethod? { UpsertIsUnion(Stored(acl.authMethods, key), ours); }
    case SetRule(s) =>
      if op.SetRule? {
        PutIsFirst(acl.rules, s);
        if !SameRule(op.rule, s) { PutElsewhere(acl.rules, op.rule, s); }
      }
    case _ =>
  }

  // Crashes and restarts

  lemma {:induction false} RunAppend(acl: Acl, these: seq<Op>, those: seq<Op>)
    ensures Run(acl, these + those) == Run(Run(acl, these), those)
    decreases |those|
  {
    if those == [] {
      assert these + those == these;
    } else {
      var rest := those[..|those| - 1];
      RunAppend(acl, these, rest);
      assert (these + those)[..|these + those| - 1] == these + rest;
    }
  }

  /** What is settled stays so under any number of compatible steps, whoever makes
      them. */
  lemma {:induction false} SettledForever(acl: Acl, ops: seq<Op>, later: seq<Op>)
    requires AllSettled(acl, ops) && AllCompatible(ops, later)
    ensures AllSettled(Run(acl, later), ops)
    decreases |later|
  {
    if later != [] {
      var rest, last := later[..|later| - 1], later[|later| - 1];
      assert last in later;
      SettledForever(acl, ops, rest);
      forall op | op in ops ensures Settled(Run(acl, later), op) {
        SettledStays(Run(acl, rest), op, last);
      }
    }
  }

  lemma {:induction false} RunSettles(acl: Acl, ops: seq<Op>)
    requires AllCompatible(ops, ops)
    ensures AllSettled(Run(acl, ops), ops)
  {
    if ops != [] {
      var rest, last := ops[..|ops| - 1], ops[|ops| - 1];
      assert last in ops;
      RunSettles(acl, rest);
      forall op | op in ops ensures Settled(Run(acl, ops), op) {
        if op == last {
          ApplySettles(Run(acl, rest), last);
        } else {
          assert op in rest;
          SettledStays(Run(acl, rest), op, last);
        }
      }
    }
  }

  lemma {:induction false} SettledRunIsIdle(acl: Acl, ops: seq<Op>)
    requires AllSettled(acl, ops)
    ensures Run(acl, ops) == acl
  {
    if ops != [] {
      assert ops[|ops| - 1] in ops;
      SettledRunIsIdle(acl, ops[..|ops| - 1]);
      SettledIsIdle(acl, ops[|ops| - 1]);
    }
  }

  function Max(a: nat, b: nat): nat { if a < b then b else a }

  /** Stopped after k steps and again after j: as if stopped once, at the later of
      the two. */
  lemma StoppedTwice(acl: Acl, ops: seq<Op>, k: nat, j: nat)
    requires k <= |ops| && j <= |ops| && AllCompatible(ops, ops)
    ensures Run(Run(acl, ops[..k]), ops[..j]) == Run(acl, ops[..Max(k, j)])
  {
    var once := Run(acl, ops[..k]);
    RunSettles(acl, ops[..k]);
    if j <= k {
      SettledRunIsIdle(once, ops[..j]);
    } else {
      SettledRunIsIdle(once, ops[..k]);
      assert ops[..j] == ops[..k] + ops[k..j];
      RunAppend(once, ops[..k], ops[k..j]);
      RunAppend(acl, ops[..k], ops[k..j]);
    }
  }

  predicate Within(stops: seq<nat>, n: nat) {
    forall i :: 0 <= i < |stops| ==> stops[i] <= n
  }

  /** Started again and again, stopping after stops[0], stops[1], ... steps. */
  function Restarts(acl: Acl, ops: seq<Op>, stops: seq<nat>): Acl
    requires Within(stops, |ops|)
  {
    if stops == [] then acl
    else Run(Restarts(acl, ops, stops[..|stops| - 1]), ops[..stops[|stops| - 1]])
  }

  function Furthest(stops: seq<nat>): nat {
    if stops == [] then 0 else Max(Furthest(stops[..|stops| - 1]), stops[|stops| - 1])
  }

  /** However often it stopped, only the furthest point reached matters... */
  lemma {:induction false} RestartsReach(acl: Acl, ops: seq<Op>, stops: seq<nat>)
    requires Within(stops, |ops|)
    requires AllCompatible(ops, ops)
    ensures Furthest(stops) <= |ops|
    ensures Restarts(acl, ops, stops) == Run(acl, ops[..Furthest(stops)])
  {
    if stops != [] {
      var rest, last := stops[..|stops| - 1], stops[|stops| - 1];
      RestartsReach(acl, ops, rest);
      StoppedTwice(acl, ops, Furthest(rest), last);
    }
  }

  /** ...and a run to the end leaves what one uninterrupted run leaves. */
  lemma RestartsConverge(acl: Acl, ops: seq<Op>, stops: seq<nat>)
    requires Within(stops, |ops|)
    requires AllCompatible(ops, ops)
    ensures Run(Restarts(acl, ops, stops), ops) == Run(acl, ops)
  {
    RestartsReach(acl, ops, stops);
    assert ops[..|ops|] == ops;
    StoppedTwice(acl, ops, Furthest(stops), |ops|);
  }

  // What is left alone

  /** Links are only given to a role that has none. */
  predicate KeepsRole(a: Role, b: Role) {
    b.description == a.description && (a.policies != [] ==> b == a)
  }

  predicate KeepsLists(a: AuthMethod, b: AuthMethod) {
    Elements(a.principals) <= Elements(b.principals) && Elements(a.tags) <= Elements(b.tags)
  }

  /** b has all that a has. */
  ghost predicate Extends(a: Acl, b: Acl) {
    && a.partitions <= b.partitions
    && (forall k :: k in a.policies ==> k in b.policies && b.policies[k] == a.policies[k])
    && (forall k :: k in a.roles ==> k in b.roles && KeepsRole(a.roles[k], b.roles[k]))
    && (forall k :: k in a.authMethods ==> k in b.authMethods && KeepsLists(a.authMethods[k], b.authMethods[k]))
    && a.anonymous <= b.anonymous
    && (forall k :: k in a.nodes ==> k in b.nodes)
  }

  lemma ApplyExtends(acl: Acl, op: Op)
    requires Compatible(op, op)
    ensures Extends(acl, Apply(acl, op))
  {
    ApplyKeepsPolicies(acl, op);
    ApplyKeepsRoles(acl, op);
    ApplyKeepsMethods(acl, op);
  }

  lemma ApplyKeepsPolicies(acl: Acl, op: Op)
    ensures var after := Apply(acl, op).policies;
      forall k :: k in acl.policies ==> k in after && after[k] == acl.policies[k]
  {
  }

  lemma ApplyKeepsRoles(acl: Acl, op: Op)
    ensures var after := Apply(acl, op).roles;
      forall k :: k in acl.roles ==> k in after && KeepsRole(acl.roles[k], after[k])
  {
  }

  lemma ApplyKeepsMethods(acl: Acl, op: Op)
    requires Compatible(op, op)
    ensures var after := Apply(acl, op).authMethods;
      forall k :: k in acl.authMethods ==> k in after && KeepsLists(acl.authMethods[k], after[k])
  {
    if op.MergeAuthMethod? { MergeKeepsLists(acl.authMethods, op.methodKey, op.authMethod); }
  }

  lemma MergeKeepsLists(stored: map<Key, AuthMethod>, key: Key, ours: AuthMethod)
    requires Sorted(ours)
    ensures var after := stored[key := Upsert(Stored(stored, key), ours)];
      forall k :: k in stored ==> KeepsLists(stored[k], after[k])
  {
    UpsertIsUnion(Stored(stored, key), ours);
  }

  lemma ExtendsTransitive(a: Acl, b: Acl, c: Acl)
    requires Extends(a, b) && Extends(b, c)
    ensures Extends(a, c)
  {
  }

  lemma {:induction false} RunExtends(acl: Acl, ops: seq<Op>)
    requires AllCompatible(ops, ops)
    ensures Extends(acl, Run(acl, ops))
  {
    if ops != [] {
      var rest, last := ops[..|ops| - 1], ops[|ops| - 1];
      assert last in ops;
      RunExtends(acl, rest);
      ApplyExtends(Run(acl, rest), last);
      ExtendsTransitive(acl, Run(acl, rest), Run(acl, ops));
    }
  }

  predicate SetsIt(op: Op, r: Rule) {
    op.SetRule? && SameRule(op.rule, r)
  }

  ghost predicate Sets(ops: seq<Op>, r: Rule) {
    exists i :: 0 <= i < |ops| && SetsIt(ops[i], r)
  }

  lemma {:induction false} CountOfSame(rules: seq<Rule>, r: Rule, s: Rule)
    requires SameRule(r, s)
    ensures Count(rules, r) == Count(rules, s)
  {
    if rules != [] { CountOfSame(rules[1..], r, s); }
  }

  lemma StepAddsNoDuplicate(acl: Acl, op: Op, r: Rule)
    ensures Count(Apply(acl, op).rules, r) == if SetsIt(op, r) then Max(1, Count(acl.rules, r)) else Count(acl.rules, r)
  {
    if SetsIt(op, r) {
      CountOfSame(Put(acl.rules, op.rule), op.rule, r);
      CountOfSame(acl.rules, op.rule, r);
      PutAddsNoDuplicate(acl.rules, op.rule);
    } else if op.SetRule? {
      PutElsewhere(acl.rules, r, op.rule);
    }
  }

  /** A run adds a rule of each kind it sets if there was none, and otherwise leaves
      as many as there were. */
  lemma {:induction false} RunAddsNoDuplicate(acl: Acl, ops: seq<Op>, r: Rule)
    ensures Count(Run(acl, ops).rules, r) == if Sets(ops, r) then Max(1, Count(acl.rules, r)) else Count(acl.rules, r)
  {
    if ops != [] {
      var rest, last := ops[..|ops| - 1], ops[|ops| - 1];
      RunAddsNoDuplicate(acl, rest, r);
      StepAddsNoDuplicate(Run(acl, rest), last, r);
      assert Sets(ops, r) <==> Sets(rest, r) || SetsIt(last, r) by {
        if Sets(rest, r) {
          var i :| 0 <= i < |rest| && SetsIt(rest[i], r);
          assert SetsIt(ops[i], r);
        }
        if Sets(ops, r) {
          var i :| 0 <= i < |ops| && SetsIt(ops[i], r);
          assert i < |rest| ==> rest[i] == ops[i];
        }
      }
    }
  }

  predicate IsOneOf(r: Rule, ours: seq<Rule>) {
    exists i :: 0 <= i < |ours| && SameRule(ours[i], r)
  }

  /** The rules that are none of ours, in order. */
  function Foreign(rules: seq<Rule>, ours: seq<Rule>): seq<Rule> {
    if rules == [] then []
    else (if IsOneOf(rules[0], ours) then [] else [rules[0]]) + Foreign(rules[1..], ours)
  }

  lemma {:induction false} PutKeepsForeign(rules: seq<Rule>, ours: seq<Rule>, r: Rule)
    requires r in ours
    ensures Foreign(Put(rules, r), ours) == Foreign(rules, ours)
  {
    assert IsOneOf(r, ours);
    if rules == [] {
      assert Put(rules, r)[1..] == [];
    } else if SameRule(rules[0], r) {
      var i :| 0 <= i < |ours| && ours[i] == r;
      assert SameRule(ours[i], rules[0]);
      assert ([r] + rules[1..])[1..] == rules[1..];
    } else {
      assert ([rules[0]] + Put(rules[1..], r))[1..] == Put(rules[1..], r);
      PutKeepsForeign(rules[1..], ours, r);
    }
  }

  lemma {:induction false} RunKeepsForeign(acl: Acl, ops: seq<Op>, ours: seq<Rule>)
    requires forall op :: op in ops && op.SetRule? ==> op.rule in ours
    ensures Foreign(Run(acl, ops).rules, ours) == Foreign(acl.rules, ours)
  {
    if ops != [] {
      var rest, last := ops[..|ops| - 1], ops[|ops| - 1];
      assert last in ops;
      RunKeepsForeign(acl, rest, ours);
      if last.SetRule? { PutKeepsForeign(Run(acl, rest).rules, ours, last.rule); }
    }
  }

  predicate Writes(op: Op, key: Key, policy: Policy) {
    op == EnsurePolicy(key, policy) || (op == EnsureAnonymousPolicy(policy) && key == ANONYMOUS_POLICY_KEY)
  }

  lemma StepWritesPolicy(acl: Acl, op: Op, key: Key, policy: Policy)
    requires Stored(Apply(acl, op).policies, key) == Some(policy)
    ensures Stored(acl.policies, key) == Some(policy) || Writes(op, key, policy)
  {
  }

  /** A policy of the end state was there before, or is written by a step. */
  lemma {:induction false} RunWritesPolicy(acl: Acl, ops: seq<Op>, key: Key, policy: Policy)
    requires Stored(Run(acl, ops).policies, key) == Some(policy)
    ensures Stored(acl.policies, key) == Some(policy) || exists i :: 0 <= i < |ops| && Writes(ops[i], key, policy)
  {
    if ops != [] {
      var rest, last := ops[..|ops| - 1], ops[|ops| - 1];
      StepWritesPolicy(Run(acl, rest), last, key, policy);
      if !Writes(last, key, policy) {
        RunWritesPolicy(acl, rest, key, policy);
        if i :| 0 <= i < |rest| && Writes(rest[i], key, policy) { assert Writes(ops[i], key, policy); }
      }
    }
  }

  lemma ApplyLinks(acl: Acl, op: Op)
    ensures var links := Apply(acl, op).anonymous;
      || links == acl.anonymous
      || (ANONYMOUS_POLICY_NAME !in acl.anonymous && links == acl.anonymous + [ANONYMOUS_POLICY_NAME])
  {
  }

  /** The anonymous token's links are what they were, with at most one added. */
  lemma {:induction false} RunLinksOnce(acl: Acl, ops: seq<Op>)
    ensures var links := Run(acl, ops).anonymous;
      || links == acl.anonymous
      || (ANONYMOUS_POLICY_NAME !in acl.anonymous && links == acl.anonymous + [ANONYMOUS_POLICY_NAME])
  {
    if ops != [] {
      RunLinksOnce(acl, ops[..|ops| - 1]);
      ApplyLinks(Run(acl, ops[..|ops| - 1]), ops[|ops| - 1]);
    }
  }

  // No dangling references

  /** Every reference resolves, and nothing is kept in a partition that does not
      exist. */
  ghost predicate Intact(acl: Acl) {
    && DEFAULT_PARTITION in acl.partitions
    && (forall k :: k in acl.policies ==> k.partition in acl.partitions)
    && (forall k :: k in acl.roles ==> k.partition in acl.partitions)
    && (forall k, p :: k in acl.roles && p in acl.roles[k].policies ==> Key(k.partition, p) in acl.policies)
    && (forall k :: k in acl.authMethods ==> k.partition in acl.partitions)
    && (forall r :: r in acl.rules ==> Key(r.partition, r.authMethod) in acl.authMethods)
    && (forall p :: p in acl.anonymous ==> Key(DEFAULT_PARTITION, p) in acl.policies)
    && (forall k :: k in acl.nodes ==> k.partition in acl.partitions)
  }

  /** What a write refers to is there. */
  predicate Ready(acl: Acl, op: Op) {
    match op
    case EnsurePartition(_) => true
    case EnsurePolicy(key, _) => key.partition in acl.partitions
    case EnsureRole(key, _, policyName) =>
      key.partition in acl.partitions && (policyName == "" || Key(key.partition, policyName) in acl.policies)
    case MergeAuthMethod(key, _) => key.partition in acl.partitions
    case SetRule(r) =>
      && Key(r.partition, r.authMethod) in acl.authMethods
      && (r.bindType.BindRole? ==> Key(r.partition, r.bindName) in acl.roles)
    case EnsureAnonymousPolicy(_) => DEFAULT_PARTITION in acl.partitions
    case AttachAnonymousPolicy => ANONYMOUS_POLICY_NAME in acl.anonymous || ANONYMOUS_POLICY_KEY in acl.policies
    case RegisterNode(key, _) => key.partition in acl.partitions
  }

  lemma ApplyIntact(acl: Acl, op: Op)
    requires Intact(acl) && Ready(acl, op)
    ensures Intact(Apply(acl, op))
  {
    if op.SetRule? { PutElements(acl.rules, op.rule); }
  }

  predicate MakesPartition(op: Op, partition: string) {
    op.EnsurePartition? && op.partition == partition
  }

  predicate MakesPolicy(op: Op, key: Key) {
    op.EnsurePolicy? && op.policyKey == key
  }

  predicate MakesRole(op: Op, key: Key) {
    op.EnsureRole? && op.roleKey == key
  }

  predicate MakesMethod(op: Op, key: Key) {
    op.MergeAuthMethod? && op.methodKey == key
  }

  ghost predicate PartitionMade(before: seq<Op>, partition: string) {
    partition == DEFAULT_PARTITION || exists op :: op in before && MakesPartition(op, partition)
  }

  /** What a step refers to, an earlier step has made. */
  ghost predicate Justified(before: seq<Op>, op: Op) {
    match op
    case EnsurePolicy(key, _) => PartitionMade(before, key.partition)
    case EnsureRole(key, _, policyName) =>
      && PartitionMade(before, key.partition)
      && (policyName == "" || exists o :: o in before && MakesPolicy(o, Key(key.partition, policyName)))
    case MergeAuthMethod(key, _) => PartitionMade(before, key.partition)
    case SetRule(r) =>
      && (exists o :: o in before && MakesMethod(o, Key(r.partition, r.authMethod)))
      && (r.bindType.BindRole? ==> exists o :: o in before && MakesRole(o, Key(r.partition, r.bindName)))
    case AttachAnonymousPolicy => exists o :: o in before && o.EnsureAnonymousPolicy?
    case RegisterNode(key, _) => PartitionMade(before, key.partition)
    case _ => true
  }

  ghost predicate Sequenced(ops: seq<Op>) {
    forall k :: 0 <= k < |ops| ==> Justified(ops[..k], ops[k])
  }

  lemma JustifiedIsReady(acl: Acl, before: seq<Op>, op: Op)
    requires AllSettled(acl, before) && Justified(before, op) && DEFAULT_PARTITION in acl.partitions
    ensures Ready(acl, op)
  {
  }

  /** Wherever a run stops, nothing it wrote refers to something missing. */
  lemma {:induction false} RunIntact(acl: Acl, ops: seq<Op>, k: nat)
    requires Intact(acl) && Sequenced(ops) && AllCompatible(ops, ops) && k <= |ops|
    ensures Intact(Run(acl, ops[..k]))
    ensures k < |ops| ==> Ready(Run(acl, ops[..k]), ops[k])
  {
    var done := Run(acl, ops[..k]);
    if k > 0 {
      RunIntact(acl, ops, k - 1);
      assert ops[..k][..k - 1] == ops[..k - 1];
      ApplyIntact(Run(acl, ops[..k - 1]), ops[k - 1]);
    }
    if k < |ops| {
      RunSettles(acl, ops[..k]);
      JustifiedIsReady(done, ops[..k], ops[k]);
    }
  }
}
