/** The controllers of all partitions of one cluster at work at once: each read and
    each delete is a step of its own, and tasks start and stop, log in and register
    in between. A round joins what it read, whenever it read it, and cleans up one
    resource after the other as TaskState.Reconcile does. */
module Fleet {
  import opened Prelude
  import opened EcsTasks
  import opened ConsulApi
  import opened Cleanup
  import Namespaces
  import Controller

  datatype World = World(tasks: set<EcsTask>, tokens: set<Token>, services: set<Service>)

  datatype Phase = Idle | ReadingTasks | ReadingTokens | ReadingServices | Cleaning

  /** Where TaskState.Reconcile is: before which token, or before which service. */
  datatype Work = NoWork | Deleting(task: TaskState, next: nat) | Deregistering(task: TaskState, next: nat)

  /** What a controller has read in its current round, the resources it has yet to
      reconcile, and the one it is reconciling. */
  datatype Round = Round(phase: Phase, ecs: States, tokens: seq<Token>, services: seq<Service>, todo: States,
      work: Work)

  const NO_ROUND := Round(Idle, map[], [], [], map[], NoWork)

  /** Controllers go by their partition. */
  datatype State = State(world: World, rounds: map<string, Round>)

  datatype Step =
    // Anything may happen outside the controllers.
    | Outside(world: World)
    | Begin(p: string)
    // A page of tasks, described with their tags.
    | ReadTasks(p: string, page: seq<EcsTask>)
    | TasksDone(p: string)
    // The tokens of a namespace, or of several.
    | ReadTokens(p: string, namespaces: set<string>, listed: seq<Token>)
    | TokensDone(p: string)
    | ReadServices(p: string, found: seq<Service>)
    // The next resource; its client may fail.
    | Reconcile(p: string, id: TaskID, ok: bool)
    | DeleteToken(p: string, ok: bool)
    | TokensDeleted(p: string)
    | Deregister(p: string, ok: bool)
    | TaskDone(p: string)
    // The end of a round, or an error or crash that ends it early.
    | EndRound(p: string)

  /** A page's tasks recorded one after the other. */
  function RecordAll(l: Lister, m: States, page: seq<EcsTask>): States {
    if page == [] then m else Record(l, RecordAll(l, m, page[..|page| - 1]), page[|page| - 1])
  }

  predicate KeptIn(l: Lister, page: seq<EcsTask>, id: TaskID) {
    exists i :: 0 <= i < |page| && KeptAs(l, page[i], id)
  }

  lemma KeptInSnoc(l: Lister, page: seq<EcsTask>, t: EcsTask, id: TaskID)
    ensures KeptIn(l, page + [t], id) <==> KeptIn(l, page, id) || KeptAs(l, t, id)
  {
    var longer := page + [t];
    if i :| 0 <= i < |page| && KeptAs(l, page[i], id) { assert KeptAs(l, longer[i], id); }
    if KeptAs(l, t, id) { assert KeptAs(l, longer[|page|], id); }
    if i :| 0 <= i < |longer| && KeptAs(l, longer[i], id) {
      assert i < |page| ==> KeptAs(l, page[i], id);
    }
  }

  lemma RecordKeys(l: Lister, m: States, t: EcsTask)
    ensures forall id :: id in Record(l, m, t) <==> id in m || KeptAs(l, t, id)
    ensures (forall id :: id in m ==> m[id].found) ==> forall id :: id in Record(l, m, t) ==> Record(l, m, t)[id].found
  {
  }

  lemma {:induction false} RecordAllKeys(l: Lister, m: States, page: seq<EcsTask>, id: TaskID)
    requires forall k :: k in m ==> m[k].found
    ensures id in RecordAll(l, m, page) <==> id in m || KeptIn(l, page, id)
    ensures forall k :: k in RecordAll(l, m, page) ==> RecordAll(l, m, page)[k].found
  {
    if page != [] {
      var rest, last := page[..|page| - 1], page[|page| - 1];
      RecordAllKeys(l, m, rest, id);
      RecordKeys(l, RecordAll(l, m, rest), last);
      assert page == rest + [last];
      KeptInSnoc(l, rest, last, id);
    }
  }

  datatype Fleet = Fleet(cluster: string, parse: Parser) {

    function ListerOf(p: string): Lister { Lister(cluster, p) }

    function RoundOf(s: State, p: string): Round {
      if p in s.rounds then s.rounds[p] else NO_ROUND
    }

    function TokensIn(w: World, p: string, namespaces: set<string>): set<Token> {
      set t | t in w.tokens && t.partition == p && t.namespace in namespaces
    }

    function ServicesIn(w: World, p: string): set<Service> {
      set svc | svc in w.services && svc.node == cluster && svc.partition == p && (p != "" || svc.namespace == "")
    }

    ghost predicate Enabled(s: State, step: Step) {
      match step
      case Outside(_) => true
      case Begin(p) => RoundOf(s, p).phase.Idle?
      case ReadTasks(p, page) => RoundOf(s, p).phase.ReadingTasks? && forall t :: t in page ==> t in s.world.tasks
      case TasksDone(p) => RoundOf(s, p).phase.ReadingTasks?
      case ReadTokens(p, namespaces, listed) =>
        RoundOf(s, p).phase.ReadingTokens? && Lists(listed, TokensIn(s.world, p, namespaces))
      case TokensDone(p) => RoundOf(s, p).phase.ReadingTokens?
      case ReadServices(p, found) => RoundOf(s, p).phase.ReadingServices? && Lists(found, ServicesIn(s.world, p))
      case Reconcile(p, id, _) =>
        RoundOf(s, p).phase.Cleaning? && RoundOf(s, p).work.NoWork? && id in RoundOf(s, p).todo
      case DeleteToken(p, _) =>
        var work := RoundOf(s, p).work; work.Deleting? && work.next < |work.task.tokens|
      case TokensDeleted(p) =>
        var work := RoundOf(s, p).work; work.Deleting? && work.next == |work.task.tokens|
      case Deregister(p, _) =>
        var work := RoundOf(s, p).work; work.Deregistering? && work.next < |work.task.services|
      case TaskDone(p) =>
        var work := RoundOf(s, p).work; work.Deregistering? && work.next == |work.task.services|
      case EndRound(p) => !RoundOf(s, p).phase.Idle?
    }

    function WithRound(s: State, p: string, r: Round): State {
      s.(rounds := s.rounds[p := r])
    }

    function Apply(s: State, step: Step): State {
      match step
      case Outside(world) => s.(world := world)
      case Begin(p) => WithRound(s, p, NO_ROUND.(phase := ReadingTasks))
      case ReadTasks(p, page) =>
        var r := RoundOf(s, p);
        WithRound(s, p, r.(ecs := RecordAll(ListerOf(p), r.ecs, page)))
      case TasksDone(p) => WithRound(s, p, RoundOf(s, p).(phase := ReadingTokens))
      case ReadTokens(p, _, listed) =>
        var r := RoundOf(s, p);
        WithRound(s, p, r.(tokens := r.tokens + listed))
      case TokensDone(p) => WithRound(s, p, RoundOf(s, p).(phase := ReadingServices))
      case ReadServices(p, found) =>
        var r := RoundOf(s, p);
        WithRound(s, p,
          r.(phase := Cleaning, services := found, todo := Joined(ListerOf(p), parse, r.ecs, r.tokens, found)))
      case Reconcile(p, id, ok) =>
        var r := RoundOf(s, p);
        if id !in r.todo then s
        else WithRound(s, p,
          r.(todo := r.todo - {id}, work := if r.todo[id].found || !ok then NoWork else Deleting(r.todo[id], 0)))
      case DeleteToken(p, ok) =>
        var work := RoundOf(s, p).work;
        if !work.Deleting? || work.next >= |work.task.tokens| then s
        else if !ok then WithRound(s, p, RoundOf(s, p).(work := Deregistering(work.task, 0)))
        else WithoutToken(WithRound(s, p, RoundOf(s, p).(work := Deleting(work.task, work.next + 1))),
          work.task.tokens[work.next])
      case TokensDeleted(p) =>
        var work := RoundOf(s, p).work;
        if work.Deleting? then WithRound(s, p, RoundOf(s, p).(work := Deregistering(work.task, 0))) else s
      case Deregister(p, ok) =>
        var work := RoundOf(s, p).work;
        if !work.Deregistering? || work.next >= |work.task.services| then s
        else
          var later := WithRound(s, p, RoundOf(s, p).(work := Deregistering(work.task, work.next + 1)));
          if ok then WithoutService(later, work.task.services[work.next].(node := work.task.clusterARN)) else later
      case TaskDone(p) => WithRound(s, p, RoundOf(s, p).(work := NoWork))
      case EndRound(p) => WithRound(s, p, NO_ROUND)
    }

    function WithoutToken(s: State, t: Token): State {
      s.(world := s.world.(tokens := TokensWithout(s.world.tokens, t)))
    }

    function WithoutService(s: State, svc: Service): State {
      s.(world := s.world.(services := ServicesWithout(s.world.services, svc)))
    }

    function Run(start: World, steps: seq<Step>): State {
      if steps == [] then State(start, map[])
      else Apply(Run(start, steps[..|steps| - 1]), steps[|steps| - 1])
    }

    ghost predicate Possible(start: World, steps: seq<Step>) {
      steps != [] ==>
        && Possible(start, steps[..|steps| - 1])
        && Enabled(Run(start, steps[..|steps| - 1]), steps[|steps| - 1])
    }

    // What has happened in a run

    /** This step is a read of ECS by p's controller that returned the task. */
    predicate Returns(step: Step, p: string, id: TaskID) {
      step.ReadTasks? && step.p == p && KeptIn(ListerOf(p), step.page, id)
    }

    /** A read of ECS returned the task, and p's controller has begun no other round
        since. */
    predicate ReturnedAt(steps: seq<Step>, p: string, id: TaskID, i: int) {
      0 <= i < |steps| && Returns(steps[i], p, id) && forall j :: i < j < |steps| ==> steps[j] != Begin(p)
    }

    ghost predicate Returned(steps: seq<Step>, p: string, id: TaskID) {
      exists i :: ReturnedAt(steps, p, id, i)
    }

    lemma ReturnedSnoc(steps: seq<Step>, step: Step, p: string, id: TaskID)
      ensures Returned(steps + [step], p, id) <==>
        step != Begin(p) && (Returned(steps, p, id) || Returns(step, p, id))
    {
      var longer := steps + [step];
      if i :| ReturnedAt(longer, p, id, i) {
        assert longer[|steps|] == step;
        if i < |steps| {
          assert forall j :: 0 <= j < |steps| ==> longer[j] == steps[j];
          assert ReturnedAt(steps, p, id, i);
        }
      }
      if step != Begin(p) {
        if i :| ReturnedAt(steps, p, id, i) { assert ReturnedAt(longer, p, id, i); }
        if Returns(step, p, id) { assert ReturnedAt(longer, p, id, |steps|); }
      }
    }

    predicate TokenAt(start: World, steps: seq<Step>, t: Token, i: int) {
      0 <= i <= |steps| && t in Run(start, steps[..i]).world.tokens
    }

    predicate ServiceAt(start: World, steps: seq<Step>, svc: Service, i: int) {
      0 <= i <= |steps| && svc in Run(start, steps[..i]).world.services
    }

    /** It was there at some time. */
    ghost predicate TokenSeen(start: World, steps: seq<Step>, t: Token) {
      exists i :: TokenAt(start, steps, t, i)
    }

    ghost predicate ServiceSeen(start: World, steps: seq<Step>, svc: Service) {
      exists i :: ServiceAt(start, steps, svc, i)
    }

    lemma SeenSnoc(start: World, steps: seq<Step>, step: Step)
      ensures forall t :: TokenSeen(start, steps, t) ==> TokenSeen(start, steps + [step], t)
      ensures forall svc :: ServiceSeen(start, steps, svc) ==> ServiceSeen(start, steps + [step], svc)
    {
      var longer := steps + [step];
      assert forall i :: 0 <= i <= |steps| ==> longer[..i] == steps[..i];
      forall t | TokenSeen(start, steps, t) ensures TokenSeen(start, longer, t) {
        var i :| TokenAt(start, steps, t, i);
        assert TokenAt(start, longer, t, i);
      }
      forall svc | ServiceSeen(start, steps, svc) ensures ServiceSeen(start, longer, svc) {
        var i :| ServiceAt(start, steps, svc, i);
        assert ServiceAt(start, longer, svc, i);
      }
    }

    lemma SeenNow(start: World, steps: seq<Step>)
      ensures forall t :: t in Run(start, steps).world.tokens ==> TokenSeen(start, steps, t)
      ensures forall svc :: svc in Run(start, steps).world.services ==> ServiceSeen(start, steps, svc)
    {
      assert steps[..|steps|] == steps;
      forall t | t in Run(start, steps).world.tokens ensures TokenSeen(start, steps, t) {
        assert TokenAt(start, steps, t, |steps|);
      }
      forall svc | svc in Run(start, steps).world.services ensures ServiceSeen(start, steps, svc) {
        assert ServiceAt(start, steps, svc, |steps|);
      }
    }

    // What a round knows

    /** A resource whose tokens and services the round may remove: each was read, and
        belongs to a task that was not read from ECS. */
    predicate MayClean(p: string, r: Round, task: TaskState) {
      && task.clusterARN == cluster
      && (forall t :: t in task.tokens ==>
            t in r.tokens && TokenTask(ListerOf(p), parse, t).Some? && TokenTask(ListerOf(p), parse, t).value !in r.ecs)
      && (forall svc :: svc in task.services ==>
            svc in r.services && ServiceTask(svc).Some? && ServiceTask(svc).value !in r.ecs)
    }

    /** This is the join's doing: whatever was read when, an absent resource holds
        nothing of a task that ECS returned. */
    lemma JoinedMayClean(p: string, r: Round, id: TaskID)
      requires forall k :: k in r.ecs ==> r.ecs[k].found
      requires id in Joined(ListerOf(p), parse, r.ecs, r.tokens, r.services)
      requires !Joined(ListerOf(p), parse, r.ecs, r.tokens, r.services)[id].found
      ensures MayClean(p, r, Joined(ListerOf(p), parse, r.ecs, r.tokens, r.services)[id])
    {
      var l := ListerOf(p);
      var task := Joined(l, parse, r.ecs, r.tokens, r.services)[id];
      JoinConserves(l, parse, r.ecs, r.tokens, r.services, id);
      forall t | t in task.tokens ensures t in r.tokens && TokenTask(l, parse, t) == Some(id) {
        InTokensOf(l, parse, r.tokens, id, t);
      }
      forall svc | svc in task.services ensures svc in r.services && ServiceTask(svc) == Some(id) {
        InServicesOf(r.services, id, svc);
      }
    }

    ghost predicate ReadsRight(start: World, steps: seq<Step>, p: string, r: Round) {
      && (forall id :: id in r.ecs ==> r.ecs[id].found)
      && (!r.phase.Idle? ==> forall id :: id in r.ecs <==> Returned(steps, p, id))
      && (forall t :: t in r.tokens ==> t.partition == p && TokenSeen(start, steps, t))
      && (forall svc :: svc in r.services ==>
          svc.partition == p && svc.node == cluster && ServiceSeen(start, steps, svc))
    }

    predicate CleansRight(p: string, r: Round) {
      && (r.phase.Idle? ==> r == NO_ROUND)
      && (!r.phase.Cleaning? ==> r.work.NoWork? && r.todo == map[])
      && (forall id :: id in r.todo && !r.todo[id].found ==> MayClean(p, r, r.todo[id]))
      && (!r.work.NoWork? ==> MayClean(p, r, r.work.task))
    }

    predicate Works(step: Step) {
      step.Reconcile? || step.DeleteToken? || step.TokensDeleted? || step.Deregister? || step.TaskDone?
    }

    lemma ReadingKeepsClean(s: State, step: Step, p: string)
      requires CleansRight(p, RoundOf(s, p)) && Enabled(s, step) && !Works(step)
      requires forall id :: id in RoundOf(s, p).ecs ==> RoundOf(s, p).ecs[id].found
      ensures CleansRight(p, RoundOf(Apply(s, step), p))
    {
      if step.ReadServices? && step.p == p {
        var r := RoundOf(Apply(s, step), p);
        forall id | id in r.todo && !r.todo[id].found ensures MayClean(p, r, r.todo[id]) {
          JoinedMayClean(p, r, id);
        }
      }
    }

    /** Working on a resource changes nothing of what was read. */
    lemma WorkingKeepsClean(s: State, step: Step, p: string)
      requires CleansRight(p, RoundOf(s, p)) && Enabled(s, step) && Works(step)
      ensures CleansRight(p, RoundOf(Apply(s, step), p))
    {
      WorkChanges(s, step, p);
    }

    lemma WorkChanges(s: State, step: Step, p: string)
      requires CleansRight(p, RoundOf(s, p)) && Enabled(s, step) && Works(step)
      ensures var r, r' := RoundOf(s, p), RoundOf(Apply(s, step), p);
        && r' == r.(todo := r'.todo, work := r'.work)
        && (r' != r ==> r.phase.Cleaning?)
        && (forall id :: id in r'.todo ==> id in r.todo && r'.todo[id] == r.todo[id])
        && (r'.work.NoWork? || (!r.work.NoWork? && r'.work.task == r.work.task)
            || exists id :: id in r.todo && !r.todo[id].found && r'.work.task == r.todo[id])
    {
    }

    lemma CleanStep(s: State, step: Step, p: string)
      requires CleansRight(p, RoundOf(s, p)) && Enabled(s, step)
      requires forall id :: id in RoundOf(s, p).ecs ==> RoundOf(s, p).ecs[id].found
      ensures CleansRight(p, RoundOf(Apply(s, step), p))
    {
      if Works(step) { WorkingKeepsClean(s, step, p); } else { ReadingKeepsClean(s, step, p); }
    }

    lemma EcsMoves(s: State, step: Step, p: string)
      requires Enabled(s, step)
      ensures var r, r' := RoundOf(s, p), RoundOf(Apply(s, step), p);
        && (step.ReadTasks? && step.p == p ==>
              r' == r.(ecs := RecordAll(ListerOf(p), r.ecs, step.page)) && r.phase.ReadingTasks?)
        && (step == Begin(p) || step == EndRound(p) ==> r'.ecs == map[])
        && (!(step.ReadTasks? && step.p == p) && step != Begin(p) && step != EndRound(p) ==> r'.ecs == r.ecs)
        && (step == EndRound(p) ==> r'.phase.Idle?)
        && (!r'.phase.Idle? && step != Begin(p) ==> !r.phase.Idle?)
    {
    }

    lemma ListsMove(s: State, step: Step, p: string)
      requires Enabled(s, step)
      ensures var r, r' := RoundOf(s, p), RoundOf(Apply(s, step), p);
        && (forall t :: t in r'.tokens ==> t in r.tokens || (t.partition == p && t in s.world.tokens))
        && (forall svc :: svc in r'.services ==>
              svc in r.services || (svc.partition == p && svc.node == cluster && svc in s.world.services))
    {
    }

    /** What a step adds to a round's reads. */
    lemma ReadStep(s: State, step: Step, p: string, id: TaskID)
      requires Enabled(s, step) && forall k :: k in RoundOf(s, p).ecs ==> RoundOf(s, p).ecs[k].found
      ensures var r, r' := RoundOf(s, p), RoundOf(Apply(s, step), p);
        && (forall k :: k in r'.ecs ==> r'.ecs[k].found)
        && (!r'.phase.Idle? ==> (id in r'.ecs <==> step != Begin(p) && (id in r.ecs || Returns(step, p, id))))
        && (!r'.phase.Idle? && step != Begin(p) ==> !r.phase.Idle?)
        && (forall t :: t in r'.tokens ==> t in r.tokens || (t.partition == p && t in s.world.tokens))
        && (forall svc :: svc in r'.services ==>
              svc in r.services || (svc.partition == p && svc.node == cluster && svc in s.world.services))
    {
      var r, r' := RoundOf(s, p), RoundOf(Apply(s, step), p);
      if step.ReadTasks? && step.p == p { RecordAllKeys(ListerOf(p), r.ecs, step.page, id); }
      EcsMoves(s, step, p);
      ListsMove(s, step, p);
    }

    lemma {:induction false} RunRight(start: World, steps: seq<Step>, p: string)
      requires Possible(start, steps)
      ensures ReadsRight(start, steps, p, RoundOf(Run(start, steps), p))
        && CleansRight(p, RoundOf(Run(start, steps), p))
    {
      if steps != [] {
        var rest, step := steps[..|steps| - 1], steps[|steps| - 1];
        RunRight(start, rest, p);
        assert steps == rest + [step];
        CleanStep(Run(start, rest), step, p);
        ReadsStep(start, rest, step, p);
      }
    }

    lemma ReadsStep(start: World, steps: seq<Step>, step: Step, p: string)
      requires Enabled(Run(start, steps), step) && ReadsRight(start, steps, p, RoundOf(Run(start, steps), p))
      ensures ReadsRight(start, steps + [step], p, RoundOf(Apply(Run(start, steps), step), p))
    {
      var s := Run(start, steps);
      var r, r' := RoundOf(s, p), RoundOf(Apply(s, step), p);
      SeenNow(start, steps);
      SeenSnoc(start, steps, step);
      forall id ensures !r'.phase.Idle? ==> (id in r'.ecs <==> Returned(steps + [step], p, id)) {
        ReadStep(s, step, p, id);
        ReturnedSnoc(steps, step, p, id);
      }
      ReadStep(s, step, p, "");
    }

    // Safety

    /** While a token's accessor or a service's ID is in use, it keeps its owner. */
    ghost predicate OwnersKept(start: World, steps: seq<Step>) {
      && (forall t, u :: TokenSeen(start, steps, t) && TokenSeen(start, steps, u) && SameToken(t, u) ==>
            TokenTask(ListerOf(t.partition), parse, t) == TokenTask(ListerOf(t.partition), parse, u))
      && (forall a, b :: ServiceSeen(start, steps, a) && ServiceSeen(start, steps, b) && SameService(a, b) ==>
            ServiceTask(a) == ServiceTask(b))
    }

    lemma {:induction false} PossiblePrefix(start: World, steps: seq<Step>, k: nat)
      requires Possible(start, steps) && k <= |steps|
      ensures Possible(start, steps[..k])
      decreases |steps|
    {
      if k < |steps| {
        PossiblePrefix(start, steps[..|steps| - 1], k);
        assert steps[..|steps| - 1][..k] == steps[..k];
      } else {
        assert steps[..k] == steps;
      }
    }

    /** In every interleaving, with any failures and whatever happens outside: what a
        controller's step takes out of the world is of its own partition, and
        belonged to a task of the cluster that its own reads of ECS in this very
        round did not return. */
    lemma TokenRemovalSafe(start: World, steps: seq<Step>, k: nat, u: Token)
      requires Possible(start, steps) && k < |steps| && !steps[k].Outside? && OwnersKept(start, steps[..k])
      requires u in Run(start, steps[..k]).world.tokens && u !in Run(start, steps[..k + 1]).world.tokens
      ensures var task := TokenTask(ListerOf(u.partition), parse, u);
        u.partition == steps[k].p && task.Some? && !Returned(steps[..k], u.partition, task.value)
    {
      PossiblePrefix(start, steps, k + 1);
      var s := Run(start, steps[..k]);
      assert steps[..k + 1][..k] == steps[..k];
      RunRight(start, steps[..k], steps[k].p);
      SeenNow(start, steps[..k]);
      var work := RoundOf(s, steps[k].p).work;
      var t := work.task.tokens[work.next];
      assert t in work.task.tokens && SameToken(u, t);
      assert TokenSeen(start, steps[..k], t) && TokenSeen(start, steps[..k], u);
    }

    lemma ServiceRemovalSafe(start: World, steps: seq<Step>, k: nat, u: Service)
      requires Possible(start, steps) && k < |steps| && !steps[k].Outside? && OwnersKept(start, steps[..k])
      requires u in Run(start, steps[..k]).world.services && u !in Run(start, steps[..k + 1]).world.services
      ensures u.partition == steps[k].p && u.node == cluster
      ensures ServiceTask(u).Some? && !Returned(steps[..k], u.partition, ServiceTask(u).value)
    {
      PossiblePrefix(start, steps, k + 1);
      var s := Run(start, steps[..k]);
      assert steps[..k + 1][..k] == steps[..k];
      RunRight(start, steps[..k], steps[k].p);
      SeenNow(start, steps[..k]);
      var work := RoundOf(s, steps[k].p).work;
      var svc := work.task.services[work.next];
      assert svc in work.task.services && svc.(node := cluster) == svc && SameService(u, svc);
      assert ServiceSeen(start, steps[..k], svc) && ServiceSeen(start, steps[..k], u);
    }

    predicate OwnsToken(home: string, id: TaskID, t: Token) {
      t.partition == home && TokenTask(ListerOf(home), parse, t) == Some(id)
    }

    predicate OwnsService(home: string, id: TaskID, svc: Service) {
      svc.partition == home && ServiceTask(svc) == Some(id)
    }

    /** Where a task's tokens and services are in the partition it is tagged with, a
        task that its own partition's controller has been shown in the current round
        loses none of them, to that controller or to any other. */
    lemma ListedTaskLosesNothing(start: World, steps: seq<Step>, k: nat, id: TaskID, home: string)
      requires Possible(start, steps) && k < |steps| && !steps[k].Outside? && OwnersKept(start, steps[..k])
      requires Returned(steps[..k], home, id)
      ensures forall u :: u in Run(start, steps[..k]).world.tokens && OwnsToken(home, id, u) ==>
                u in Run(start, steps[..k + 1]).world.tokens
      ensures forall u :: u in Run(start, steps[..k]).world.services && OwnsService(home, id, u) ==>
                u in Run(start, steps[..k + 1]).world.services
    {
      var before, after := Run(start, steps[..k]).world, Run(start, steps[..k + 1]).world;
      forall u | u in before.tokens && u !in after.tokens
        ensures !OwnsToken(home, id, u)
      {
        TokenRemovalSafe(start, steps, k, u);
      }
      forall u | u in before.services && u !in after.services
        ensures !OwnsService(home, id, u)
      {
        ServiceRemovalSafe(start, steps, k, u);
      }
    }

    lemma Extend(start: World, steps: seq<Step>, s: State, step: Step) returns (longer: seq<Step>)
      requires Possible(start, steps) && Run(start, steps) == s && Enabled(s, step)
      ensures longer == steps + [step] && Possible(start, longer) && Run(start, longer) == Apply(s, step)
    {
      longer := steps + [step];
      assert longer[..|longer| - 1] == steps;
    }

    /** Being listed in time matters: a task that starts and logs in after its
        controller read ECS, but before it read the tokens, is running, in the
        right partition and properly tagged, and yet loses its token. */
    lemma LateTaskLosesToken(t: Token, task: EcsTask, id: TaskID) returns (steps: seq<Step>)
      requires TokenTask(ListerOf(t.partition), parse, t) == Some(id)
      requires KeptAs(ListerOf(t.partition), task, id)
      ensures Possible(World({}, {}, {}), steps)
      ensures var s := Run(World({}, {}, {}), steps); task in s.world.tasks && t !in s.world.tokens
      ensures |steps| > 0 && steps[|steps| - 1] == DeleteToken(t.partition, true)
      ensures t in Run(World({}, {}, {}), steps[..|steps| - 1]).world.tokens
    {
      var p, start, late := t.partition, World({}, {}, {}), World({task}, {t}, {});
      steps := RunReadTasks(start, p, map[], []);
      steps := Extend(start, steps, Run(start, steps), Outside(late));
      steps := LateCleaning(start, steps, t, task, id);
    }

    lemma LateCleaning(start: World, before: seq<Step>, t: Token, task: EcsTask, id: TaskID) returns (steps: seq<Step>)
      requires Possible(start, before) && Run(start, before).world == World({task}, {t}, {})
      requires RoundOf(Run(start, before), t.partition) == NO_ROUND.(phase := ReadingTokens, ecs := map[])
      requires TokenTask(ListerOf(t.partition), parse, t) == Some(id)
      ensures |steps| > 0 && Possible(start, steps) && steps[|steps| - 1] == DeleteToken(t.partition, true)
      ensures Run(start, steps).world == World({task}, {}, {})
      ensures Run(start, steps[..|steps| - 1]).world == World({task}, {t}, {})
    {
      AbsentJoined(t.partition, map[], t, id);
      steps := RunReadRest(start, before, t.partition, {t.namespace}, map[], [t], []);
      steps := DeleteOne(start, steps, t, t, id);
    }

    // The controller as it runs is one of these runs

    /** The same tokens and services. */
    predicate Agrees(s: State, c: Consul) {
      s.world.tokens == c.tokens && s.world.services == c.services
    }

    /** No step of another controller, and nothing from outside. */
    predicate Own(steps: seq<Step>, p: string) {
      forall step :: step in steps ==> !step.Outside? && step.p == p
    }

    lemma RunDeleteNext(start: World, before: seq<Step>, p: string, ok: Oracle, c: Consul) returns (steps: seq<Step>)
      requires Own(before, p) && Possible(start, before) && Agrees(Run(start, before), c)
      requires var work := RoundOf(Run(start, before), p).work; work.Deleting? && work.next < |work.task.tokens|
      ensures Own(steps, p) && Possible(start, steps)
      ensures var r := RoundOf(Run(start, before), p);
        var o := ConsulApi.DeleteToken(ok, c, r.work.task.tokens[r.work.next]);
        && Agrees(Run(start, steps), o.consul)
        && RoundOf(Run(start, steps), p) == r.(work :=
             if o.failed then Deregistering(r.work.task, 0) else Deleting(r.work.task, r.work.next + 1))
    {
      if ok(c.calls) {
        var work := RoundOf(Run(start, before), p).work;
        steps := RunDeleted(start, before, Run(start, before), p, work.task, work.next);
      } else {
        steps := RunFailed(start, before, p);
      }
    }

    lemma RunDeleted(start: World, before: seq<Step>, s: State, p: string, task: TaskState, n: nat)
        returns (steps: seq<Step>)
      requires Own(before, p) && Possible(start, before) && s == Run(start, before)
      requires RoundOf(s, p).work == Deleting(task, n) && n < |task.tokens|
      ensures Own(steps, p) && Possible(start, steps)
      ensures var s' := Run(start, steps);
        && s'.world == s.world.(tokens := TokensWithout(s.world.tokens, task.tokens[n]))
        && RoundOf(s', p) == RoundOf(s, p).(work := Deleting(task, n + 1))
    {
      var s' := DeleteOneToken(s, p, task, n);
      steps := ExtendTo(start, before, s, DeleteToken(p, true), s');
    }

    lemma RunFailed(start: World, before: seq<Step>, p: string) returns (steps: seq<Step>)
      requires Own(before, p) && Possible(start, before) && Enabled(Run(start, before), DeleteToken(p, false))
      ensures Own(steps, p) && Possible(start, steps)
      ensures var s, s' := Run(start, before), Run(start, steps); var work := RoundOf(s, p).work;
        s'.world == s.world && RoundOf(s', p) == RoundOf(s, p).(work := Deregistering(work.task, 0))
    {
      var s := Run(start, before);
      FailToDelete(s, p);
      steps := ExtendTo(start, before, s, DeleteToken(p, false), Apply(s, DeleteToken(p, false)));
    }

    lemma DeleteOneToken(s: State, p: string, task: TaskState, n: nat) returns (s': State)
      requires RoundOf(s, p).work == Deleting(task, n) && n < |task.tokens|
      ensures Enabled(s, DeleteToken(p, true)) && s' == Apply(s, DeleteToken(p, true))
      ensures s'.world == s.world.(tokens := TokensWithout(s.world.tokens, task.tokens[n]))
      ensures RoundOf(s', p) == RoundOf(s, p).(work := Deleting(task, n + 1))
    {
      s' := WithoutToken(WithRound(s, p, RoundOf(s, p).(work := Deleting(task, n + 1))), task.tokens[n]);
    }

    lemma FailToDelete(s: State, p: string)
      requires Enabled(s, DeleteToken(p, false))
      ensures var s', work := Apply(s, DeleteToken(p, false)), RoundOf(s, p).work;
        s'.world == s.world && RoundOf(s', p) == RoundOf(s, p).(work := Deregistering(work.task, 0))
    {
    }

    lemma {:induction false} RunDeleteTokens(start: World, before: seq<Step>, s: State, p: string, ok: Oracle,
        c: Consul, n: nat) returns (steps: seq<Step>)
      requires Own(before, p) && Possible(start, before) && Run(start, before) == s && Agrees(s, c)
      requires RoundOf(s, p).work.Deleting? && RoundOf(s, p).work.next == 0 && n <= |RoundOf(s, p).work.task.tokens|
      ensures Own(steps, p) && Possible(start, steps)
      ensures var task := RoundOf(s, p).work.task; var o := DeleteTokens(ok, c, task.tokens[..n]);
        && Agrees(Run(start, steps), o.consul)
        && RoundOf(Run(start, steps), p) ==
             RoundOf(s, p).(work := if o.failed then Deregistering(task, 0) else Deleting(task, n))
    {
      var task := RoundOf(s, p).work.task;
      steps := before;
      if n > 0 {
        steps := RunDeleteTokens(start, before, s, p, ok, c, n - 1);
        var o := DeleteTokens(ok, c, task.tokens[..n - 1]);
        assert task.tokens[..n][..n - 1] == task.tokens[..n - 1];
        if !o.failed {
          steps := RunDeleteNext(start, steps, p, ok, o.consul);
        }
      }
    }

    lemma {:induction false} RunDeregister(start: World, before: seq<Step>, s: State, p: string, ok: Oracle,
        c: Consul, n: nat) returns (steps: seq<Step>)
      requires Own(before, p) && Possible(start, before) && Run(start, before) == s && Agrees(s, c)
      requires RoundOf(s, p).work.Deregistering? && RoundOf(s, p).work.next == 0
        && n <= |RoundOf(s, p).work.task.services|
      ensures Own(steps, p) && Possible(start, steps)
      ensures var task := RoundOf(s, p).work.task;
        && Agrees(Run(start, steps), DeregisterServices(ok, c, task.services[..n], task.clusterARN))
        && RoundOf(Run(start, steps), p) == RoundOf(s, p).(work := Deregistering(task, n))
    {
      var task := RoundOf(s, p).work.task;
      steps := before;
      if n > 0 {
        steps := RunDeregister(start, before, s, p, ok, c, n - 1);
        var c1 := DeregisterServices(ok, c, task.services[..n - 1], task.clusterARN);
        assert task.services[..n][..n - 1] == task.services[..n - 1];
        steps := Extend(start, steps, Run(start, steps), Deregister(p, ok(c1.calls)));
      }
    }

    lemma RunTask(start: World, before: seq<Step>, s: State, p: string, ok: Oracle, c: Consul, id: TaskID)
        returns (steps: seq<Step>)
      requires Own(before, p) && Possible(start, before) && Run(start, before) == s && Agrees(s, c)
      requires RoundOf(s, p).phase.Cleaning? && RoundOf(s, p).work.NoWork? && id in RoundOf(s, p).todo
      ensures Own(steps, p) && Possible(start, steps)
      ensures Agrees(Run(start, steps), ReconcileTask(ok, c, RoundOf(s, p).todo[id]).consul)
      ensures RoundOf(Run(start, steps), p) == RoundOf(s, p).(todo := RoundOf(s, p).todo - {id})
    {
      var task, up := RoundOf(s, p).todo[id], ok(c.calls);
      steps := Extend(start, before, s, Reconcile(p, id, up));
      if !task.found && up {
        var c1 := Call(ok, c).consul;
        steps := RunDeleteTokens(start, steps, Run(start, steps), p, ok, c1, |task.tokens|);
        assert task.tokens[..|task.tokens|] == task.tokens && task.services[..|task.services|] == task.services;
        var o := DeleteTokens(ok, c1, task.tokens);
        if !o.failed { steps := Extend(start, steps, Run(start, steps), TokensDeleted(p)); }
        steps := RunDeregister(start, steps, Run(start, steps), p, ok, o.consul, |task.services|);
        steps := Extend(start, steps, Run(start, steps), TaskDone(p));
      }
    }

    lemma {:induction false} RunTasks(start: World, before: seq<Step>, s: State, p: string, ok: Oracle, c: Consul,
        resources: seq<TaskState>, n: nat) returns (steps: seq<Step>)
      requires Own(before, p) && Possible(start, before) && Run(start, before) == s && Agrees(s, c)
      requires RoundOf(s, p).phase.Cleaning? && RoundOf(s, p).work.NoWork?
      requires ResourcesOf(resources, RoundOf(s, p).todo) && n <= |resources|
      ensures Own(steps, p) && Possible(start, steps)
      ensures Agrees(Run(start, steps), ReconcileTasks(ok, c, resources[..n]).consul)
      ensures RoundOf(Run(start, steps), p).phase.Cleaning? && RoundOf(Run(start, steps), p).work.NoWork?
      ensures Remaining(RoundOf(Run(start, steps), p).todo, resources, n)
    {
      steps := before;
      if n > 0 {
        steps := RunTasks(start, before, s, p, ok, c, resources, n - 1);
        ResourcesDistinct(resources, RoundOf(s, p).todo);
        assert resources[..n][..n - 1] == resources[..n - 1];
        steps := RunNext(start, steps, p, ok, ReconcileTasks(ok, c, resources[..n - 1]).consul, resources, n - 1);
      }
    }

    /** The n-th resource, the ones before it being done. */
    lemma RunNext(start: World, before: seq<Step>, p: string, ok: Oracle, c: Consul, resources: seq<TaskState>, n: nat)
        returns (steps: seq<Step>)
      requires n < |resources| && forall i, j :: 0 <= i < j < |resources| ==> resources[i].taskID != resources[j].taskID
      requires Own(before, p) && Possible(start, before) && Agrees(Run(start, before), c)
      requires var r := RoundOf(Run(start, before), p);
        r.phase.Cleaning? && r.work.NoWork? && Remaining(r.todo, resources, n)
      ensures Own(steps, p) && Possible(start, steps)
      ensures Agrees(Run(start, steps), ReconcileTask(ok, c, resources[n]).consul)
      ensures var r := RoundOf(Run(start, steps), p);
        r.phase.Cleaning? && r.work.NoWork? && Remaining(r.todo, resources, n + 1)
    {
      steps := RunTask(start, before, Run(start, before), p, ok, c, resources[n].taskID);
    }

    /** The resources from the n-th on are still to do. */
    predicate Remaining(todo: States, resources: seq<TaskState>, n: nat) {
      forall i :: n <= i < |resources| ==> resources[i].taskID in todo && todo[resources[i].taskID] == resources[i]
    }

    /** As many states as there are IDs, all of them there: each is there once. */
    lemma ResourcesDistinct(resources: seq<TaskState>, m: States)
      requires ResourcesOf(resources, m)
      ensures forall i, j :: 0 <= i < j < |resources| ==> resources[i].taskID != resources[j].taskID
    {
      var ids := seq(|resources|, i requires 0 <= i < |resources| => resources[i].taskID);
      assert forall id :: id in m ==> id in ids by {
        forall id | id in m ensures id in ids {
          var i :| 0 <= i < |resources| && resources[i] == m[id];
          assert ids[i] == id;
        }
      }
      assert (set id | id in ids) == m.Keys;
      NoRepeats(ids);
      assert forall i :: 0 <= i < |ids| ==> ids[i] == resources[i].taskID;
    }

    lemma {:induction false} NoRepeats(ids: seq<TaskID>)
      requires |set id | id in ids| == |ids|
      ensures forall i, j :: 0 <= i < j < |ids| ==> ids[i] != ids[j]
    {
      if ids != [] {
        var rest, last := ids[..|ids| - 1], ids[|ids| - 1];
        var few := set id | id in rest;
        assert ids == rest + [last];
        assert (set id | id in ids) == few + {last};
        FewerThan(rest);
        assert last in rest ==> few + {last} == few;
        assert last !in rest && |few| == |rest|;
        NoRepeats(rest);
      }
    }

    lemma {:induction false} FewerThan(ids: seq<TaskID>)
      ensures |set id | id in ids| <= |ids|
    {
      if ids != [] {
        var rest, last := ids[..|ids| - 1], ids[|ids| - 1];
        FewerThan(rest);
        assert ids == rest + [last];
        assert (set id | id in ids) == (set id | id in rest) + {last};
      }
    }

    lemma RecordOneMore(l: Lister, rest: seq<EcsTask>, m: States, t: EcsTask, state: TaskState)
        returns (page: seq<EcsTask>)
      requires RecordAll(l, map[], rest) == m && Keep(l, t) == Some(state)
      ensures page == rest + [t] && RecordAll(l, map[], page) == m[state.taskID := state]
    {
      page := rest + [t];
      assert page[..|page| - 1] == rest;
    }

    lemma SourceOf(l: Lister, tasks: seq<EcsTask>, id: TaskID, state: TaskState) returns (t: EcsTask)
      requires Sourced(l, tasks, id, state)
      ensures t in tasks && Keep(l, t) == Some(state) && state.taskID == id
    {
      t :| t in tasks && Keep(l, t) == Some(state) && state.taskID == id;
    }

    lemma SoundPart(l: Lister, tasks: seq<EcsTask>, m: States, id: TaskID)
      requires Sound(l, tasks, m) && id in m
      ensures Sound(l, tasks, m - {id}) && |m - {id}| < |m| && Sourced(l, tasks, id, m[id])
    {
      var fewer := m - {id};
      assert fewer.Keys == m.Keys - {id};
      forall k | k in fewer ensures Sourced(l, tasks, k, fewer[k]) {
        assert Sourced(l, tasks, k, m[k]);
      }
    }

    lemma PutBack(m: States, id: TaskID)
      requires id in m
      ensures (m - {id})[id := m[id]] == m
    {
    }

    /** A page from which exactly these states are recorded. */
    lemma {:induction false} PageFor(l: Lister, tasks: seq<EcsTask>, m: States) returns (page: seq<EcsTask>)
      requires Sound(l, tasks, m)
      ensures (forall t :: t in page ==> t in tasks) && RecordAll(l, map[], page) == m
      decreases |m|
    {
      page := [];
      if m != map[] {
        var id :| id in m;
        SoundPart(l, tasks, m, id);
        var rest := PageFor(l, tasks, m - {id});
        var t := SourceOf(l, tasks, id, m[id]);
        page := RecordOneMore(l, rest, m - {id}, t, m[id]);
        PutBack(m, id);
      }
    }

    lemma RunReadTasks(start: World, p: string, ecs: States, tasks: seq<EcsTask>) returns (steps: seq<Step>)
      requires (forall t :: t in tasks ==> t in start.tasks) && Sound(ListerOf(p), tasks, ecs)
      ensures Own(steps, p) && Possible(start, steps) && Run(start, steps).world == start
      ensures RoundOf(Run(start, steps), p) == NO_ROUND.(phase := ReadingTokens, ecs := ecs)
    {
      var page := PageFor(ListerOf(p), tasks, ecs);
      var s0 := State(start, map[]);
      var s1 := WithRound(s0, p, NO_ROUND.(phase := ReadingTasks));
      steps := ExtendTo(start, [], s0, Begin(p), s1);
      steps := RunReadPage(start, steps, p, page, ecs);
      steps := Extend(start, steps, Run(start, steps), TasksDone(p));
    }

    lemma RunReadPage(start: World, before: seq<Step>, p: string, page: seq<EcsTask>, ecs: States)
        returns (steps: seq<Step>)
      requires Own(before, p) && Possible(start, before) && Run(start, before).world == start
      requires RoundOf(Run(start, before), p) == NO_ROUND.(phase := ReadingTasks)
      requires (forall t :: t in page ==> t in start.tasks) && RecordAll(ListerOf(p), map[], page) == ecs
      ensures Own(steps, p) && Possible(start, steps) && Run(start, steps).world == start
      ensures RoundOf(Run(start, steps), p) == NO_ROUND.(phase := ReadingTasks, ecs := ecs)
    {
      steps := Extend(start, before, Run(start, before), ReadTasks(p, page));
    }

    /** A round's reads, where nothing happens in between. */
    lemma RunReads(start: World, p: string, c: Consul, ecs: States, tokens: seq<Token>, services: seq<Service>,
        tasks: seq<EcsTask>) returns (steps: seq<Step>)
      requires start.tokens == c.tokens && start.services == c.services && forall t :: t in tasks ==> t in start.tasks
      requires Sound(ListerOf(p), tasks, ecs)
      requires Lists(tokens, VisibleTokens(ListerOf(p), c)) && Lists(services, VisibleServices(ListerOf(p), c))
      ensures Own(steps, p) && Possible(start, steps) && Run(start, steps).world == start
      ensures RoundOf(Run(start, steps), p) ==
        Round(Cleaning, ecs, tokens, services, Joined(ListerOf(p), parse, ecs, tokens, services), NoWork)
    {
      var l := ListerOf(p);
      var namespaces := if l.PartitionsEnabled() then c.namespaces.Keys else {""};
      assert VisibleTokens(l, c) == TokensIn(start, p, namespaces);
      assert VisibleServices(l, c) == ServicesIn(start, p);
      steps := RunReadTasks(start, p, ecs, tasks);
      steps := RunReadRest(start, steps, p, namespaces, ecs, tokens, services);
    }

    /** The rest of the reads, in the world as it then is. */
    lemma RunReadRest(start: World, before: seq<Step>, p: string, namespaces: set<string>, ecs: States,
        tokens: seq<Token>, services: seq<Service>) returns (steps: seq<Step>)
      requires Possible(start, before)
      requires RoundOf(Run(start, before), p) == NO_ROUND.(phase := ReadingTokens, ecs := ecs)
      requires Lists(tokens, TokensIn(Run(start, before).world, p, namespaces))
      requires Lists(services, ServicesIn(Run(start, before).world, p))
      ensures Possible(start, steps) && (Own(before, p) ==> Own(steps, p))
      ensures Run(start, steps).world == Run(start, before).world
      ensures RoundOf(Run(start, steps), p) ==
        Round(Cleaning, ecs, tokens, services, Joined(ListerOf(p), parse, ecs, tokens, services), NoWork)
    {
      steps := RunReadTokens(start, before, p, namespaces, ecs, tokens);
      steps := Extend(start, steps, Run(start, steps), ReadServices(p, services));
    }

    lemma RunReadTokens(start: World, before: seq<Step>, p: string, namespaces: set<string>, ecs: States,
        tokens: seq<Token>) returns (steps: seq<Step>)
      requires Possible(start, before)
      requires RoundOf(Run(start, before), p) == NO_ROUND.(phase := ReadingTokens, ecs := ecs)
      requires Lists(tokens, TokensIn(Run(start, before).world, p, namespaces))
      ensures Possible(start, steps) && (Own(before, p) ==> Own(steps, p))
      ensures Run(start, steps).world == Run(start, before).world
      ensures RoundOf(Run(start, steps), p) == NO_ROUND.(phase := ReadingServices, ecs := ecs, tokens := tokens)
    {
      assert [] + tokens == tokens;
      var s := Run(start, before);
      var s1 := WithRound(s, p, NO_ROUND.(phase := ReadingTokens, ecs := ecs, tokens := tokens));
      steps := ExtendTo(start, before, s, ReadTokens(p, namespaces, tokens), s1);
      steps := Extend(start, steps, s1, TokensDone(p));
    }

    lemma ExtendTo(start: World, steps: seq<Step>, s: State, step: Step, s': State) returns (longer: seq<Step>)
      requires Possible(start, steps) && Run(start, steps) == s && Enabled(s, step) && s' == Apply(s, step)
      ensures longer == steps + [step] && Possible(start, longer) && Run(start, longer) == s'
    {
      longer := Extend(start, steps, s, step);
    }

    /** A round of the controller, as Controller.Reconcile specifies it, is a run of
        this machine by that controller's steps alone, with the same outcome: where
        nothing interferes, the machine does what the controller does. */
    lemma ControllerRoundIsRun(start: World, p: string, ok: Oracle, c: Consul, read: Consul, ecs: States,
        tokens: seq<Token>, services: seq<Service>, resources: seq<TaskState>, order: seq<string>,
        tasks: seq<EcsTask>) returns (steps: seq<Step>)
      requires start.tokens == c.tokens && start.services == c.services && forall t :: t in tasks ==> t in start.tasks
      requires RoundReads(ListerOf(p), parse, c, ecs, tokens, services, resources) && Sound(ListerOf(p), tasks, ecs)
      requires Controller.OnlyCalls(c, read) && Lists(order, Namespaces.Wanted(resources) - read.namespaces.Keys)
      ensures Own(steps, p) && Possible(start, steps)
      ensures Agrees(Run(start, steps), Controller.RoundEnd(ok, ListerOf(p), read, order, resources).consul)
    {
      var l := ListerOf(p);
      Controller.NamespacesKeepTokens(ok, l, read, resources, order);
      var c1 := Namespaces.ReconcileNamespaces(ok, l, read, order).consul;
      steps := RunReads(start, p, c, ecs, tokens, services, tasks);
      steps := RunTasks(start, steps, Run(start, steps), p, ok, c1, resources, |resources|);
      assert resources[..|resources|] == resources;
    }

    /** Owners being kept matters, too: if the accessor of a gone task's token, already
        read, comes to belong to a token of a task that ECS did return, that task
        loses its token. */
    lemma ReusedAccessorLosesToken(gone: Token, t: Token, task: EcsTask, absent: TaskID, id: TaskID)
        returns (steps: seq<Step>)
      requires SameToken(gone, t) && absent != id
      requires TokenTask(ListerOf(t.partition), parse, gone) == Some(absent)
      requires TokenTask(ListerOf(t.partition), parse, t) == Some(id) && KeptAs(ListerOf(t.partition), task, id)
      ensures |steps| > 0 && Possible(World({task}, {gone}, {}), steps)
      ensures var before := steps[..|steps| - 1];
        && steps[|steps| - 1] == DeleteToken(t.partition, true)
        && Returned(before, t.partition, id)
        && t in Run(World({task}, {gone}, {}), before).world.tokens
        && t !in Run(World({task}, {gone}, {}), steps).world.tokens
    {
      var p, start := t.partition, World({task}, {gone}, {});
      var ecs: States := map[id := Keep(ListerOf(p), task).value];
      assert Sourced(ListerOf(p), [task], id, ecs[id]);
      steps := RunReadTasks(start, p, ecs, [task]);
      steps := RunReadRest(start, steps, p, {gone.namespace}, ecs, [gone], []);
      AbsentJoined(p, ecs, gone, absent);
      var s := Run(start, steps);
      steps := Extend(start, steps, s, Outside(World({task}, {t}, {})));
      steps := DeleteOne(start, steps, gone, t, absent);
      PossiblePrefix(start, steps, |steps| - 1);
      RunRight(start, steps[..|steps| - 1], p);
    }

    lemma AbsentJoined(p: string, ecs: States, t: Token, id: TaskID)
      requires TokenTask(ListerOf(p), parse, t) == Some(id) && id !in ecs
      ensures var j := Joined(ListerOf(p), parse, ecs, [t], []);
        id in j && !j[id].found && j[id].tokens == [t]
    {
      assert [t][..|[t]| - 1] == [];
      assert TokensOf(ListerOf(p), parse, [t], id) == TokensOf(ListerOf(p), parse, [], id) + [t];
      assert t in [t] && id in TokenTasks(ListerOf(p), parse, [t]);
    }

    lemma DeleteOne(start: World, before: seq<Step>, read: Token, t: Token, id: TaskID) returns (steps: seq<Step>)
      requires Possible(start, before) && SameToken(read, t)
      requires var r := RoundOf(Run(start, before), t.partition);
        r.phase.Cleaning? && r.work.NoWork? && id in r.todo && !r.todo[id].found && r.todo[id].tokens == [read]
      requires Run(start, before).world.tokens == {t}
      ensures |steps| > 0 && Possible(start, steps) && steps[|steps| - 1] == DeleteToken(t.partition, true)
      ensures Run(start, steps).world == Run(start, before).world.(tokens := {})
      ensures Run(start, steps[..|steps| - 1]).world == Run(start, before).world
      ensures RoundOf(Run(start, steps[..|steps| - 1]), t.partition).ecs == RoundOf(Run(start, before), t.partition).ecs
      ensures RoundOf(Run(start, steps[..|steps| - 1]), t.partition).phase.Cleaning?
    {
      var s := Run(start, before);
      var s1 := Apply(s, Reconcile(t.partition, id, true));
      var last := Extend(start, before, s, Reconcile(t.partition, id, true));
      steps := Extend(start, last, s1, DeleteToken(t.partition, true));
      assert steps[..|steps| - 1] == last;
    }
  }
}
