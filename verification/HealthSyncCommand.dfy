/** subcommand/health-sync as it runs: the command's methods over its mutable
    checks and the catalog, proved against the functions of HealthSync, and
    its event loop. */
module HealthSyncCommand {
  import opened Prelude
  import opened TaskMetadata
  import opened HealthChecks
  import opened HealthSync

  // Leaving the mesh

  function DeregisterService(ok: Oracle, s: Sync, serviceID: string): Outcome {
    var done := ok(|s.trace|);
    Outcome(
      s.(catalog := if done then WithoutService(s.catalog, serviceID) else s.catalog,
         trace := s.trace + [Deregister(serviceID, done)]),
      !done)
  }

  /** Consul drops a service's checks with the service. */
  function WithoutService(catalog: Checks, serviceID: string): Checks {
    map id | id in catalog && catalog[id].serviceID != serviceID :: catalog[id]
  }

  /** Service and proxy are both attempted, even if the first call fails. */
  function DeregisterTask(ok: Oracle, cfg: Config, s: Sync): Outcome {
    var service := DeregisterService(ok, s, ServiceID(cfg));
    if cfg.gateway then service
    else
      var proxy := DeregisterService(ok, service.sync, ProxyID(cfg));
      Outcome(proxy.sync, service.failed || proxy.failed)
  }

  function LogoutOfConsul(ok: Oracle, s: Sync): Outcome {
    Outcome(s.(trace := s.trace + [Logout(ok(|s.trace|))]), !ok(|s.trace|))
  }

  /** The loop's last case: what it does once the dataplane has stopped. */
  function Finish(ok: Oracle, cfg: Config, s: Sync): Outcome {
    var gone := DeregisterTask(ok, cfg, s);
    if cfg.loginEnabled then
      var out := LogoutOfConsul(ok, gone.sync);
      Outcome(out.sync, gone.failed || out.failed)
    else gone
  }

  // The event loop

  /** What one iteration of the select finds ready. A tick carries the metadata,
      unless reading it failed. */
  datatype Event =
    | Tick(meta: Option<TaskMeta>)
    | ServerSwitch
    | Sigterm
    | DataplaneDone

  datatype Loop = Loop(tracker: Tracker, shuttingDown: bool, returned: Option<bool>)

  function LoopStep(ok: Oracle, cfg: Config, l: Loop, e: Event): Loop {
    match e
    case Tick(meta) =>
      if l.shuttingDown || meta.None? then l else l.(tracker := SyncRound(ok, cfg, l.tracker, meta.value))
    case ServerSwitch => l
    case Sigterm =>
      var pass := CriticalPass(ok, cfg, l.tracker.sync, SyncedContainers(cfg));
      l.(tracker := l.tracker.(sync := pass.sync), shuttingDown := true)
    case DataplaneDone =>
      var end := Finish(ok, cfg, l.tracker.sync);
      l.(tracker := l.tracker.(sync := end.sync), returned := Some(end.failed))
  }

  /** The loop after these events; events after its return are not received. */
  function LoopRun(ok: Oracle, cfg: Config, l: Loop, events: seq<Event>): Loop {
    if events == [] then l
    else
      var before := LoopRun(ok, cfg, l, events[..|events| - 1]);
      if before.returned.Some? then before else LoopStep(ok, cfg, before, events[|events| - 1])
  }

  function LoopStart(cfg: Config): Loop {
    Loop(Start(cfg), false, None)
  }

  lemma LoopRunSnoc(ok: Oracle, cfg: Config, l: Loop, events: seq<Event>, e: Event)
    requires LoopRun(ok, cfg, l, events).returned.None?
    ensures LoopRun(ok, cfg, l, events + [e]) == LoopStep(ok, cfg, LoopRun(ok, cfg, l, events), e)
  {
    var all := events + [e];
    assert all[..|all| - 1] == events && all[|all| - 1] == e;
  }

  // Its flags

  predicate FlagsRight(l: Loop, events: seq<Event>) {
    && (l.returned.Some? <==> DataplaneDone in events)
    && (l.returned.None? ==> (l.shuttingDown <==> Sigterm in events))
  }

  lemma {:induction false} FlagsFrom(ok: Oracle, cfg: Config, start: Loop, events: seq<Event>)
    requires FlagsRight(start, [])
    ensures FlagsRight(LoopRun(ok, cfg, start, events), events)
  {
    if events != [] {
      var rest, e := events[..|events| - 1], events[|events| - 1];
      FlagsFrom(ok, cfg, start, rest);
      FlagsNext(ok, cfg, start, rest, e);
      assert events == rest + [e];
    }
  }

  lemma FlagsNext(ok: Oracle, cfg: Config, start: Loop, events: seq<Event>, e: Event)
    requires FlagsRight(LoopRun(ok, cfg, start, events), events)
    ensures FlagsRight(LoopRun(ok, cfg, start, events + [e]), events + [e])
  {
    var l := LoopRun(ok, cfg, start, events);
    if l.returned.None? {
      LoopRunSnoc(ok, cfg, start, events, e);
      FlagsMove(ok, cfg, l, e);
    } else {
      StaysReturned(ok, cfg, start, events, e);
    }
  }

  lemma StaysReturned(ok: Oracle, cfg: Config, start: Loop, events: seq<Event>, e: Event)
    requires LoopRun(ok, cfg, start, events).returned.Some?
    ensures LoopRun(ok, cfg, start, events + [e]) == LoopRun(ok, cfg, start, events)
  {
    assert (events + [e])[..|events + [e]| - 1] == events;
  }

  lemma FlagsMove(ok: Oracle, cfg: Config, l: Loop, e: Event)
    requires l.returned.None?
    ensures var l' := LoopStep(ok, cfg, l, e);
      && (l'.returned.Some? <==> e.DataplaneDone?) && (l'.shuttingDown <==> l.shuttingDown || e.Sigterm?)
  {
  }

  // The command

  /** The Consul servers as seen through the API client. */
  class ConsulClient {
    const ok: Oracle
    var catalog: Checks
    var trace: seq<Call>

    constructor (ok: Oracle, catalog: Checks)
      ensures this.ok == ok && this.catalog == catalog && trace == []
    {
      this.ok, this.catalog, this.trace := ok, catalog, [];
    }

    method Register(check: HealthCheck) returns (err: bool)
      modifies this
      ensures err == !ok(|old(trace)|)
      ensures trace == old(trace) + [Call.Register(check.checkID, check.status, !err)]
      ensures catalog == if err then old(catalog) else old(catalog)[check.checkID := check]
    {
      err := !ok(|trace|);
      trace := trace + [Call.Register(check.checkID, check.status, !err)];
      if !err { catalog := catalog[check.checkID := check]; }
    }

    method Deregister(serviceID: string) returns (err: bool)
      modifies this
      ensures err == !ok(|old(trace)|)
      ensures trace == old(trace) + [Call.Deregister(serviceID, !err)]
      ensures catalog == if err then old(catalog) else WithoutService(old(catalog), serviceID)
    {
      err := !ok(|trace|);
      trace := trace + [Call.Deregister(serviceID, !err)];
      if !err { catalog := WithoutService(catalog, serviceID); }
    }

    method Logout() returns (err: bool)
      modifies this
      ensures err == !ok(|old(trace)|)
      ensures trace == old(trace) + [Call.Logout(!err)] && catalog == old(catalog)
    {
      err := !ok(|trace|);
      trace := trace + [Call.Logout(!err)];
    }
  }

  /** findContainersToSync. */
  method FindContainersToSync(names: seq<string>, meta: TaskMeta) returns (found: seq<Container>, missing: seq<string>)
    ensures found == Present(ByName(meta.containers), names)
    ensures missing == Missing(ByName(meta.containers), names)
  {
    found, missing := [], [];
    ghost var known := ByName(meta.containers);
    for i := 0 to |names|
      invariant found == Present(known, names[..i]) && missing == Missing(known, names[..i])
    {
      var j := 0;
      while j < |meta.containers| && meta.containers[j].name != names[i]
        invariant j <= |meta.containers|
        invariant forall k :: 0 <= k < j ==> meta.containers[k].name != names[i]
      {
        j := j + 1;
      }
      ByNameFinds(meta.containers, names[i], j);
      assert names[..i + 1][..i] == names[..i];
      if j < |meta.containers| {
        found := found + [meta.containers[j]];
      } else {
        missing := missing + [names[i]];
      }
    }
    assert names[..|names|] == names;
  }

  class Command {
    const cfg: Config
    const consul: ConsulClient
    var checks: Checks

    constructor (cfg: Config, consul: ConsulClient, checks: Checks)
      ensures this.cfg == cfg && this.consul == consul && this.checks == checks
    {
      this.cfg, this.consul, this.checks := cfg, consul, checks;
    }

    function State(): Sync
      reads this, consul
    {
      Sync(checks, consul.catalog, consul.trace)
    }

    /** The own copy and the catalog key every check by its own ID. */
    ghost predicate Valid()
      reads this
    {
      forall id :: id in checks ==> checks[id].checkID == id
    }

    method UpdateConsulHealthStatus(checkID: string, ecsHealth: string) returns (err: bool)
      requires Valid()
      modifies this`checks, consul
      ensures Valid() && Outcome(State(), err) == Update(consul.ok, old(State()), checkID, ecsHealth)
    {
      if checkID !in checks { return true; }
      var check := checks[checkID].(status := ConsulStatus(ecsHealth));
      checks := checks[checkID := check];
      err := consul.Register(check);
    }

    method HandleHealthForDataplaneContainer(ecsHealth: string) returns (err: bool)
      requires Valid()
      modifies this`checks, consul
      ensures Valid() && Outcome(State(), err) == UpdateAll(consul.ok, old(State()), DataplaneCheckIDs(cfg), ecsHealth)
    {
      var ids := DataplaneCheckIDs(cfg);
      ghost var first := Update(consul.ok, State(), ids[0], ecsHealth);
      err := UpdateConsulHealthStatus(ids[0], ecsHealth);
      if cfg.gateway || err {
        assert cfg.gateway ==> ids[1..] == [];
        return;
      }
      ghost var second := Update(consul.ok, first.sync, ids[1], ecsHealth);
      assert UpdateAll(consul.ok, first.sync, ids[1..], ecsHealth) == second by {
        assert ids[1..][1..] == [];
        assert UpdateAll(consul.ok, second.sync, ids[1..][1..], ecsHealth) == Outcome(second.sync, false);
      }
      err := UpdateConsulHealthStatus(ids[1], ecsHealth);
    }

    method UpdateStatusOf(name: string, ecsHealth: string) returns (err: bool)
      requires Valid()
      modifies this`checks, consul
      ensures Valid() && Outcome(State(), err) == UpdateContainer(consul.ok, cfg, old(State()), name, ecsHealth)
    {
      if name == DATAPLANE {
        err := HandleHealthForDataplaneContainer(ecsHealth);
      } else {
        err := UpdateConsulHealthStatus(ContainerCheckID(cfg, name), ecsHealth);
      }
    }

    method SetChecksCritical(names: seq<string>) returns (err: bool)
      requires Valid()
      modifies this`checks, consul
      ensures Valid() && Outcome(State(), err) == CriticalPass(consul.ok, cfg, old(State()), names)
    {
      err := false;
      for i := 0 to |names|
        invariant Valid() && Outcome(State(), err) == CriticalPass(consul.ok, cfg, old(State()), names[..i])
      {
        assert names[..i + 1][..i] == names[..i];
        var e := UpdateStatusOf(names[i], UNHEALTHY);
        err := err || e;
      }
      assert names[..|names|] == names;
    }

    method MarkMissingContainers(cache: Cache, missing: seq<string>) returns (statuses: Cache)
      requires Valid()
      modifies this`checks, consul
      ensures Valid() && Tracker(State(), statuses) == MarkMissing(consul.ok, cfg, Tracker(old(State()), cache),
        missing)
    {
      statuses := cache;
      for i := 0 to |missing|
        invariant Valid()
        invariant Tracker(State(), statuses) == MarkMissing(consul.ok, cfg, Tracker(old(State()), cache), missing[..i])
      {
        assert missing[..i + 1][..i] == missing[..i];
        var err := UpdateStatusOf(missing[i], UNHEALTHY);
        if !err { statuses := statuses[missing[i] := CRITICAL]; }
      }
      assert missing[..|missing|] == missing;
    }

    method SyncFoundContainers(cache: Cache, found: seq<Container>)
        returns (statuses: Cache, parsed: map<string, string>)
      requires Valid()
      modifies this`checks, consul
      ensures Valid() && Tracker(State(), statuses) == SyncFound(consul.ok, cfg, Tracker(old(State()), cache), found)
      ensures Parsed(found, parsed)
    {
      statuses, parsed := cache, map[];
      for i := 0 to |found|
        invariant Valid()
        invariant Tracker(State(), statuses) == SyncFound(consul.ok, cfg, Tracker(old(State()), cache), found[..i])
        invariant Parsed(found[..i], parsed)
      {
        var c := found[i];
        ghost var before := Tracker(State(), statuses);
        assert found[..i + 1][..i] == found[..i];
        ParsedSnoc(found, i, parsed);
        parsed := parsed[c.name := c.health];
        if c.health != Cached(statuses, c.name) {
          var err := false;
          if c.name != DATAPLANE {
            err := UpdateConsulHealthStatus(ContainerCheckID(cfg, c.name), c.health);
          }
          if !err { statuses := statuses[c.name := c.health]; }
        }
        assert Tracker(State(), statuses) == FoundStep(consul.ok, cfg, before, c);
      }
      assert found[..|found|] == found;
    }

    /** The dataplane shows the health of the whole task. */
    method OverallHealth(parsed: map<string, string>) returns (overall: string)
      ensures overall ==
        if DATAPLANE in parsed && forall n :: n in parsed ==> parsed[n] == HEALTHY then HEALTHY else UNHEALTHY
    {
      if DATAPLANE !in parsed || parsed[DATAPLANE] != HEALTHY { return UNHEALTHY; }
      var rest := parsed.Keys;
      while rest != {}
        invariant rest <= parsed.Keys
        invariant forall n :: n in parsed && n !in rest ==> parsed[n] == HEALTHY
      {
        var n :| n in rest;
        if parsed[n] != HEALTHY { return UNHEALTHY; }
        rest := rest - {n};
      }
      return HEALTHY;
    }

    /** syncChecks; the metadata is None if it could not be read. */
    method SyncChecks(currentStatuses: Cache, taskMeta: Option<TaskMeta>) returns (statuses: Cache)
      requires Valid()
      modifies this`checks, consul
      ensures Valid()
      ensures Tracker(State(), statuses) ==
        if taskMeta.None? then Tracker(old(State()), currentStatuses)
        else SyncRound(consul.ok, cfg, Tracker(old(State()), currentStatuses), taskMeta.value)
    {
      if taskMeta.None? { return currentStatuses; }
      var meta := taskMeta.value;
      var found, missing := FindContainersToSync(SyncedContainers(cfg), meta);
      statuses := MarkMissingContainers(currentStatuses, missing);
      var parsed;
      statuses, parsed := SyncFoundContainers(statuses, found);

      var overall := OverallHealth(parsed);
      assert overall == DataplaneHealth(cfg, meta) by {
        ByNameWellNamed(meta.containers);
        ParsedMeansHealthy(cfg, meta, found, parsed);
      }
      var _ := HandleHealthForDataplaneContainer(overall);
    }

    method DeregisterServices() returns (err: bool)
      modifies consul
      ensures Outcome(State(), err) == DeregisterTask(consul.ok, cfg, old(State()))
    {
      err := consul.Deregister(ServiceID(cfg));
      if !cfg.gateway {
        var e := consul.Deregister(ProxyID(cfg));
        err := err || e;
      }
    }

    /** realRun, from the reconciliation loop on, on the events it receives. It
        returns an error flag once the dataplane is done. */
    method RealRun(events: seq<Event>) returns (shuttingDown: bool, statuses: Cache, returned: Option<bool>)
      requires Valid()
      modifies this`checks, consul
      ensures Loop(Tracker(State(), statuses), shuttingDown, returned) ==
        LoopRun(consul.ok, cfg, Loop(Tracker(old(State()), map[]), false, None), events)
      ensures returned.Some? <==> DataplaneDone in events
      ensures returned.None? ==> (shuttingDown <==> Sigterm in events)
    {
      FlagsFrom(consul.ok, cfg, Loop(Tracker(State(), map[]), false, None), events);
      shuttingDown, statuses, returned := false, map[], None;
      ghost var start := Loop(Tracker(State(), map[]), false, None);
      for i := 0 to |events|
        invariant Valid() && returned.None?
        invariant Loop(Tracker(State(), statuses), shuttingDown, None) == LoopRun(consul.ok, cfg, start, events[..i])
      {
        assert events[..i + 1][..i] == events[..i];
        match events[i]
        case Tick(meta) =>
          if !shuttingDown { statuses := SyncChecks(statuses, meta); }
        case ServerSwitch =>
        case Sigterm =>
          shuttingDown := true;
          var _ := SetChecksCritical(SyncedContainers(cfg));
        case DataplaneDone =>
          var err := DeregisterServices();
          if cfg.loginEnabled {
            var e := consul.Logout();
            err := err || e;
          }
          returned := Some(err);
          ReturnedStays(consul.ok, cfg, start, events, i + 1);
          return;
      }
      assert events[..|events|] == events;
    }
  }

  /** The health of the containers found, by name. */
  predicate Parsed(found: seq<Container>, parsed: map<string, string>) {
    && (forall c :: c in found ==> c.name in parsed)
    && (forall n :: n in parsed ==> exists c :: c in found && c.name == n && c.health == parsed[n])
  }

  lemma ParsedSnoc(found: seq<Container>, i: nat, parsed: map<string, string>)
    requires i < |found| && Parsed(found[..i], parsed)
    ensures Parsed(found[..i + 1], parsed[found[i].name := found[i].health])
  {
    var c, longer := found[i], parsed[found[i].name := found[i].health];
    assert found[..i + 1] == found[..i] + [c];
    forall n | n in longer ensures exists c :: c in found[..i + 1] && c.name == n && c.health == longer[n] {
      if n == c.name {
        assert c in found[..i + 1];
      } else {
        var d :| d in found[..i] && d.name == n && d.health == parsed[n];
        assert d in found[..i + 1];
      }
    }
  }

  lemma ParsedMeansHealthy(cfg: Config, meta: TaskMeta, found: seq<Container>, parsed: map<string, string>)
    requires WellNamed(ByName(meta.containers)) && found == Present(ByName(meta.containers), SyncedContainers(cfg))
    requires Parsed(found, parsed)
    ensures TaskHealthy(cfg, meta) <==> DATAPLANE in parsed && forall n :: n in parsed ==> parsed[n] == HEALTHY
  {
    var known := ByName(meta.containers);
    forall n ensures n in parsed <==> n in SyncedContainers(cfg) && n in known {
      if n in SyncedContainers(cfg) && n in known { assert known[n] in found; }
    }
    assert forall n :: n in parsed ==> parsed[n] == known[n].health;
    assert DATAPLANE in SyncedContainers(cfg);
  }

  lemma {:induction false} ReturnedStays(ok: Oracle, cfg: Config, l: Loop, events: seq<Event>, i: nat)
    requires i <= |events| && LoopRun(ok, cfg, l, events[..i]).returned.Some?
    ensures LoopRun(ok, cfg, l, events) == LoopRun(ok, cfg, l, events[..i])
    decreases |events|
  {
    if i < |events| {
      var rest := events[..|events| - 1];
      assert rest[..i] == events[..i];
      ReturnedStays(ok, cfg, l, rest, i);
    } else {
      assert events[..i] == events;
    }
  }
}
