/** What holds over whole runs of health-sync's event loop. */
module HealthSyncRuns {
  import opened Prelude
  import opened TaskMetadata
  import opened HealthChecks
  import opened HealthSync
  import opened HealthSyncCommand

  // Before shutdown

  ghost predicate RunInvariant(managed: set<string>, cfg: Config, start: Sync, l: Loop) {
    l.returned.None? ==>
      && Evolves(managed, start, l.tracker.sync)
      && (!l.shuttingDown ==> Faithful(cfg, l.tracker))
  }

  lemma LoopStepInvariant(ok: Oracle, managed: set<string>, cfg: Config, start: Sync, l: Loop, e: Event)
    requires Covers(managed, cfg) && RunInvariant(managed, cfg, start, l) && l.returned.None?
    ensures RunInvariant(managed, cfg, start, LoopStep(ok, cfg, l, e))
  {
    match e
    case Tick(meta) =>
      if !l.shuttingDown && meta.Some? {
        SyncRoundFaithful(ok, managed, cfg, l.tracker, meta.value);
        EvolvesTransitive(managed, start, l.tracker.sync, SyncRound(ok, cfg, l.tracker, meta.value).sync);
      }
    case Sigterm =>
      CriticalPassEvolves(ok, managed, cfg, l.tracker.sync, SyncedContainers(cfg));
      EvolvesTransitive(managed, start, l.tracker.sync,
        CriticalPass(ok, cfg, l.tracker.sync, SyncedContainers(cfg)).sync);
    case _ =>
  }

  lemma {:induction false} LoopRunInvariant(ok: Oracle, managed: set<string>, cfg: Config, l: Loop, start: Sync,
      events: seq<Event>)
    requires Covers(managed, cfg) && RunInvariant(managed, cfg, start, l)
    ensures RunInvariant(managed, cfg, start, LoopRun(ok, cfg, l, events))
  {
    if events != [] {
      var rest := events[..|events| - 1];
      LoopRunInvariant(ok, managed, cfg, l, start, rest);
      if LoopRun(ok, cfg, l, rest).returned.None? {
        LoopStepInvariant(ok, managed, cfg, start, LoopRun(ok, cfg, l, rest), events[|events| - 1]);
      }
    }
  }

  /** The invariant holds at every point before shutdown, from mesh-init's
      all-critical checks on, whatever fails and whatever comes and goes; and
      until the loop returns nothing but the managed checks' statuses changes. */
  lemma RunFaithful(ok: Oracle, cfg: Config, events: seq<Event>)
    ensures RunInvariant(Managed(cfg), cfg, Start(cfg).sync, LoopRun(ok, cfg, LoopStart(cfg), events))
  {
    StartFaithful(cfg);
    ManagedCovers(cfg);
    LoopRunInvariant(ok, Managed(cfg), cfg, LoopStart(cfg), Start(cfg).sync, events);
  }

  lemma ResyncForgets(cfg: Config, s0: Sync, s: Sync, meta: TaskMeta)
    requires Evolves(Managed(cfg), s0, s)
    ensures Resync(cfg, s, meta) == Resync(cfg, s0, meta)
  {
    forall id | id in s.catalog ensures Resync(cfg, s, meta)[id] == Resync(cfg, s0, meta)[id] {
      assert s.catalog[id].(status := "") == s0.catalog[id].(status := "");
    }
  }

  /** The loop returns when the dataplane is done, and shuts down on SIGTERM and on
      nothing else. */
  lemma LoopFlags(ok: Oracle, cfg: Config, events: seq<Event>)
    ensures FlagsRight(LoopRun(ok, cfg, LoopStart(cfg), events), events)
  {
    FlagsFrom(ok, cfg, LoopStart(cfg), events);
  }

  /** Nothing to do: another Consul server, metadata that cannot be read, and any tick
      once SIGTERM has come. */
  predicate Quiet(before: seq<Event>, e: Event) {
    e.ServerSwitch? || e == Tick(None) || (e.Tick? && Sigterm in before)
  }

  function Effective(events: seq<Event>): seq<Event> {
    if events == [] then []
    else
      var rest, e := events[..|events| - 1], events[|events| - 1];
      Effective(rest) + if Quiet(rest, e) then [] else [e]
  }

  /** Such events change nothing at all: a run is that of the others. */
  lemma QuietEventsIgnored(ok: Oracle, cfg: Config, events: seq<Event>)
    ensures LoopRun(ok, cfg, LoopStart(cfg), events) == LoopRun(ok, cfg, LoopStart(cfg), Effective(events))
  {
    IgnoredFrom(ok, cfg, LoopStart(cfg), events);
  }

  lemma {:induction false} IgnoredFrom(ok: Oracle, cfg: Config, start: Loop, events: seq<Event>)
    requires FlagsRight(start, [])
    ensures LoopRun(ok, cfg, start, events) == LoopRun(ok, cfg, start, Effective(events))
  {
    if events != [] {
      var rest, e := events[..|events| - 1], events[|events| - 1];
      IgnoredFrom(ok, cfg, start, rest);
      if Quiet(rest, e) {
        FlagsFrom(ok, cfg, start, rest);
        QuietStep(ok, cfg, LoopRun(ok, cfg, start, rest), rest, e);
        assert Effective(events) == Effective(rest);
      } else {
        SameNext(ok, cfg, start, rest, Effective(rest), e);
        assert rest + [e] == events;
      }
    }
  }

  lemma QuietStep(ok: Oracle, cfg: Config, l: Loop, before: seq<Event>, e: Event)
    requires Quiet(before, e) && (l.returned.None? ==> (l.shuttingDown <==> Sigterm in before))
    ensures l.returned.None? ==> LoopStep(ok, cfg, l, e) == l
  {
  }

  lemma SameNext(ok: Oracle, cfg: Config, l: Loop, these: seq<Event>, those: seq<Event>, e: Event)
    requires LoopRun(ok, cfg, l, these) == LoopRun(ok, cfg, l, those)
    ensures LoopRun(ok, cfg, l, these + [e]) == LoopRun(ok, cfg, l, those + [e])
  {
    assert (these + [e])[..|these + [e]| - 1] == these && (those + [e])[..|those + [e]| - 1] == those;
  }

  /** Before SIGTERM the remembered statuses are those that the catalog shows. */
  lemma StatusCacheFaithful(ok: Oracle, cfg: Config, events: seq<Event>)
    requires Sigterm !in events && DataplaneDone !in events
    ensures Faithful(cfg, LoopRun(ok, cfg, LoopStart(cfg), events).tracker)
  {
    LoopFlags(ok, cfg, events);
    RunFaithful(ok, cfg, events);
  }

  /** After any history before SIGTERM, whatever failed in it, a round leaves each
      managed check for which it makes no failing call as the metadata says. */
  lemma RoundAfterHistory(ok: Oracle, cfg: Config, events: seq<Event>, meta: TaskMeta, id: string)
    requires Sigterm !in events && DataplaneDone !in events && id in RegisteredIDs(cfg)
    requires OwnCallsSucceed(cfg, LoopRun(ok, cfg, LoopStart(cfg), events).tracker.sync,
      LoopRun(ok, cfg, LoopStart(cfg), events + [Tick(Some(meta))]).tracker.sync, id)
    ensures Shown(LoopRun(ok, cfg, LoopStart(cfg), events + [Tick(Some(meta))]).tracker.sync, id) ==
      if ShouldPass(cfg, meta, id) then PASSING else CRITICAL
  {
    var l := LoopRun(ok, cfg, LoopStart(cfg), events);
    LoopFlags(ok, cfg, events);
    RunFaithful(ok, cfg, events);
    InitialAllCritical(cfg);
    RegisteredManaged(cfg, id);
    LoopRunSnoc(ok, cfg, LoopStart(cfg), events, Tick(Some(meta)));
    RoundShows(ok, cfg, l.tracker, meta, id);
  }

  /** After any history before SIGTERM, one round whose calls all succeed makes
      the whole catalog what a full resync of the initial catalog would have
      made it: a function of the latest metadata alone. */
  lemma CleanRoundForgetsHistory(ok: Oracle, cfg: Config, events: seq<Event>, meta: TaskMeta)
    requires Sigterm !in events && DataplaneDone !in events
    requires Clean(ok, LoopRun(ok, cfg, LoopStart(cfg), events).tracker.sync,
      LoopRun(ok, cfg, LoopStart(cfg), events + [Tick(Some(meta))]).tracker.sync)
    ensures LoopRun(ok, cfg, LoopStart(cfg), events + [Tick(Some(meta))]).tracker.sync.catalog
         == Resync(cfg, Start(cfg).sync, meta)
  {
    var l := LoopRun(ok, cfg, LoopStart(cfg), events);
    LoopFlags(ok, cfg, events);
    RunFaithful(ok, cfg, events);
    InitialAllCritical(cfg);
    LoopRunSnoc(ok, cfg, LoopStart(cfg), events, Tick(Some(meta)));
    CleanRoundIsResync(ok, cfg, l.tracker, meta);
    ResyncForgets(cfg, Start(cfg).sync, l.tracker.sync, meta);
  }

  /** Every check mesh-init registers is one that health-sync writes, so after
      such a round each of them says what the metadata says. */
  lemma RegisteredManaged(cfg: Config, id: string)
    requires id in RegisteredIDs(cfg)
    ensures id in Managed(cfg)
  {
    if cfg.gateway {
      assert RegisteredIDs(cfg) == [ContainerCheckID(cfg, DATAPLANE)];
      ManagedCovers(cfg);
    } else {
      MarkedIsRegistered(cfg);
    }
  }

  // From shutdown on

  /** The calls on leaving, the first of them being the n-th of the run. */
  function Farewell(ok: Oracle, cfg: Config, n: nat): seq<Call> {
    var gone := [Call.Deregister(ServiceID(cfg), ok(n))]
      + if cfg.gateway then [] else [Call.Deregister(ProxyID(cfg), ok(n + 1))];
    gone + if cfg.loginEnabled then [Call.Logout(ok(n + |gone|))] else []
  }

  predicate AllOk(calls: seq<Call>) {
    forall k :: 0 <= k < |calls| ==> calls[k].ok
  }

  lemma FinishTrace(ok: Oracle, cfg: Config, s: Sync)
    ensures var o := Finish(ok, cfg, s);
      && o.sync.trace == s.trace + Farewell(ok, cfg, |s.trace|)
      && o.failed == !AllOk(Farewell(ok, cfg, |s.trace|))
  {
    var bye := Farewell(ok, cfg, |s.trace|);
    assert Finish(ok, cfg, s).sync.trace == s.trace + bye;
    assert AllOk(bye) ==> bye[0].ok && (|bye| > 1 ==> bye[1].ok) && (|bye| > 2 ==> bye[2].ok);
  }

  /** Once shutting down, no tick, server switch or further signal writes a
      passing status or makes a check pass. */
  lemma {:induction false} ShutdownMonotone(ok: Oracle, cfg: Config, l: Loop, events: seq<Event>)
    requires l.shuttingDown && Aligned(l.tracker.sync) && l.returned.None?
    ensures var l' := LoopRun(ok, cfg, l, events);
      && l'.shuttingDown
      && |l.tracker.sync.trace| <= |l'.tracker.sync.trace|
      && OnlyCriticalFrom(l'.tracker.sync.trace, |l.tracker.sync.trace|)
      && (l'.returned.None? ==> Aligned(l'.tracker.sync) && l.tracker.sync.catalog.Keys == l'.tracker.sync.catalog.Keys)
      && (forall id :: id in l'.tracker.sync.catalog ==>
            id in l.tracker.sync.catalog &&
            (Shown(l'.tracker.sync, id) == Shown(l.tracker.sync, id) || Shown(l'.tracker.sync, id) == CRITICAL))
  {
    if events != [] {
      var rest, e := events[..|events| - 1], events[|events| - 1];
      ShutdownMonotone(ok, cfg, l, rest);
      var before := LoopRun(ok, cfg, l, rest);
      if before.returned.None? && e.Sigterm? {
        SecondPass(ok, cfg, before.tracker.sync, |l.tracker.sync.trace|);
      } else if before.returned.None? && e.DataplaneDone? {
        FinishEffect(ok, cfg, before.tracker.sync, |l.tracker.sync.trace|);
      }
    }
  }

  lemma SecondPass(ok: Oracle, cfg: Config, s: Sync, k: nat)
    requires Aligned(s) && k <= |s.trace| && OnlyCriticalFrom(s.trace, k)
    ensures var s' := CriticalPass(ok, cfg, s, SyncedContainers(cfg)).sync;
      && Aligned(s') && k <= |s'.trace| && OnlyCriticalFrom(s'.trace, k) && s'.catalog.Keys == s.catalog.Keys
      && (forall id :: id in s.catalog ==> Shown(s', id) == Shown(s, id) || Shown(s', id) == CRITICAL)
  {
    ManagedCovers(cfg);
    CriticalPassEvolves(ok, Managed(cfg), cfg, s, SyncedContainers(cfg));
    CriticalPassWrites(ok, cfg, s, SyncedContainers(cfg), k);
    forall id | id in s.catalog
      ensures var s' := CriticalPass(ok, cfg, s, SyncedContainers(cfg)).sync;
        Shown(s', id) == Shown(s, id) || Shown(s', id) == CRITICAL
    {
      CriticalPassShows(ok, cfg, s, SyncedContainers(cfg), id);
    }
  }

  lemma FinishEffect(ok: Oracle, cfg: Config, s: Sync, k: nat)
    requires k <= |s.trace| && OnlyCriticalFrom(s.trace, k)
    ensures var s' := Finish(ok, cfg, s).sync;
      && k <= |s'.trace| && OnlyCriticalFrom(s'.trace, k)
      && (forall id :: id in s'.catalog ==> id in s.catalog && s'.catalog[id] == s.catalog[id])
  {
  }

  /** If no call for it failed in the first pass, a check that mesh-init registered
      is critical from then on, until the loop deregisters it and returns. */
  lemma CriticalUntilDeregistered(ok: Oracle, cfg: Config, before: seq<Event>, after: seq<Event>, id: string)
    requires DataplaneDone !in before && id in RegisteredIDs(cfg)
    requires var s := LoopRun(ok, cfg, LoopStart(cfg), before).tracker.sync;
      var pass := CriticalPass(ok, cfg, s, SyncedContainers(cfg));
      !pass.failed || OwnCallsSucceed(cfg, s, pass.sync, id)
    ensures var l' := LoopRun(ok, cfg, LoopRun(ok, cfg, LoopStart(cfg), before + [Sigterm]), after);
      && (l'.returned.None? ==> id in l'.tracker.sync.catalog)
      && (id in l'.tracker.sync.catalog ==> Shown(l'.tracker.sync, id) == CRITICAL)
  {
    var l := LoopRun(ok, cfg, LoopStart(cfg), before);
    LoopFlags(ok, cfg, before);
    RunFaithful(ok, cfg, before);
    RunFaithful(ok, cfg, before + [Sigterm]);
    LoopRunSnoc(ok, cfg, LoopStart(cfg), before, Sigterm);
    RegisteredManaged(cfg, id);
    if CriticalPass(ok, cfg, l.tracker.sync, SyncedContainers(cfg)).failed {
      InitialAllCritical(cfg);
      CriticalPassPerseveres(ok, cfg, l.tracker.sync, id);
    } else {
      CleanCriticalPass(ok, cfg, l.tracker.sync, id);
    }
    ShutdownMonotone(ok, cfg, LoopStep(ok, cfg, l, Sigterm), after);
  }

  lemma RegisteredServices(cfg: Config, id: string)
    requires id in InitialCatalog(cfg)
    ensures InitialCatalog(cfg)[id].serviceID == ServiceID(cfg)
      || (!cfg.gateway && InitialCatalog(cfg)[id].serviceID == ProxyID(cfg))
  {
    if !cfg.gateway { ProxyCheckRegistered(cfg); }
  }

  /** Leaving undoes what mesh-init did: whatever happened in between, if the
      deregistrations at the end succeed, none of the task's checks is left. */
  lemma DepartureLeavesNothing(ok: Oracle, cfg: Config, events: seq<Event>)
    requires DataplaneDone !in events
    requires !DeregisterTask(ok, cfg, LoopRun(ok, cfg, LoopStart(cfg), events).tracker.sync).failed
    ensures LoopRun(ok, cfg, LoopStart(cfg), events + [DataplaneDone]).tracker.sync.catalog == map[]
  {
    var s := LoopRun(ok, cfg, LoopStart(cfg), events).tracker.sync;
    LoopFlags(ok, cfg, events);
    RunFaithful(ok, cfg, events);
    LoopRunSnoc(ok, cfg, LoopStart(cfg), events, DataplaneDone);
    forall id | id in s.catalog
      ensures s.catalog[id].serviceID == ServiceID(cfg) || (!cfg.gateway && s.catalog[id].serviceID == ProxyID(cfg))
    {
      RegisteredServices(cfg, id);
      assert s.catalog[id].(status := "") == InitialCatalog(cfg)[id].(status := "");
    }
  }
}
