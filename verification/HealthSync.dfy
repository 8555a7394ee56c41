/** subcommand/health-sync/checks.go on values: what one call, one round and
    one shutdown pass do to health-sync's own checks, to the catalog and to
    the remembered statuses. Every Consul call may fail; an oracle says
    whether the k-th call of a run succeeds. */
module HealthSync {
  import opened Prelude
  import opened TaskMetadata
  import opened HealthChecks

  datatype Call =
    | Register(checkID: string, status: string, ok: bool)
    | Deregister(serviceID: string, ok: bool)
    | Logout(ok: bool)

  /** checks is health-sync's own copy (c.checks); trace lists the calls made. */
  datatype Sync = Sync(checks: Checks, catalog: Checks, trace: seq<Call>)

  datatype Outcome = Outcome(sync: Sync, failed: bool)

  /** The statuses remembered from round to round (currentStatuses). */
  type Cache = map<string, string>

  datatype Tracker = Tracker(sync: Sync, cache: Cache)

  function Cached(cache: Cache, name: string): string {
    if name in cache then cache[name] else ""
  }

  function ConsulStatus(ecsHealth: string): string {
    if ecsHealth != HEALTHY then CRITICAL else PASSING
  }

  /** The status the catalog shows for a check. */
  function Shown(s: Sync, id: string): string {
    if id in s.catalog then s.catalog[id].status else ""
  }

  // Writing one status

  /** updateConsulHealthStatus. The own copy changes even if the call fails. */
  function Update(ok: Oracle, s: Sync, id: string, ecsHealth: string): Outcome {
    if id !in s.checks then Outcome(s, true)
    else
      var check := s.checks[id].(status := ConsulStatus(ecsHealth));
      var done := ok(|s.trace|);
      Outcome(
        Sync(s.checks[id := check],
             if done then s.catalog[id := check] else s.catalog,
             s.trace + [Register(id, check.status, done)]),
        !done)
  }

  /** The checks in order, giving up at the first failure. */
  function UpdateAll(ok: Oracle, s: Sync, ids: seq<string>, ecsHealth: string): Outcome
    decreases |ids|
  {
    if ids == [] then Outcome(s, false)
    else
      var first := Update(ok, s, ids[0], ecsHealth);
      if first.failed then first else UpdateAll(ok, first.sync, ids[1..], ecsHealth)
  }

  function UpdateContainer(ok: Oracle, cfg: Config, s: Sync, name: string, ecsHealth: string): Outcome {
    if name == DATAPLANE then UpdateAll(ok, s, DataplaneCheckIDs(cfg), ecsHealth)
    else Update(ok, s, ContainerCheckID(cfg, name), ecsHealth)
  }

  // One round

  /** The containers and the names that findContainersToSync returns, from the
      metadata's containers by name. */
  function Present(known: map<string, Container>, names: seq<string>): (found: seq<Container>)
    ensures forall n :: n in names && n in known ==> known[n] in found
    ensures forall c :: c in found ==> exists n :: n in names && n in known && c == known[n]
  {
    if names == [] then []
    else
      var rest, last := names[..|names| - 1], names[|names| - 1];
      assert names == rest + [last];
      Present(known, rest) + if last in known then [known[last]] else []
  }

  function Missing(known: map<string, Container>, names: seq<string>): (missing: seq<string>)
    ensures forall n :: n in missing <==> n in names && n !in known
  {
    if names == [] then []
    else
      var rest, last := names[..|names| - 1], names[|names| - 1];
      assert names == rest + [last];
      Missing(known, rest) + if last in known then [] else [last]
  }

  function MissingStep(ok: Oracle, cfg: Config, t: Tracker, name: string): Tracker {
    var o := UpdateContainer(ok, cfg, t.sync, name, UNHEALTHY);
    // Consul's word for critical is remembered, which is no ECS status.
    Tracker(o.sync, if o.failed then t.cache else t.cache[name := CRITICAL])
  }

  function MarkMissing(ok: Oracle, cfg: Config, t: Tracker, names: seq<string>): Tracker {
    if names == [] then t
    else MissingStep(ok, cfg, MarkMissing(ok, cfg, t, names[..|names| - 1]), names[|names| - 1])
  }

  function FoundStep(ok: Oracle, cfg: Config, t: Tracker, c: Container): Tracker {
    if c.health == Cached(t.cache, c.name) then t
    else if c.name == DATAPLANE then t.(cache := t.cache[c.name := c.health])
    else
      var o := Update(ok, t.sync, ContainerCheckID(cfg, c.name), c.health);
      Tracker(o.sync, if o.failed then t.cache else t.cache[c.name := c.health])
  }

  function SyncFound(ok: Oracle, cfg: Config, t: Tracker, found: seq<Container>): Tracker {
    if found == [] then t
    else FoundStep(ok, cfg, SyncFound(ok, cfg, t, found[..|found| - 1]), found[|found| - 1])
  }

  /** The dataplane is there, and it and every other present container are healthy. */
  predicate TaskHealthy(cfg: Config, meta: TaskMeta) {
    var known := ByName(meta.containers);
    && DATAPLANE in known
    && forall n :: n in SyncedContainers(cfg) && n in known ==> known[n].health == HEALTHY
  }

  function DataplaneHealth(cfg: Config, meta: TaskMeta): string {
    if TaskHealthy(cfg, meta) then HEALTHY else UNHEALTHY
  }

  function ContainersDone(ok: Oracle, cfg: Config, t: Tracker, known: map<string, Container>): Tracker {
    var names := SyncedContainers(cfg);
    SyncFound(ok, cfg, MarkMissing(ok, cfg, t, Missing(known, names)), Present(known, names))
  }

  /** syncChecks, once the metadata has been read. */
  function SyncRound(ok: Oracle, cfg: Config, t: Tracker, meta: TaskMeta): Tracker {
    var t' := ContainersDone(ok, cfg, t, ByName(meta.containers));
    t'.(sync := UpdateAll(ok, t'.sync, DataplaneCheckIDs(cfg), DataplaneHealth(cfg, meta)).sync)
  }

  /** setChecksCritical: every container is tried, whatever failed before. */
  function CriticalPass(ok: Oracle, cfg: Config, s: Sync, names: seq<string>): Outcome {
    if names == [] then Outcome(s, false)
    else
      var before := CriticalPass(ok, cfg, s, names[..|names| - 1]);
      var o := UpdateContainer(ok, cfg, before.sync, names[|names| - 1], UNHEALTHY);
      Outcome(o.sync, before.failed || o.failed)
  }

  // What every write keeps

  /** The own copy and the catalog describe the same checks. */
  predicate Aligned(s: Sync) {
    && s.checks.Keys <= s.catalog.Keys
    && (forall id :: id in s.checks ==> s.checks[id].(status := "") == s.catalog[id].(status := ""))
  }

  /** From s to s' only the statuses of the managed checks may change. */
  predicate Evolves(managed: set<string>, s: Sync, s': Sync) {
    && s.trace <= s'.trace
    && s'.checks.Keys == s.checks.Keys && s'.catalog.Keys == s.catalog.Keys
    && Aligned(s')
    && (forall id :: id in s.catalog ==> s'.catalog[id].(status := "") == s.catalog[id].(status := ""))
    && (forall id :: id in s.catalog && !(id in s.checks && id in managed) ==> s'.catalog[id] == s.catalog[id])
  }

  function Managed(cfg: Config): set<string> {
    set id | id in MarkedIDs(cfg)
  }

  /** The managed checks contain everything that a round or a pass writes. */
  predicate Covers(managed: set<string>, cfg: Config) {
    && (forall n :: n in SyncedContainers(cfg) ==> ContainerCheckID(cfg, n) in managed)
    && (forall id :: id in DataplaneCheckIDs(cfg) ==> id in managed)
  }

  lemma ManagedCovers(cfg: Config)
    ensures Covers(Managed(cfg), cfg)
    ensures forall id :: id in Managed(cfg) && id !in DataplaneCheckIDs(cfg) ==>
              exists n :: n in SyncedContainers(cfg) && id == ContainerCheckID(cfg, n)
  {
    var names, ids := cfg.healthSyncContainers, MarkedIDs(cfg);
    assert forall i :: 0 <= i < |names| ==> ids[i] == ContainerCheckID(cfg, names[i]);
    assert forall j :: 0 <= j < |DataplaneCheckIDs(cfg)| ==> ids[|names| + j] == DataplaneCheckIDs(cfg)[j];
    assert DataplaneCheckIDs(cfg)[0] == ContainerCheckID(cfg, DATAPLANE);
    forall n | n in names ensures ContainerCheckID(cfg, n) in ids {
      var i :| 0 <= i < |names| && names[i] == n;
      assert ids[i] == ContainerCheckID(cfg, n);
    }
    forall id | id in ids && id !in DataplaneCheckIDs(cfg)
      ensures exists n :: n in SyncedContainers(cfg) && id == ContainerCheckID(cfg, n)
    {
      var i :| 0 <= i < |names| && ids[i] == id;
      assert names[i] in SyncedContainers(cfg);
    }
  }

  lemma UpdateEvolves(ok: Oracle, managed: set<string>, s: Sync, id: string, ecsHealth: string)
    requires Aligned(s) && id in managed
    ensures var o := Update(ok, s, id, ecsHealth);
      && Evolves(managed, s, o.sync)
      && (o.failed <==> id !in s.checks || !ok(|s.trace|))
      && (forall k :: k in s.catalog && (k != id || o.failed) ==> o.sync.catalog[k] == s.catalog[k])
      && (!o.failed ==> Shown(o.sync, id) == ConsulStatus(ecsHealth))
      // The own copy is changed before the call, and stays so if it fails.
      && (id in s.checks ==>
            && o.sync.checks[id].status == ConsulStatus(ecsHealth)
            && o.sync.trace == s.trace + [Register(id, ConsulStatus(ecsHealth), ok(|s.trace|))])
  {
  }

  lemma {:induction false} UpdateAllEvolves(ok: Oracle, managed: set<string>, s: Sync, ids: seq<string>,
      ecsHealth: string)
    requires Aligned(s) && forall id :: id in ids ==> id in managed
    ensures Evolves(managed, s, UpdateAll(ok, s, ids, ecsHealth).sync)
    decreases |ids|
  {
    if ids != [] {
      UpdateEvolves(ok, managed, s, ids[0], ecsHealth);
      var first := Update(ok, s, ids[0], ecsHealth);
      if !first.failed {
        UpdateAllEvolves(ok, managed, first.sync, ids[1..], ecsHealth);
      }
    }
  }

  /** Only the given checks change, and only to the given status. */
  lemma {:induction false} UpdateAllShows(ok: Oracle, s: Sync, ids: seq<string>, ecsHealth: string, k: string)
    requires Aligned(s) && k in s.catalog
    ensures var s' := UpdateAll(ok, s, ids, ecsHealth).sync;
      && Aligned(s') && k in s'.catalog
      && (k !in ids ==> s'.catalog[k] == s.catalog[k])
      && (Shown(s', k) == Shown(s, k) || Shown(s', k) == ConsulStatus(ecsHealth))
    decreases |ids|
  {
    if ids != [] {
      UpdateEvolves(ok, {ids[0]}, s, ids[0], ecsHealth);
      var first := Update(ok, s, ids[0], ecsHealth);
      if !first.failed {
        UpdateAllShows(ok, first.sync, ids[1..], ecsHealth, k);
        assert ids == [ids[0]] + ids[1..];
      }
    }
  }

  lemma {:induction false} UpdateAllDone(ok: Oracle, s: Sync, ids: seq<string>, ecsHealth: string, k: string)
    requires Aligned(s) && k in ids && !UpdateAll(ok, s, ids, ecsHealth).failed
    ensures k in s.checks && Shown(UpdateAll(ok, s, ids, ecsHealth).sync, k) == ConsulStatus(ecsHealth)
    decreases |ids|
  {
    UpdateEvolves(ok, {ids[0]}, s, ids[0], ecsHealth);
    var first := Update(ok, s, ids[0], ecsHealth);
    assert ids == [ids[0]] + ids[1..];
    if k in ids[1..] {
      UpdateAllDone(ok, first.sync, ids[1..], ecsHealth, k);
    } else {
      UpdateAllShows(ok, first.sync, ids[1..], ecsHealth, k);
    }
  }

  lemma {:induction false} UpdateAllGrows(ok: Oracle, s: Sync, ids: seq<string>, ecsHealth: string)
    ensures s.trace <= UpdateAll(ok, s, ids, ecsHealth).sync.trace
    decreases |ids|
  {
    if ids != [] {
      var first := Update(ok, s, ids[0], ecsHealth);
      if !first.failed { UpdateAllGrows(ok, first.sync, ids[1..], ecsHealth); }
    }
  }

  /** Its calls: for the checks in order, up to the first that fails. */
  lemma {:induction false} UpdateAllCalls(ok: Oracle, s: Sync, ids: seq<string>, ecsHealth: string) returns (n: nat)
    ensures n <= |ids|
    ensures var o := UpdateAll(ok, s, ids, ecsHealth);
      && |o.sync.trace| == |s.trace| + n && s.trace <= o.sync.trace
      && (forall j :: 0 <= j < n ==>
            o.sync.trace[|s.trace| + j] == Register(ids[j], ConsulStatus(ecsHealth), ok(|s.trace| + j)))
      && (n > 0 ==> AllSucceeded(ok, |s.trace|, |s.trace| + n - 1))
      && (!o.failed <==> n == |ids| && AllSucceeded(ok, |s.trace|, |s.trace| + n))
      && (o.failed && n < |ids| ==> (n > 0 && !ok(|s.trace| + n - 1)) || ids[n] !in s.checks)
    decreases |ids|
  {
    n := 0;
    if ids != [] && ids[0] in s.checks {
      var first := Update(ok, s, ids[0], ecsHealth);
      if first.failed { return 1; }
      var m := UpdateAllCalls(ok, first.sync, ids[1..], ecsHealth);
      n := m + 1;
    }
  }

  // Calls for one check

  /** No call for this check failed from there on. */
  predicate NoneFailed(trace: seq<Call>, from: nat, id: string) {
    forall k :: from <= k < |trace| && trace[k].Register? && trace[k].checkID == id ==> trace[k].ok
  }

  /** Nor, if that comes first, one for the service's dataplane check. */
  predicate OwnCallsSucceed(cfg: Config, s: Sync, s': Sync, id: string) {
    && NoneFailed(s'.trace, |s.trace|, id)
    && (id in DataplaneCheckIDs(cfg) ==> NoneFailed(s'.trace, |s.trace|, DataplaneCheckIDs(cfg)[0]))
  }

  lemma NoneFailedPart(a: seq<Call>, b: seq<Call>, from: nat, later: nat, id: string)
    requires a <= b && from <= later && NoneFailed(b, from, id)
    ensures NoneFailed(a, from, id) && NoneFailed(b, later, id)
  {
  }

  lemma UpdateOwn(ok: Oracle, s: Sync, id: string, ecsHealth: string, end: seq<Call>)
    requires Aligned(s) && id in s.checks && Update(ok, s, id, ecsHealth).sync.trace <= end
    requires NoneFailed(end, |s.trace|, id)
    ensures !Update(ok, s, id, ecsHealth).failed
  {
    assert end[|s.trace|] == Register(id, ConsulStatus(ecsHealth), ok(|s.trace|));
  }

  /** If no call for the first i + 1 checks failed, the i-th shows the status. */
  lemma {:induction false} UpdateAllOwn(ok: Oracle, s: Sync, ids: seq<string>, ecsHealth: string, i: nat)
    requires Aligned(s) && i < |ids|
    requires forall j :: 0 <= j <= i ==> ids[j] in s.checks
    requires forall j :: 0 <= j <= i ==> NoneFailed(UpdateAll(ok, s, ids, ecsHealth).sync.trace, |s.trace|, ids[j])
    ensures Shown(UpdateAll(ok, s, ids, ecsHealth).sync, ids[i]) == ConsulStatus(ecsHealth)
    decreases |ids|
  {
    var first, end := Update(ok, s, ids[0], ecsHealth), UpdateAll(ok, s, ids, ecsHealth).sync.trace;
    UpdateAllGrows(ok, first.sync, ids[1..], ecsHealth);
    UpdateOwn(ok, s, ids[0], ecsHealth, end);
    UpdateEvolves(ok, {ids[0]}, s, ids[0], ecsHealth);
    if i == 0 {
      UpdateAllShows(ok, first.sync, ids[1..], ecsHealth, ids[0]);
    } else {
      UpdateAllOwn(ok, first.sync, ids[1..], ecsHealth, i - 1);
    }
  }

  // The status-cache invariant

  /** The container has a check of its own that only its own status decides. */
  predicate Tracked(cfg: Config, s: Sync, name: string) {
    ContainerCheckID(cfg, name) in s.checks && ContainerCheckID(cfg, name) !in DataplaneCheckIDs(cfg)
  }

  /** The catalog shows, for each such container, what its remembered status
      converts to; a container without one counts as not healthy. */
  ghost predicate Faithful(cfg: Config, t: Tracker) {
    && Aligned(t.sync)
    && forall name :: Tracked(cfg, t.sync, name) ==>
         Shown(t.sync, ContainerCheckID(cfg, name)) == ConsulStatus(Cached(t.cache, name))
  }

  /** Both kinds of update keep it: the catalog and the cache change together
      for this container and for no other. */
  lemma UpdateFaithful(ok: Oracle, managed: set<string>, cfg: Config, t: Tracker, name: string, ecsHealth: string,
      remembered: string)
    requires Faithful(cfg, t) && Covers(managed, cfg) && name in SyncedContainers(cfg)
    requires name != DATAPLANE ==> ConsulStatus(remembered) == ConsulStatus(ecsHealth)
    ensures var o := UpdateContainer(ok, cfg, t.sync, name, ecsHealth);
      var t' := Tracker(o.sync, if o.failed then t.cache else t.cache[name := remembered]);
      Faithful(cfg, t') && Evolves(managed, t.sync, t'.sync)
  {
    var o := UpdateContainer(ok, cfg, t.sync, name, ecsHealth);
    var t' := Tracker(o.sync, if o.failed then t.cache else t.cache[name := remembered]);
    if name == DATAPLANE {
      UpdateAllEvolves(ok, managed, t.sync, DataplaneCheckIDs(cfg), ecsHealth);
      forall n | Tracked(cfg, t'.sync, n)
        ensures Shown(t'.sync, ContainerCheckID(cfg, n)) == ConsulStatus(Cached(t'.cache, n))
      {
        UpdateAllShows(ok, t.sync, DataplaneCheckIDs(cfg), ecsHealth, ContainerCheckID(cfg, n));
        assert DataplaneCheckIDs(cfg)[0] == ContainerCheckID(cfg, DATAPLANE);
      }
    } else {
      UpdateEvolves(ok, managed, t.sync, ContainerCheckID(cfg, name), ecsHealth);
    }
  }

  lemma FoundStepFaithful(ok: Oracle, managed: set<string>, cfg: Config, t: Tracker, c: Container)
    requires Faithful(cfg, t) && Covers(managed, cfg) && c.name in SyncedContainers(cfg)
    ensures var t' := FoundStep(ok, cfg, t, c); Faithful(cfg, t') && Evolves(managed, t.sync, t'.sync)
  {
    if c.name != DATAPLANE {
      UpdateFaithful(ok, managed, cfg, t, c.name, c.health, c.health);
    } else {
      assert DataplaneCheckIDs(cfg)[0] == ContainerCheckID(cfg, DATAPLANE);
    }
  }

  lemma {:induction false} MarkMissingFaithful(ok: Oracle, managed: set<string>, cfg: Config, t: Tracker,
      names: seq<string>)
    requires Faithful(cfg, t) && Covers(managed, cfg)
    requires forall n :: n in names ==> n in SyncedContainers(cfg)
    ensures var t' := MarkMissing(ok, cfg, t, names); Faithful(cfg, t') && Evolves(managed, t.sync, t'.sync)
  {
    if names != [] {
      var rest := names[..|names| - 1];
      MarkMissingFaithful(ok, managed, cfg, t, rest);
      UpdateFaithful(ok, managed, cfg, MarkMissing(ok, cfg, t, rest), names[|names| - 1], UNHEALTHY, CRITICAL);
    }
  }

  lemma {:induction false} SyncFoundFaithful(ok: Oracle, managed: set<string>, cfg: Config, t: Tracker,
      found: seq<Container>)
    requires Faithful(cfg, t) && Covers(managed, cfg)
    requires forall c :: c in found ==> c.name in SyncedContainers(cfg)
    ensures var t' := SyncFound(ok, cfg, t, found); Faithful(cfg, t') && Evolves(managed, t.sync, t'.sync)
  {
    if found != [] {
      var rest := found[..|found| - 1];
      SyncFoundFaithful(ok, managed, cfg, t, rest);
      FoundStepFaithful(ok, managed, cfg, SyncFound(ok, cfg, t, rest), found[|found| - 1]);
    }
  }

  /** The names that lead to a container are the container's own. */
  predicate WellNamed(known: map<string, Container>) {
    forall n :: n in known ==> known[n].name == n
  }

  lemma {:induction false} ByNameWellNamed(containers: seq<Container>)
    ensures WellNamed(ByName(containers))
  {
    if containers != [] { ByNameWellNamed(containers[1..]); }
  }

  lemma ContainersDoneFaithful(ok: Oracle, managed: set<string>, cfg: Config, t: Tracker, known: map<string, Container>)
    requires Faithful(cfg, t) && Covers(managed, cfg) && WellNamed(known)
    ensures var t' := ContainersDone(ok, cfg, t, known); Faithful(cfg, t') && Evolves(managed, t.sync, t'.sync)
  {
    var names := SyncedContainers(cfg);
    MarkMissingFaithful(ok, managed, cfg, t, Missing(known, names));
    SyncFoundFaithful(ok, managed, cfg, MarkMissing(ok, cfg, t, Missing(known, names)), Present(known, names));
  }

  lemma DataplaneUpdateFaithful(ok: Oracle, managed: set<string>, cfg: Config, t: Tracker, ecsHealth: string)
    requires Faithful(cfg, t) && Covers(managed, cfg)
    ensures var t' := t.(sync := UpdateAll(ok, t.sync, DataplaneCheckIDs(cfg), ecsHealth).sync);
      Faithful(cfg, t') && Evolves(managed, t.sync, t'.sync)
  {
    var t' := t.(sync := UpdateAll(ok, t.sync, DataplaneCheckIDs(cfg), ecsHealth).sync);
    UpdateAllEvolves(ok, managed, t.sync, DataplaneCheckIDs(cfg), ecsHealth);
    forall n | Tracked(cfg, t'.sync, n)
      ensures Shown(t'.sync, ContainerCheckID(cfg, n)) == ConsulStatus(Cached(t'.cache, n))
    {
      UpdateAllShows(ok, t.sync, DataplaneCheckIDs(cfg), ecsHealth, ContainerCheckID(cfg, n));
    }
  }

  /** Whatever calls fail and whatever containers come and go, a round keeps
      the invariant and touches nothing but the managed checks. */
  lemma SyncRoundFaithful(ok: Oracle, managed: set<string>, cfg: Config, t: Tracker, meta: TaskMeta)
    requires Faithful(cfg, t) && Covers(managed, cfg)
    ensures var t' := SyncRound(ok, cfg, t, meta); Faithful(cfg, t') && Evolves(managed, t.sync, t'.sync)
  {
    var known := ByName(meta.containers);
    ByNameWellNamed(meta.containers);
    ContainersDoneFaithful(ok, managed, cfg, t, known);
    DataplaneUpdateFaithful(ok, managed, cfg, ContainersDone(ok, cfg, t, known), DataplaneHealth(cfg, meta));
  }

  /** health-sync's starting point: the checks as fetched, nothing remembered. */
  function Start(cfg: Config): Tracker {
    Tracker(Sync(InitialCatalog(cfg), InitialCatalog(cfg), []), map[])
  }

  lemma StartFaithful(cfg: Config)
    ensures Faithful(cfg, Start(cfg))
  {
    InitialAllCritical(cfg);
  }

  lemma ProxyCheckRegistered(cfg: Config)
    requires !cfg.gateway
    ensures var own := InitialCheck(ProxyID(cfg), DATAPLANE);
      && own.checkID in InitialCatalog(cfg) && InitialCatalog(cfg)[own.checkID] == own
      && (forall c :: c in RegisteredChecks(cfg) ==> c == own || c.serviceID == ServiceID(cfg))
  {
    var checks := RegisteredChecks(cfg);
    assert checks[|checks| - 1] == InitialCheck(ProxyID(cfg), DATAPLANE);
  }

  /** Storing an enumeration of a catalog's checks gives that catalog. */
  lemma StoreEnumeration(catalog: Checks, checks: seq<HealthCheck>)
    requires forall id :: id in catalog ==> catalog[id].checkID == id
    requires forall c :: c in checks <==> c in catalog.Values
    ensures Store(checks) == catalog
  {
    forall id | id in catalog ensures id in Store(checks) {
      assert catalog[id] in catalog.Values;
    }
  }

  /** Looking the checks up after mesh-init registered them gives exactly the
      registered ones, in whatever order Consul lists them. */
  lemma FetchAfterRegistration(cfg: Config, service: seq<HealthCheck>, proxy: seq<HealthCheck>)
    requires forall c :: c in service <==> c in InitialCatalog(cfg).Values && c.serviceID == ServiceID(cfg)
    requires forall c :: c in proxy <==> c in InitialCatalog(cfg).Values && c.serviceID == ProxyID(cfg)
    requires Distinct(proxy)
    ensures cfg.gateway ==> Store(service) == InitialCatalog(cfg)
    ensures !cfg.gateway ==> |proxy| == 1 && Store(service + proxy) == InitialCatalog(cfg)
  {
    if cfg.gateway {
      StoreEnumeration(InitialCatalog(cfg), service);
    } else {
      ServiceOrProxy(cfg);
      StoreEnumeration(InitialCatalog(cfg), service + proxy);
      OneCheck(proxy, InitialCheck(ProxyID(cfg), DATAPLANE));
    }
  }

  lemma ServiceOrProxy(cfg: Config)
    requires !cfg.gateway
    ensures forall c :: c in InitialCatalog(cfg).Values ==> c.serviceID == ServiceID(cfg) || c.serviceID == ProxyID(cfg)
    ensures forall c :: c in InitialCatalog(cfg).Values && c.serviceID == ProxyID(cfg) <==>
      c == InitialCheck(ProxyID(cfg), DATAPLANE)
  {
    var catalog, own := InitialCatalog(cfg), InitialCheck(ProxyID(cfg), DATAPLANE);
    ProxyCheckRegistered(cfg);
    assert catalog[own.checkID] == own;
    forall c | c in catalog.Values ensures c in RegisteredChecks(cfg) {}
    assert ServiceID(cfg) != ProxyID(cfg);
  }

  lemma OneCheck(checks: seq<HealthCheck>, only: HealthCheck)
    requires Distinct(checks) && forall c :: c in checks <==> c == only
    ensures |checks| == 1
  {
    assert only in checks;
    var last := checks[|checks| - 1];
    assert checks[0] in checks && last in checks;
    assert checks[0] == last;
  }

  // A round without failures is a full resync

  /** Every Register call made between two points of a run succeeds. */
  predicate Clean(ok: Oracle, s: Sync, s': Sync) {
    AllSucceeded(ok, |s.trace|, |s'.trace|)
  }

  predicate ContainerHealthy(meta: TaskMeta, name: string) {
    name in ByName(meta.containers) && ByName(meta.containers)[name].health == HEALTHY
  }

  /** What a check should say, from the latest metadata alone. */
  ghost predicate ShouldPass(cfg: Config, meta: TaskMeta, id: string) {
    if id in DataplaneCheckIDs(cfg) then TaskHealthy(cfg, meta)
    else exists n :: n in SyncedContainers(cfg) && id == ContainerCheckID(cfg, n) && ContainerHealthy(meta, n)
  }

  /** The stateless reference: overwrite every managed check. */
  ghost function Resync(cfg: Config, s: Sync, meta: TaskMeta): Checks {
    map id | id in s.catalog ::
      if id in s.checks && id in Managed(cfg)
      then s.catalog[id].(status := if ShouldPass(cfg, meta, id) then PASSING else CRITICAL)
      else s.catalog[id]
  }

  lemma UpdateContainerGrows(ok: Oracle, cfg: Config, s: Sync, name: string, ecsHealth: string)
    ensures s.trace <= UpdateContainer(ok, cfg, s, name, ecsHealth).sync.trace
  {
    UpdateAllGrows(ok, s, DataplaneCheckIDs(cfg), ecsHealth);
  }

  lemma FoundStepGrows(ok: Oracle, cfg: Config, t: Tracker, c: Container)
    ensures t.sync.trace <= FoundStep(ok, cfg, t, c).sync.trace
  {
  }

  lemma {:induction false} MarkMissingRemembers(ok: Oracle, managed: set<string>, cfg: Config, t: Tracker,
      names: seq<string>, name: string)
    requires Faithful(cfg, t) && Covers(managed, cfg)
    requires NoneFailed(MarkMissing(ok, cfg, t, names).sync.trace, |t.sync.trace|, ContainerCheckID(cfg, name))
    requires forall n :: n in names ==> n in SyncedContainers(cfg)
    requires name in names && Tracked(cfg, t.sync, name)
    ensures Cached(MarkMissing(ok, cfg, t, names).cache, name) == CRITICAL
  {
    var rest, last := names[..|names| - 1], names[|names| - 1];
    assert names == rest + [last];
    var before := MarkMissing(ok, cfg, t, rest).sync;
    UpdateContainerGrows(ok, cfg, before, last, UNHEALTHY);
    MarkMissingFaithful(ok, managed, cfg, t, rest);
    if name == last {
      assert DataplaneCheckIDs(cfg)[0] == ContainerCheckID(cfg, DATAPLANE);
      UpdateOwn(ok, before, ContainerCheckID(cfg, name), UNHEALTHY, MarkMissing(ok, cfg, t, names).sync.trace);
    } else {
      MarkMissingRemembers(ok, managed, cfg, t, rest, name);
    }
  }

  lemma {:induction false} SyncFoundForgetsNothing(ok: Oracle, cfg: Config, t: Tracker, found: seq<Container>,
      name: string)
    requires forall c :: c in found ==> c.name != name
    ensures Cached(SyncFound(ok, cfg, t, found).cache, name) == Cached(t.cache, name)
  {
    if found != [] {
      SyncFoundForgetsNothing(ok, cfg, t, found[..|found| - 1], name);
    }
  }

  lemma FoundStepRemembers(ok: Oracle, cfg: Config, t: Tracker, c: Container)
    requires Aligned(t.sync) && Tracked(cfg, t.sync, c.name)
    requires NoneFailed(FoundStep(ok, cfg, t, c).sync.trace, |t.sync.trace|, ContainerCheckID(cfg, c.name))
    ensures Cached(FoundStep(ok, cfg, t, c).cache, c.name) == c.health
  {
    assert DataplaneCheckIDs(cfg)[0] == ContainerCheckID(cfg, DATAPLANE);
    if c.health != Cached(t.cache, c.name) {
      UpdateOwn(ok, t.sync, ContainerCheckID(cfg, c.name), c.health, FoundStep(ok, cfg, t, c).sync.trace);
    }
  }

  lemma {:induction false} SyncFoundRemembers(ok: Oracle, managed: set<string>, cfg: Config, t: Tracker,
      found: seq<Container>, c: Container)
    requires Faithful(cfg, t) && Covers(managed, cfg)
    requires NoneFailed(SyncFound(ok, cfg, t, found).sync.trace, |t.sync.trace|, ContainerCheckID(cfg, c.name))
    requires forall c' :: c' in found ==> c'.name in SyncedContainers(cfg) && (c'.name == c.name ==> c' == c)
    requires c in found && Tracked(cfg, t.sync, c.name)
    ensures Cached(SyncFound(ok, cfg, t, found).cache, c.name) == c.health
  {
    var rest, last := found[..|found| - 1], found[|found| - 1];
    assert found == rest + [last];
    var before := SyncFound(ok, cfg, t, rest);
    FoundStepGrows(ok, cfg, before, last);
    SyncFoundFaithful(ok, managed, cfg, t, rest);
    if last == c {
      FoundStepRemembers(ok, cfg, before, c);
    } else {
      SyncFoundRemembers(ok, managed, cfg, t, rest, c);
    }
  }

  /** After the containers have been handled, each tracked check for which no call
      failed is what the metadata says. */
  lemma ContainersDoneOwn(ok: Oracle, cfg: Config, t: Tracker, known: map<string, Container>, name: string)
    requires Faithful(cfg, t) && WellNamed(known)
    requires NoneFailed(
      ContainersDone(ok, cfg, t, known).sync.trace, |t.sync.trace|, ContainerCheckID(cfg, name))
    requires name in SyncedContainers(cfg) && Tracked(cfg, t.sync, name)
    ensures Shown(ContainersDone(ok, cfg, t, known).sync, ContainerCheckID(cfg, name))
         == if name in known then ConsulStatus(known[name].health) else CRITICAL
  {
    var names := SyncedContainers(cfg);
    var missing, found := Missing(known, names), Present(known, names);
    var t1 := MarkMissing(ok, cfg, t, missing);
    var end, id := ContainersDone(ok, cfg, t, known).sync.trace, ContainerCheckID(cfg, name);
    ManagedCovers(cfg);
    MarkMissingFaithful(ok, Managed(cfg), cfg, t, missing);
    SyncFoundFaithful(ok, Managed(cfg), cfg, t1, found);
    NoneFailedPart(t1.sync.trace, end, |t.sync.trace|, |t1.sync.trace|, id);
    if name in known {
      SyncFoundRemembers(ok, Managed(cfg), cfg, t1, found, known[name]);
    } else {
      MarkMissingRemembers(ok, Managed(cfg), cfg, t, missing, name);
      SyncFoundForgetsNothing(ok, cfg, t1, found, name);
    }
  }

  lemma DataplaneShows(ok: Oracle, cfg: Config, s: Sync, ecsHealth: string, id: string)
    requires Aligned(s) && id in DataplaneCheckIDs(cfg) && forall k :: k in DataplaneCheckIDs(cfg) ==> k in s.checks
    requires OwnCallsSucceed(cfg, s, UpdateAll(ok, s, DataplaneCheckIDs(cfg), ecsHealth).sync, id)
    ensures Shown(UpdateAll(ok, s, DataplaneCheckIDs(cfg), ecsHealth).sync, id) == ConsulStatus(ecsHealth)
  {
    var ids := DataplaneCheckIDs(cfg);
    var i: nat :| i < |ids| && ids[i] == id;
    UpdateAllOwn(ok, s, ids, ecsHealth, i);
  }

  /** A round goes on after failures: it leaves every managed check for which no call
      failed as the metadata says, whatever became of the calls for the others. */
  lemma RoundShows(ok: Oracle, cfg: Config, t: Tracker, meta: TaskMeta, id: string)
    requires Faithful(cfg, t) && OwnCallsSucceed(cfg, t.sync, SyncRound(ok, cfg, t, meta).sync, id)
    requires forall k :: k in DataplaneCheckIDs(cfg) ==> k in t.sync.checks
    requires id in t.sync.checks && id in Managed(cfg)
    ensures Shown(SyncRound(ok, cfg, t, meta).sync, id) == if ShouldPass(cfg, meta, id) then PASSING else CRITICAL
  {
    var known, dataplane := ByName(meta.containers), DataplaneCheckIDs(cfg);
    ManagedCovers(cfg);
    ByNameWellNamed(meta.containers);
    ContainersDoneFaithful(ok, Managed(cfg), cfg, t, known);
    var s1, end := ContainersDone(ok, cfg, t, known).sync, SyncRound(ok, cfg, t, meta).sync.trace;
    UpdateAllGrows(ok, s1, dataplane, DataplaneHealth(cfg, meta));
    NoneFailedPart(s1.trace, end, |t.sync.trace|, |s1.trace|, id);
    if id in dataplane {
      NoneFailedPart(s1.trace, end, |t.sync.trace|, |s1.trace|, dataplane[0]);
      DataplaneShows(ok, cfg, s1, DataplaneHealth(cfg, meta), id);
    } else {
      var n :| n in SyncedContainers(cfg) && id == ContainerCheckID(cfg, n);
      ContainersDoneOwn(ok, cfg, t, known, n);
      UpdateAllShows(ok, s1, dataplane, DataplaneHealth(cfg, meta), id);
    }
  }

  /** In particular where none failed. */
  lemma CleanRoundShows(ok: Oracle, cfg: Config, t: Tracker, meta: TaskMeta, id: string)
    requires Faithful(cfg, t) && Clean(ok, t.sync, SyncRound(ok, cfg, t, meta).sync)
    requires forall k :: k in DataplaneCheckIDs(cfg) ==> k in t.sync.checks
    requires id in t.sync.checks && id in Managed(cfg)
    ensures Shown(SyncRound(ok, cfg, t, meta).sync, id) == if ShouldPass(cfg, meta, id) then PASSING else CRITICAL
  {
    RoundCallsAreHonest(ok, cfg, t, meta);
    RoundShows(ok, cfg, t, meta, id);
  }

  /** What the trace says of a call is what became of it. */
  predicate Honest(ok: Oracle, trace: seq<Call>, from: nat) {
    forall k :: from <= k < |trace| && trace[k].Register? ==> trace[k].ok == ok(k)
  }

  lemma {:induction false} UpdateAllHonest(ok: Oracle, s: Sync, ids: seq<string>, ecsHealth: string, from: nat)
    requires Honest(ok, s.trace, from)
    ensures Honest(ok, UpdateAll(ok, s, ids, ecsHealth).sync.trace, from)
    decreases |ids|
  {
    if ids != [] {
      var first := Update(ok, s, ids[0], ecsHealth);
      if !first.failed { UpdateAllHonest(ok, first.sync, ids[1..], ecsHealth, from); }
    }
  }

  lemma {:induction false} MarkMissingHonest(ok: Oracle, cfg: Config, t: Tracker, names: seq<string>, from: nat)
    requires Honest(ok, t.sync.trace, from)
    ensures Honest(ok, MarkMissing(ok, cfg, t, names).sync.trace, from)
  {
    if names != [] {
      MarkMissingHonest(ok, cfg, t, names[..|names| - 1], from);
      UpdateAllHonest(
        ok, MarkMissing(ok, cfg, t, names[..|names| - 1]).sync, DataplaneCheckIDs(cfg), UNHEALTHY, from);
    }
  }

  lemma {:induction false} SyncFoundHonest(ok: Oracle, cfg: Config, t: Tracker, found: seq<Container>, from: nat)
    requires Honest(ok, t.sync.trace, from)
    ensures Honest(ok, SyncFound(ok, cfg, t, found).sync.trace, from)
  {
    if found != [] { SyncFoundHonest(ok, cfg, t, found[..|found| - 1], from); }
  }

  lemma RoundCallsAreHonest(ok: Oracle, cfg: Config, t: Tracker, meta: TaskMeta)
    ensures Honest(ok, SyncRound(ok, cfg, t, meta).sync.trace, |t.sync.trace|)
  {
    var known, names := ByName(meta.containers), SyncedContainers(cfg);
    MarkMissingHonest(ok, cfg, t, Missing(known, names), |t.sync.trace|);
    SyncFoundHonest(ok, cfg, MarkMissing(ok, cfg, t, Missing(known, names)), Present(known, names), |t.sync.trace|);
    UpdateAllHonest(ok, ContainersDone(ok, cfg, t, known).sync, DataplaneCheckIDs(cfg), DataplaneHealth(cfg, meta),
      |t.sync.trace|);
  }

  // Calls that a round does not make

  /** No call for this check from there on. */
  predicate NotCalled(trace: seq<Call>, from: nat, id: string) {
    forall k :: from <= k < |trace| ==> !(trace[k].Register? && trace[k].checkID == id)
  }

  lemma {:induction false} UpdateAllNotCalled(ok: Oracle, s: Sync, ids: seq<string>, ecsHealth: string, from: nat,
      id: string)
    requires NotCalled(s.trace, from, id) && id !in ids
    ensures NotCalled(UpdateAll(ok, s, ids, ecsHealth).sync.trace, from, id)
    decreases |ids|
  {
    if ids != [] {
      var first := Update(ok, s, ids[0], ecsHealth);
      if !first.failed { UpdateAllNotCalled(ok, first.sync, ids[1..], ecsHealth, from, id); }
    }
  }

  lemma {:induction false} MarkMissingNotCalled(ok: Oracle, cfg: Config, t: Tracker, names: seq<string>, from: nat,
      name: string)
    requires NotCalled(t.sync.trace, from, ContainerCheckID(cfg, name)) && name !in names
    requires ContainerCheckID(cfg, name) !in DataplaneCheckIDs(cfg)
    ensures NotCalled(MarkMissing(ok, cfg, t, names).sync.trace, from, ContainerCheckID(cfg, name))
    ensures Cached(MarkMissing(ok, cfg, t, names).cache, name) == Cached(t.cache, name)
  {
    if names != [] {
      var rest, last := names[..|names| - 1], names[|names| - 1];
      assert last in names;
      MarkMissingNotCalled(ok, cfg, t, rest, from, name);
      UpdateAllNotCalled(ok, MarkMissing(ok, cfg, t, rest).sync, DataplaneCheckIDs(cfg), UNHEALTHY, from,
        ContainerCheckID(cfg, name));
    }
  }

  lemma {:induction false} SyncFoundNotCalled(ok: Oracle, cfg: Config, t: Tracker, found: seq<Container>, from: nat,
      name: string)
    requires NotCalled(t.sync.trace, from, ContainerCheckID(cfg, name))
    requires forall c :: c in found && c.name == name ==> c.health == Cached(t.cache, name)
    ensures NotCalled(SyncFound(ok, cfg, t, found).sync.trace, from, ContainerCheckID(cfg, name))
    ensures Cached(SyncFound(ok, cfg, t, found).cache, name) == Cached(t.cache, name)
  {
    if found != [] {
      assert found[|found| - 1] in found;
      SyncFoundNotCalled(ok, cfg, t, found[..|found| - 1], from, name);
    }
  }

  /** A check is written only if there is a change: none is made for a container whose
      status is the remembered one. */
  lemma UnchangedNotWritten(ok: Oracle, cfg: Config, t: Tracker, meta: TaskMeta, name: string)
    requires ContainerCheckID(cfg, name) !in DataplaneCheckIDs(cfg) && name in ByName(meta.containers)
    requires ByName(meta.containers)[name].health == Cached(t.cache, name)
    ensures NotCalled(SyncRound(ok, cfg, t, meta).sync.trace, |t.sync.trace|, ContainerCheckID(cfg, name))
  {
    var known, names := ByName(meta.containers), SyncedContainers(cfg);
    ByNameWellNamed(meta.containers);
    MarkMissingNotCalled(ok, cfg, t, Missing(known, names), |t.sync.trace|, name);
    var t1 := MarkMissing(ok, cfg, t, Missing(known, names));
    SyncFoundNotCalled(ok, cfg, t1, Present(known, names), |t.sync.trace|, name);
    UpdateAllNotCalled(ok, ContainersDone(ok, cfg, t, known).sync, DataplaneCheckIDs(cfg), DataplaneHealth(cfg, meta),
      |t.sync.trace|, ContainerCheckID(cfg, name));
  }

  // Health, in plain terms

  /** The first container of this name. */
  predicate FirstNamed(containers: seq<Container>, name: string, j: int) {
    0 <= j < |containers| && containers[j].name == name && forall k :: 0 <= k < j ==> containers[k].name != name
  }

  lemma ByNameExactly(containers: seq<Container>, name: string)
    ensures forall j :: FirstNamed(containers, name, j) ==>
      name in ByName(containers) && ByName(containers)[name] == containers[j]
    ensures name in ByName(containers) ==> exists j :: FirstNamed(containers, name, j)
  {
    forall j | FirstNamed(containers, name, j)
      ensures name in ByName(containers) && ByName(containers)[name] == containers[j]
    {
      ByNameFinds(containers, name, j);
    }
    var j := 0;
    while j < |containers| && containers[j].name != name
      invariant j <= |containers| && forall k :: 0 <= k < j ==> containers[k].name != name
    {
      j := j + 1;
    }
    ByNameFinds(containers, name, j);
    assert j < |containers| ==> FirstNamed(containers, name, j);
  }

  /** The task counts as healthy exactly if the dataplane is there and healthy and each
      configured container is healthy or not there. */
  lemma TaskHealthyExactly(cfg: Config, meta: TaskMeta)
    ensures TaskHealthy(cfg, meta) <==>
      && (exists j :: FirstNamed(meta.containers, "consul-dataplane", j) && meta.containers[j].health == "HEALTHY")
      && (forall n, j :: n in cfg.healthSyncContainers && FirstNamed(meta.containers, n, j) ==>
            meta.containers[j].health == "HEALTHY")
  {
    ByNameExactly(meta.containers, DATAPLANE);
    assert DATAPLANE in SyncedContainers(cfg);
    forall n ensures n in SyncedContainers(cfg) <==> n in cfg.healthSyncContainers || n == DATAPLANE {}
    forall n | n in cfg.healthSyncContainers
      ensures (n in ByName(meta.containers) ==> ByName(meta.containers)[n].health == HEALTHY) <==>
        forall j :: FirstNamed(meta.containers, n, j) ==> meta.containers[j].health == "HEALTHY"
    {
      ByNameExactly(meta.containers, n);
    }
  }

  lemma ContainerHealthyExactly(meta: TaskMeta, name: string)
    ensures ContainerHealthy(meta, name) <==>
      exists j :: FirstNamed(meta.containers, name, j) && meta.containers[j].health == "HEALTHY"
  {
    ByNameExactly(meta.containers, name);
  }

  /** The incremental round refines the full resync: from any state a history
      of rounds can lead to, a round whose calls all succeed leaves the whole
      catalog as if every managed check had been rewritten. */
  lemma CleanRoundIsResync(ok: Oracle, cfg: Config, t: Tracker, meta: TaskMeta)
    requires Faithful(cfg, t) && Clean(ok, t.sync, SyncRound(ok, cfg, t, meta).sync)
    requires forall id :: id in DataplaneCheckIDs(cfg) ==> id in t.sync.checks
    ensures SyncRound(ok, cfg, t, meta).sync.catalog == Resync(cfg, t.sync, meta)
  {
    ManagedCovers(cfg);
    SyncRoundFaithful(ok, Managed(cfg), cfg, t, meta);
    var s' := SyncRound(ok, cfg, t, meta).sync;
    forall id | id in t.sync.catalog ensures s'.catalog[id] == Resync(cfg, t.sync, meta)[id] {
      if id in t.sync.checks && id in Managed(cfg) {
        CleanRoundShows(ok, cfg, t, meta, id);
      }
    }
  }

  /** In particular a container's check passes iff the container is present and
      healthy, and the dataplane's checks pass iff the task is healthy. */
  lemma CleanRoundMeaning(ok: Oracle, cfg: Config, t: Tracker, meta: TaskMeta, name: string)
    requires Faithful(cfg, t) && Clean(ok, t.sync, SyncRound(ok, cfg, t, meta).sync)
    requires forall id :: id in DataplaneCheckIDs(cfg) ==> id in t.sync.checks
    requires name in SyncedContainers(cfg) && ContainerCheckID(cfg, name) in t.sync.checks
    ensures var s' := SyncRound(ok, cfg, t, meta).sync;
      && (forall id :: id in DataplaneCheckIDs(cfg) ==> (Shown(s', id) == PASSING <==> TaskHealthy(cfg, meta)))
      && (name != DATAPLANE && (name != SHADOW_NAME || cfg.gateway) ==>
            (Shown(s', ContainerCheckID(cfg, name)) == PASSING <==> ContainerHealthy(meta, name)))
  {
    ManagedCovers(cfg);
    DataplaneCheckOf(cfg, name);
    CleanRoundShows(ok, cfg, t, meta, ContainerCheckID(cfg, name));
    forall id | id in DataplaneCheckIDs(cfg)
      ensures Shown(SyncRound(ok, cfg, t, meta).sync, id) == PASSING <==> TaskHealthy(cfg, meta)
    {
      CleanRoundShows(ok, cfg, t, meta, id);
    }
  }

  /** The exception: in service mode the check of a container called like the
      proxy's dataplane check shows the whole task's health. It is right about the
      container exactly when the two agree. */
  lemma ShadowedContainerShows(ok: Oracle, cfg: Config, t: Tracker, meta: TaskMeta)
    requires !cfg.gateway && SHADOW_NAME in cfg.healthSyncContainers
    requires Faithful(cfg, t) && Clean(ok, t.sync, SyncRound(ok, cfg, t, meta).sync)
    requires forall id :: id in DataplaneCheckIDs(cfg) ==> id in t.sync.checks
    ensures var passes := Shown(SyncRound(ok, cfg, t, meta).sync, ContainerCheckID(cfg, SHADOW_NAME)) == PASSING;
      && (passes <==> TaskHealthy(cfg, meta))
      && ((passes <==> ContainerHealthy(meta, SHADOW_NAME)) <==>
          (TaskHealthy(cfg, meta) <==> ContainerHealthy(meta, SHADOW_NAME)))
  {
    DataplaneCheckOf(cfg, SHADOW_NAME);
    CleanRoundMeaning(ok, cfg, t, meta, SHADOW_NAME);
  }

  lemma OnlyShadowedThere(cfg: Config, meta: TaskMeta)
    requires meta.containers == [Container(SHADOW_NAME, HEALTHY, "", "", NORMAL)]
    ensures ContainerHealthy(meta, SHADOW_NAME) && !TaskHealthy(cfg, meta)
  {
    ByNameFinds(meta.containers, SHADOW_NAME, 0);
    ByNameFinds(meta.containers, DATAPLANE, 1);
  }

  /** And for every such configuration they can disagree, from the very start: the
      container is healthy and its check critical when the dataplane is missing. */
  lemma ShadowedContainerMisreported(ok: Oracle, cfg: Config, meta: TaskMeta)
    requires !cfg.gateway && SHADOW_NAME in cfg.healthSyncContainers
    requires meta.containers == [Container(SHADOW_NAME, HEALTHY, "", "", NORMAL)]
    requires Clean(ok, Start(cfg).sync, SyncRound(ok, cfg, Start(cfg), meta).sync)
    ensures ContainerHealthy(meta, SHADOW_NAME)
    ensures ContainerCheckID(cfg, SHADOW_NAME) in Start(cfg).sync.checks
    ensures Shown(SyncRound(ok, cfg, Start(cfg), meta).sync, ContainerCheckID(cfg, SHADOW_NAME)) != PASSING
  {
    StartFaithful(cfg);
    InitialAllCritical(cfg);
    DataplaneCheckOf(cfg, SHADOW_NAME);
    OnlyShadowedThere(cfg, meta);
    ShadowedContainerShows(ok, cfg, Start(cfg), meta);
  }

  // Shutting down

  /** No call from the k-th on writes anything but critical. */
  predicate OnlyCriticalFrom(trace: seq<Call>, k: nat) {
    forall i :: k <= i < |trace| && trace[i].Register? ==> trace[i].status == CRITICAL
  }

  lemma {:induction false} UpdateAllWrites(ok: Oracle, s: Sync, ids: seq<string>, k: nat)
    requires k <= |s.trace| && OnlyCriticalFrom(s.trace, k)
    ensures OnlyCriticalFrom(UpdateAll(ok, s, ids, UNHEALTHY).sync.trace, k)
    ensures k <= |UpdateAll(ok, s, ids, UNHEALTHY).sync.trace|
    decreases |ids|
  {
    if ids != [] {
      var first := Update(ok, s, ids[0], UNHEALTHY);
      if !first.failed {
        UpdateAllWrites(ok, first.sync, ids[1..], k);
      }
    }
  }

  lemma UpdateContainerEvolves(ok: Oracle, managed: set<string>, cfg: Config, s: Sync, name: string, ecsHealth: string)
    requires Aligned(s) && Covers(managed, cfg) && name in SyncedContainers(cfg)
    ensures Evolves(managed, s, UpdateContainer(ok, cfg, s, name, ecsHealth).sync)
  {
    if name == DATAPLANE {
      UpdateAllEvolves(ok, managed, s, DataplaneCheckIDs(cfg), ecsHealth);
    } else {
      UpdateEvolves(ok, managed, s, ContainerCheckID(cfg, name), ecsHealth);
    }
  }

  lemma EvolvesTransitive(managed: set<string>, s0: Sync, s1: Sync, s2: Sync)
    requires Evolves(managed, s0, s1) && Evolves(managed, s1, s2)
    ensures Evolves(managed, s0, s2)
  {
  }

  lemma {:induction false} CriticalPassEvolves(ok: Oracle, managed: set<string>, cfg: Config, s: Sync,
      names: seq<string>)
    requires Aligned(s) && Covers(managed, cfg) && forall n :: n in names ==> n in SyncedContainers(cfg)
    ensures Evolves(managed, s, CriticalPass(ok, cfg, s, names).sync)
  {
    if names != [] {
      var rest, last := names[..|names| - 1], names[|names| - 1];
      CriticalPassEvolves(ok, managed, cfg, s, rest);
      var before := CriticalPass(ok, cfg, s, rest).sync;
      UpdateContainerEvolves(ok, managed, cfg, before, last, UNHEALTHY);
      EvolvesTransitive(managed, s, before, CriticalPass(ok, cfg, s, names).sync);
    }
  }

  /** No check is made to pass. */
  lemma {:induction false} CriticalPassShows(ok: Oracle, cfg: Config, s: Sync, names: seq<string>, id: string)
    requires Aligned(s) && id in s.catalog
    ensures var s' := CriticalPass(ok, cfg, s, names).sync;
      Aligned(s') && id in s'.catalog && (Shown(s', id) == Shown(s, id) || Shown(s', id) == CRITICAL)
  {
    if names != [] {
      var rest, last := names[..|names| - 1], names[|names| - 1];
      CriticalPassShows(ok, cfg, s, rest, id);
      UpdateContainerShows(ok, cfg, CriticalPass(ok, cfg, s, rest).sync, last, id);
    }
  }

  /** The shutdown pass writes nothing but critical. */
  lemma {:induction false} CriticalPassWrites(ok: Oracle, cfg: Config, s: Sync, names: seq<string>, k: nat)
    requires k <= |s.trace| && OnlyCriticalFrom(s.trace, k)
    ensures k <= |CriticalPass(ok, cfg, s, names).sync.trace|
    ensures OnlyCriticalFrom(CriticalPass(ok, cfg, s, names).sync.trace, k)
  {
    if names != [] {
      CriticalPassWrites(ok, cfg, s, names[..|names| - 1], k);
      UpdateAllWrites(ok, CriticalPass(ok, cfg, s, names[..|names| - 1]).sync, DataplaneCheckIDs(cfg), k);
    }
  }

  /** The checks one container's update writes. */
  function ChecksOf(cfg: Config, name: string): seq<string> {
    if name == DATAPLANE then DataplaneCheckIDs(cfg) else [ContainerCheckID(cfg, name)]
  }

  lemma UpdateContainerShows(ok: Oracle, cfg: Config, s: Sync, name: string, id: string)
    requires Aligned(s) && id in s.catalog
    ensures var s' := UpdateContainer(ok, cfg, s, name, UNHEALTHY).sync;
      Aligned(s') && id in s'.catalog && (Shown(s', id) == Shown(s, id) || Shown(s', id) == CRITICAL)
  {
    UpdateAllShows(ok, s, DataplaneCheckIDs(cfg), UNHEALTHY, id);
    UpdateEvolves(ok, {ContainerCheckID(cfg, name)}, s, ContainerCheckID(cfg, name), UNHEALTHY);
  }

  lemma UpdateContainerDone(ok: Oracle, cfg: Config, s: Sync, name: string, id: string)
    requires Aligned(s) && id in ChecksOf(cfg, name) && !UpdateContainer(ok, cfg, s, name, UNHEALTHY).failed
    ensures id in s.checks && Shown(UpdateContainer(ok, cfg, s, name, UNHEALTHY).sync, id) == CRITICAL
  {
    if name == DATAPLANE {
      UpdateAllDone(ok, s, DataplaneCheckIDs(cfg), UNHEALTHY, id);
    } else {
      UpdateEvolves(ok, {id}, s, id, UNHEALTHY);
    }
  }

  /** If nothing failed, every check it goes through is there and critical. */
  lemma {:induction false} CriticalPassClean(ok: Oracle, managed: set<string>, cfg: Config, s: Sync,
      names: seq<string>, name: string, id: string)
    requires Aligned(s) && Covers(managed, cfg) && forall n :: n in names ==> n in SyncedContainers(cfg)
    requires !CriticalPass(ok, cfg, s, names).failed
    requires name in names && id in ChecksOf(cfg, name)
    ensures id in s.checks && Shown(CriticalPass(ok, cfg, s, names).sync, id) == CRITICAL
  {
    var rest, last := names[..|names| - 1], names[|names| - 1];
    var before := CriticalPass(ok, cfg, s, rest).sync;
    CriticalPassEvolves(ok, managed, cfg, s, rest);
    assert names == rest + [last];
    if name == last {
      UpdateContainerDone(ok, cfg, before, last, id);
    } else {
      CriticalPassClean(ok, managed, cfg, s, rest, name, id);
      UpdateContainerShows(ok, cfg, before, last, id);
    }
  }

  lemma {:induction false} CriticalPassGrows(ok: Oracle, cfg: Config, s: Sync, names: seq<string>)
    ensures s.trace <= CriticalPass(ok, cfg, s, names).sync.trace
  {
    if names != [] {
      CriticalPassGrows(ok, cfg, s, names[..|names| - 1]);
      UpdateContainerGrows(
        ok, cfg, CriticalPass(ok, cfg, s, names[..|names| - 1]).sync, names[|names| - 1], UNHEALTHY);
    }
  }

  /** One container's checks for which no call failed are critical. */
  lemma UpdateContainerOwn(ok: Oracle, cfg: Config, s: Sync, name: string, id: string, end: seq<Call>)
    requires Aligned(s) && id in ChecksOf(cfg, name) && forall k :: k in ChecksOf(cfg, name) ==> k in s.checks
    requires UpdateContainer(ok, cfg, s, name, UNHEALTHY).sync.trace <= end && NoneFailed(end, |s.trace|, id)
    requires id in DataplaneCheckIDs(cfg) ==> NoneFailed(end, |s.trace|, DataplaneCheckIDs(cfg)[0])
    ensures Shown(UpdateContainer(ok, cfg, s, name, UNHEALTHY).sync, id) == CRITICAL
  {
    if name == DATAPLANE {
      var ids := DataplaneCheckIDs(cfg);
      var i: nat :| i < |ids| && ids[i] == id;
      UpdateAllOwn(ok, s, ids, UNHEALTHY, i);
    } else {
      UpdateOwn(ok, s, id, UNHEALTHY, end);
      UpdateEvolves(ok, {id}, s, id, UNHEALTHY);
    }
  }

  lemma {:induction false} CriticalPassOwn(ok: Oracle, managed: set<string>, cfg: Config, s: Sync, names: seq<string>,
      name: string, id: string)
    requires Aligned(s) && Covers(managed, cfg) && forall n :: n in names ==> n in SyncedContainers(cfg)
    requires name in names && id in ChecksOf(cfg, name) && forall k :: k in ChecksOf(cfg, name) ==> k in s.checks
    requires OwnCallsSucceed(cfg, s, CriticalPass(ok, cfg, s, names).sync, id)
    ensures Shown(CriticalPass(ok, cfg, s, names).sync, id) == CRITICAL
  {
    var rest, last := names[..|names| - 1], names[|names| - 1];
    var before, end := CriticalPass(ok, cfg, s, rest).sync, CriticalPass(ok, cfg, s, names).sync.trace;
    CriticalPassEvolves(ok, managed, cfg, s, rest);
    UpdateContainerGrows(ok, cfg, before, last, UNHEALTHY);
    assert names == rest + [last];
    NoneFailedPart(before.trace, end, |s.trace|, |before.trace|, id);
    if id in DataplaneCheckIDs(cfg) {
      NoneFailedPart(before.trace, end, |s.trace|, |before.trace|, DataplaneCheckIDs(cfg)[0]);
    }
    if name == last {
      UpdateContainerOwn(ok, cfg, before, last, id, end);
    } else {
      CriticalPassOwn(ok, managed, cfg, s, rest, name, id);
      UpdateContainerShows(ok, cfg, before, last, id);
    }
  }

  /** The pass goes on after failures: every managed check for which no call failed is
      critical, whatever became of the calls for the others. */
  lemma CriticalPassPerseveres(ok: Oracle, cfg: Config, s: Sync, id: string)
    requires Aligned(s) && id in Managed(cfg) && id in s.checks
    requires forall k :: k in DataplaneCheckIDs(cfg) ==> k in s.checks
    requires OwnCallsSucceed(cfg, s, CriticalPass(ok, cfg, s, SyncedContainers(cfg)).sync, id)
    ensures Shown(CriticalPass(ok, cfg, s, SyncedContainers(cfg)).sync, id) == CRITICAL
  {
    ManagedCovers(cfg);
    if id in DataplaneCheckIDs(cfg) {
      CriticalPassOwn(ok, Managed(cfg), cfg, s, SyncedContainers(cfg), DATAPLANE, id);
    } else {
      var n :| n in SyncedContainers(cfg) && id == ContainerCheckID(cfg, n);
      CriticalPassOwn(ok, Managed(cfg), cfg, s, SyncedContainers(cfg), n, id);
    }
  }

  /** A pass without failures leaves every managed check critical. */
  lemma CleanCriticalPass(ok: Oracle, cfg: Config, s: Sync, id: string)
    requires Aligned(s) && !CriticalPass(ok, cfg, s, SyncedContainers(cfg)).failed
    requires id in Managed(cfg)
    ensures id in s.checks && Shown(CriticalPass(ok, cfg, s, SyncedContainers(cfg)).sync, id) == CRITICAL
  {
    ManagedCovers(cfg);
    if id in DataplaneCheckIDs(cfg) {
      CriticalPassClean(ok, Managed(cfg), cfg, s, SyncedContainers(cfg), DATAPLANE, id);
    } else {
      var n :| n in SyncedContainers(cfg) && id == ContainerCheckID(cfg, n);
      CriticalPassClean(ok, Managed(cfg), cfg, s, SyncedContainers(cfg), n, id);
    }
  }

  lemma {:induction false} MarkMissingSkips(ok: Oracle, cfg: Config, t: Tracker, names: seq<string>, name: string)
    requires Aligned(t.sync) && Tracked(cfg, t.sync, name) && name !in names
    ensures var t' := MarkMissing(ok, cfg, t, names); var id := ContainerCheckID(cfg, name);
      && Aligned(t'.sync) && id in t'.sync.catalog
      && Shown(t'.sync, id) == Shown(t.sync, id) && Cached(t'.cache, name) == Cached(t.cache, name)
  {
    if names != [] {
      var rest, last := names[..|names| - 1], names[|names| - 1];
      MarkMissingSkips(ok, cfg, t, rest, name);
      var s := MarkMissing(ok, cfg, t, rest).sync;
      UpdateAllShows(ok, s, DataplaneCheckIDs(cfg), UNHEALTHY, ContainerCheckID(cfg, name));
      assert last in names;
    }
  }

  lemma {:induction false} SyncFoundSkips(ok: Oracle, cfg: Config, t: Tracker, found: seq<Container>, name: string)
    requires Aligned(t.sync) && ContainerCheckID(cfg, name) in t.sync.catalog
    requires forall c :: c in found && c.name == name ==> c.health == Cached(t.cache, name)
    ensures var t' := SyncFound(ok, cfg, t, found); var id := ContainerCheckID(cfg, name);
      && Aligned(t'.sync) && id in t'.sync.catalog
      && Shown(t'.sync, id) == Shown(t.sync, id) && Cached(t'.cache, name) == Cached(t.cache, name)
  {
    if found != [] {
      SyncFoundSkips(ok, cfg, t, found[..|found| - 1], name);
      assert found[|found| - 1] in found;
    }
  }

  /** The pass leaves the remembered statuses as they were, so only skipping
      later rounds protects it: if a healthy container was remembered as
      healthy, the invariant is broken, and a later round with the container
      still healthy would leave its check critical whatever calls succeed. */
  lemma RememberedStatusStale(ok: Oracle, cfg: Config, t: Tracker, meta: TaskMeta, name: string)
    requires Aligned(t.sync) && !CriticalPass(ok, cfg, t.sync, SyncedContainers(cfg)).failed
    requires name in SyncedContainers(cfg) && Tracked(cfg, t.sync, name)
    requires Cached(t.cache, name) == HEALTHY && ContainerHealthy(meta, name)
    ensures var passed := t.(sync := CriticalPass(ok, cfg, t.sync, SyncedContainers(cfg)).sync);
      && !Faithful(cfg, passed)
      && Shown(SyncRound(ok, cfg, passed, meta).sync, ContainerCheckID(cfg, name)) == CRITICAL
  {
    var id := ContainerCheckID(cfg, name);
    var names, known := SyncedContainers(cfg), ByName(meta.containers);
    ManagedCovers(cfg);
    CleanCriticalPass(ok, cfg, t.sync, id);
    CriticalPassEvolves(ok, Managed(cfg), cfg, t.sync, names);
    var passed := t.(sync := CriticalPass(ok, cfg, t.sync, names).sync);
    assert Tracked(cfg, passed.sync, name);
    MarkMissingSkips(ok, cfg, passed, Missing(known, names), name);
    var t1 := MarkMissing(ok, cfg, passed, Missing(known, names));
    ByNameWellNamed(meta.containers);
    SyncFoundSkips(ok, cfg, t1, Present(known, names), name);
    UpdateAllShows(ok, ContainersDone(ok, cfg, passed, known).sync, DataplaneCheckIDs(cfg),
      DataplaneHealth(cfg, meta), id);
  }
}
