/** The identity of the health checks: how mesh-init registers them
    (subcommand/mesh-init) and how health-sync finds them again
    (subcommand/health-sync). */
module HealthChecks {
  import opened Prelude
  import opened TaskMetadata

  const DATAPLANE := "consul-dataplane"
  const PASSING := "passing"
  const CRITICAL := "critical"

  /** serviceName is the name after constructServiceName; together with the task
      ID it does not change while the task runs. */
  datatype Config = Config(
    gateway: bool, serviceName: string, taskID: string,
    healthSyncContainers: seq<string>, loginEnabled: bool)

  datatype HealthCheck = HealthCheck(checkID: string, serviceID: string, status: string)

  /** Consul keeps one check per ID on a node. */
  type Checks = map<string, HealthCheck>

  function MakeServiceID(serviceName: string, taskID: string): string { serviceName + "-" + taskID }
  function ServiceID(cfg: Config): string { MakeServiceID(cfg.serviceName, cfg.taskID) }
  function ProxyID(cfg: Config): string { ServiceID(cfg) + "-sidecar-proxy" }

  /** The last clause gives the container name back, so that check IDs of one
      service differ whenever the names do. */
  function ConstructCheckID(serviceID: string, name: string): (id: string)
    ensures |id| > |serviceID| && id[|serviceID| + 1..] == name
  {
    serviceID + "-" + name
  }

  function ContainerCheckID(cfg: Config, name: string): string {
    ConstructCheckID(ServiceID(cfg), name)
  }

  /** The dataplane's status is written to one check for a gateway and to two,
      service first, otherwise. */
  function DataplaneCheckIDs(cfg: Config): seq<string> {
    if cfg.gateway then [ContainerCheckID(cfg, DATAPLANE)]
    else [ContainerCheckID(cfg, DATAPLANE), ConstructCheckID(ProxyID(cfg), DATAPLANE)]
  }

  /** The containers health-sync looks after. */
  function SyncedContainers(cfg: Config): seq<string> {
    cfg.healthSyncContainers + [DATAPLANE]
  }

  // The proxy's dataplane check has the ID that a container of this name would have.
  const SHADOW_NAME := "sidecar-proxy-" + DATAPLANE

  lemma ProxyCheckIsShadow(cfg: Config)
    ensures ConstructCheckID(ProxyID(cfg), DATAPLANE) == ContainerCheckID(cfg, SHADOW_NAME)
  {
    var service := ServiceID(cfg);
    calc {
      ConstructCheckID(ProxyID(cfg), DATAPLANE);
      ((service + "-sidecar-proxy") + "-") + DATAPLANE;
      (service + "-") + ("sidecar-proxy-" + DATAPLANE);
      ContainerCheckID(cfg, SHADOW_NAME);
    }
  }

  /** The IDs as they are written. mesh-init and health-sync construct them apart from
      each other. */
  lemma CheckIDsAre(cfg: Config, name: string)
    ensures ServiceID(cfg) == cfg.serviceName + "-" + cfg.taskID
    ensures ContainerCheckID(cfg, name) == cfg.serviceName + "-" + cfg.taskID + "-" + name
    ensures DataplaneCheckIDs(cfg)[0] == cfg.serviceName + "-" + cfg.taskID + "-consul-dataplane"
    ensures !cfg.gateway ==>
      && |DataplaneCheckIDs(cfg)| == 2
      && DataplaneCheckIDs(cfg)[1] == cfg.serviceName + "-" + cfg.taskID + "-sidecar-proxy-consul-dataplane"
  {
    var id := ServiceID(cfg);
    assert id + "-" + DATAPLANE == id + "-consul-dataplane";
    ProxyCheckIsShadow(cfg);
    assert id + "-" + SHADOW_NAME == id + "-sidecar-proxy-consul-dataplane";
  }

  /** A container's check is one of the dataplane's exactly when it has the
      dataplane's name, or, in service mode, the shadowed name. */
  lemma DataplaneCheckOf(cfg: Config, name: string)
    ensures ContainerCheckID(cfg, name) in DataplaneCheckIDs(cfg) <==>
            (name == DATAPLANE || (!cfg.gateway && name == SHADOW_NAME))
  {
    ProxyCheckIsShadow(cfg);
  }

  // Registration

  function InitialCheck(serviceID: string, name: string): HealthCheck {
    HealthCheck(ConstructCheckID(serviceID, name), serviceID, CRITICAL)
  }

  /** The checks of one registered service; only typical services, not proxies
      or gateways, have one per container. */
  function ServiceChecks(cfg: Config, serviceID: string, typical: bool): seq<HealthCheck> {
    (if typical then seq(|cfg.healthSyncContainers|, i requires 0 <= i < |cfg.healthSyncContainers| =>
        InitialCheck(serviceID, cfg.healthSyncContainers[i])) else [])
    + [InitialCheck(serviceID, DATAPLANE)]
  }

  /** mesh-init's constructChecks. */
  method ConstructChecks(cfg: Config, serviceID: string, typical: bool) returns (checks: seq<HealthCheck>)
    ensures checks == ServiceChecks(cfg, serviceID, typical)
  {
    checks := [];
    if typical {
      for i := 0 to |cfg.healthSyncContainers|
        invariant |checks| == i
        invariant forall k :: 0 <= k < i ==> checks[k] == InitialCheck(serviceID, cfg.healthSyncContainers[k])
      {
        checks := checks + [InitialCheck(serviceID, cfg.healthSyncContainers[i])];
      }
    }
    checks := checks + [InitialCheck(serviceID, DATAPLANE)];
  }

  /** Everything mesh-init registers, in order. */
  function RegisteredChecks(cfg: Config): seq<HealthCheck> {
    if cfg.gateway then ServiceChecks(cfg, ServiceID(cfg), false)
    else ServiceChecks(cfg, ServiceID(cfg), true) + ServiceChecks(cfg, ProxyID(cfg), false)
  }

  function IDsOf(checks: seq<HealthCheck>): seq<string> {
    seq(|checks|, i requires 0 <= i < |checks| => checks[i].checkID)
  }

  function RegisteredIDs(cfg: Config): seq<string> { IDsOf(RegisteredChecks(cfg)) }

  /** A catalog in which these checks were stored one after the other. */
  function Store(checks: seq<HealthCheck>): (catalog: Checks)
    ensures forall id :: id in catalog ==> catalog[id] in checks && catalog[id].checkID == id
    ensures forall c :: c in checks ==> c.checkID in catalog
  {
    if checks == [] then map[]
    else
      var last := checks[|checks| - 1];
      assert checks == checks[..|checks| - 1] + [last];
      Store(checks[..|checks| - 1])[last.checkID := last]
  }

  function InitialCatalog(cfg: Config): Checks {
    Store(RegisteredChecks(cfg))
  }

  /** The check IDs that health-sync writes when it marks every container
      critical, in the order in which it goes through them. */
  function MarkedIDs(cfg: Config): seq<string> {
    seq(|cfg.healthSyncContainers|, i requires 0 <= i < |cfg.healthSyncContainers| =>
      ContainerCheckID(cfg, cfg.healthSyncContainers[i])) + DataplaneCheckIDs(cfg)
  }

  /** For a service, shutting down marks exactly the checks that were
      registered, one for one. */
  lemma MarkedIsRegistered(cfg: Config)
    requires !cfg.gateway
    ensures MarkedIDs(cfg) == RegisteredIDs(cfg)
  {
  }

  lemma StoreIDs(checks: seq<HealthCheck>, id: string)
    ensures id in Store(checks) <==> id in IDsOf(checks)
  {
    if id in Store(checks) {
      var i :| 0 <= i < |checks| && checks[i] == Store(checks)[id];
      assert IDsOf(checks)[i] == id;
    }
    if id in IDsOf(checks) {
      var i :| 0 <= i < |checks| && IDsOf(checks)[i] == id;
      assert checks[i] in checks;
    }
  }

  lemma RegisteredCritical(cfg: Config)
    ensures forall c :: c in RegisteredChecks(cfg) ==> c.status == CRITICAL
  {
  }

  /** What mesh-init leaves in the catalog: exactly the registered checks, the
      dataplane's among them, and all of them critical. */
  lemma InitialAllCritical(cfg: Config)
    ensures forall id :: id in InitialCatalog(cfg) <==> id in RegisteredIDs(cfg)
    ensures forall id :: id in InitialCatalog(cfg) ==> InitialCatalog(cfg)[id].status == CRITICAL
    ensures forall id :: id in DataplaneCheckIDs(cfg) ==> id in InitialCatalog(cfg)
  {
    forall id ensures id in InitialCatalog(cfg) <==> id in RegisteredIDs(cfg) {
      StoreIDs(RegisteredChecks(cfg), id);
    }
    RegisteredCritical(cfg);
    forall id | id in DataplaneCheckIDs(cfg) ensures id in RegisteredIDs(cfg) {
      if cfg.gateway {
        assert RegisteredIDs(cfg)[0] == id;
      } else {
        MarkedIsRegistered(cfg);
        assert id in MarkedIDs(cfg);
      }
    }
  }

  /** For a gateway only the dataplane's check is registered, so the two agree
      exactly when no container but the dataplane is configured. */
  lemma MarkedIsRegisteredForGateway(cfg: Config)
    requires cfg.gateway
    ensures (forall id :: id in MarkedIDs(cfg) <==> id in RegisteredIDs(cfg)) <==>
            (forall n :: n in cfg.healthSyncContainers ==> n == DATAPLANE)
  {
    var names := cfg.healthSyncContainers;
    var dataplane := ContainerCheckID(cfg, DATAPLANE);
    assert RegisteredIDs(cfg) == [dataplane];
    assert MarkedIDs(cfg)[|names|] == dataplane;
    forall i | 0 <= i < |names| ensures MarkedIDs(cfg)[i] == dataplane <==> names[i] == DATAPLANE {
      assert MarkedIDs(cfg)[i] == ContainerCheckID(cfg, names[i]);
    }
    if forall id :: id in MarkedIDs(cfg) <==> id in RegisteredIDs(cfg) {
      forall i | 0 <= i < |names| ensures names[i] == DATAPLANE {
        assert MarkedIDs(cfg)[i] in MarkedIDs(cfg);
      }
    } else {
      var id :| !(id in MarkedIDs(cfg) <==> id in RegisteredIDs(cfg));
      var i :| 0 <= i < |MarkedIDs(cfg)| && MarkedIDs(cfg)[i] != dataplane;
      assert names[i] in names && names[i] != DATAPLANE;
    }
  }

  /** The registered IDs of a service are pairwise distinct exactly when the
      configured names are, and none of them is reserved. */
  lemma RegisteredDistinct(cfg: Config)
    requires !cfg.gateway
    ensures Distinct(RegisteredIDs(cfg)) <==>
            (Distinct(cfg.healthSyncContainers) &&
             DATAPLANE !in cfg.healthSyncContainers && SHADOW_NAME !in cfg.healthSyncContainers)
  {
    MarkedIsRegistered(cfg);
    ProxyCheckIsShadow(cfg);
    var names := cfg.healthSyncContainers + [DATAPLANE, SHADOW_NAME];
    var ids := RegisteredIDs(cfg);
    assert |ids| == |names| && forall i :: 0 <= i < |ids| ==> ids[i] == ContainerCheckID(cfg, names[i]);
    assert forall i, j :: 0 <= i < j < |ids| ==> (ids[i] == ids[j] <==> names[i] == names[j]);
    var n := |cfg.healthSyncContainers|;
    assert names[n] == DATAPLANE && names[n + 1] == SHADOW_NAME && names[n] != names[n + 1];
    assert Distinct(ids) <==> Distinct(names);
    if Distinct(names) {
      assert forall i, j :: 0 <= i < j < n ==>
        names[i] == cfg.healthSyncContainers[i] && names[j] == cfg.healthSyncContainers[j];
    }
  }

  // Lookup

  /** health-sync's fetchHealthChecks, given what Consul answers for the
      service's checks and, in service mode, for the proxy's. */
  method FetchHealthChecks(cfg: Config, service: Result<seq<HealthCheck>, ()>, proxy: Result<seq<HealthCheck>, ()>)
    returns (r: Result<Checks, ()>)
    ensures r.Ok? <==> service.Ok? && (cfg.gateway || (proxy.Ok? && |proxy.value| == 1))
    ensures r.Ok? ==> r.value == Store(service.value + if cfg.gateway then [] else proxy.value)
  {
    if service.Err? { return Err(()); }
    var found: Checks := map[];
    for i := 0 to |service.value|
      invariant found == Store(service.value[..i])
    {
      StoreSnoc(service.value[..i], service.value[i]);
      assert service.value[..i + 1] == service.value[..i] + [service.value[i]];
      found := found[service.value[i].checkID := service.value[i]];
    }
    assert service.value[..|service.value|] == service.value;
    if cfg.gateway {
      assert service.value + [] == service.value;
      return Ok(found);
    }
    if proxy.Err? || |proxy.value| != 1 { return Err(()); }
    StoreSnoc(service.value, proxy.value[0]);
    assert proxy.value == [proxy.value[0]];
    return Ok(found[proxy.value[0].checkID := proxy.value[0]]);
  }

  lemma StoreSnoc(checks: seq<HealthCheck>, last: HealthCheck)
    ensures Store(checks + [last]) == Store(checks)[last.checkID := last]
  {
    assert (checks + [last])[..|checks + [last]| - 1] == checks;
  }
}
