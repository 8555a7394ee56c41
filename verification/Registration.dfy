/** subcommand/mesh-init/command.go: what a task registers in Consul's catalog, and
    how the controller and health-sync find it again. */
module Registration {
  import opened Prelude
  import opened TaskMetadata
  import opened HealthChecks
  import opened EcsTasks
  import opened ConsulApi
  import opened Cleanup

  type Meta = map<string, string>

  /** The task: its ARN and cluster, and what its service's (or gateway's)
      configuration adds. */
  datatype Task = Task(arn: string, cluster: string, partition: string, namespace: string, userMeta: Meta)

  datatype Payload = Payload(service: Service, checks: seq<HealthCheck>)

  /** mergeMeta: the second map wins. */
  method MergeMeta(m1: Meta, m2: Meta) returns (result: Meta)
    ensures result == m1 + m2
  {
    result := map[];
    var rest := m1.Keys;
    while rest != {}
      invariant rest <= m1.Keys && result.Keys == m1.Keys - rest
      invariant forall k :: k in result ==> result[k] == m1[k]
    {
      var k :| k in rest;
      result, rest := result[k := m1[k]], rest - {k};
    }
    rest := m2.Keys;
    while rest != {}
      invariant rest <= m2.Keys && result.Keys == m1.Keys + (m2.Keys - rest)
      invariant forall k :: k in result ==> result[k] == if k in m2 && k !in rest then m2[k] else m1[k]
    {
      var k :| k in rest;
      result, rest := result[k := m2[k]], rest - {k};
    }
  }

  /** The configuration that goes with the task. */
  predicate Matches(cfg: HealthChecks.Config, task: Task) {
    cfg.taskID == ParseTaskID(task.arn)
  }

  function OwnMeta(task: Task): Meta {
    map[TASK_ID_META := ParseTaskID(task.arn), "task-arn" := task.arn, "source" := "consul-ecs"]
  }

  function Registered(task: Task, id: string): Service {
    Service(id, task.cluster, task.partition, task.namespace, OwnMeta(task) + task.userMeta)
  }

  /** constructServiceRegistration, or constructGatewayProxyRegistration for a gateway. */
  method ConstructRegistration(cfg: HealthChecks.Config, task: Task) returns (r: Payload)
    requires Matches(cfg, task)
    ensures r.service == Registered(task, ServiceID(cfg))
    ensures r.checks == ServiceChecks(cfg, ServiceID(cfg), !cfg.gateway)
  {
    var taskID := ParseTaskID(task.arn);
    var meta := MergeMeta(map[TASK_ID_META := taskID, "task-arn" := task.arn, "source" := "consul-ecs"], task.userMeta);
    var id := MakeServiceID(cfg.serviceName, taskID);
    var checks := ConstructChecks(cfg, id, !cfg.gateway);
    r := Payload(Service(id, task.cluster, task.partition, task.namespace, meta), checks);
  }

  /** constructProxyRegistration: the proxy shares its service's metadata. */
  method ConstructProxyRegistration(cfg: HealthChecks.Config, task: Task, own: Payload) returns (r: Payload)
    requires own.service == Registered(task, ServiceID(cfg))
    ensures r.service == Registered(task, ProxyID(cfg))
    ensures r.checks == ServiceChecks(cfg, ProxyID(cfg), false)
  {
    var id := own.service.id + "-sidecar-proxy";
    var checks := ConstructChecks(cfg, id, false);
    r := Payload(own.service.(id := id), checks);
  }

  /** mesh-init's registrations, in order: together they carry exactly the checks
      that health-sync takes over. */
  method Register(cfg: HealthChecks.Config, task: Task) returns (payloads: seq<Payload>)
    requires Matches(cfg, task)
    ensures |payloads| == if cfg.gateway then 1 else 2
    ensures payloads[0].service == Registered(task, ServiceID(cfg))
    ensures !cfg.gateway ==> payloads[1].service == Registered(task, ProxyID(cfg))
    ensures payloads[0].checks + (if cfg.gateway then [] else payloads[1].checks) == RegisteredChecks(cfg)
  {
    var own := ConstructRegistration(cfg, task);
    payloads := [own];
    if !cfg.gateway {
      var proxy := ConstructProxyRegistration(cfg, task, own);
      payloads := [own, proxy];
    }
  }

  /** What is registered says which task it belongs to, and that the program registered
      it, unless the user's metadata says otherwise. */
  lemma RegisteredMeta(task: Task, id: string, key: string)
    ensures var meta := Registered(task, id).meta;
      && (key in task.userMeta ==> key in meta && meta[key] == task.userMeta[key])
      && (key !in task.userMeta ==>
            && (key == "task-id" ==> key in meta && meta[key] == ParseTaskID(task.arn))
            && (key == "task-arn" ==> key in meta && meta[key] == task.arn)
            && (key == "source" ==> key in meta && meta[key] == "consul-ecs")
            && (key != "task-id" && key != "task-arn" && key != "source" ==> key !in meta))
  {
  }

  /** The user's metadata leaves the task ID alone. */
  predicate KeepsTaskID(task: Task) {
    TASK_ID_META in task.userMeta ==> task.userMeta[TASK_ID_META] == ParseTaskID(task.arn)
  }

  /** The controller takes a registered service for its own task's exactly if the
      user's metadata does not override the task ID. */
  lemma ServiceFindsItsTask(task: Task, id: string)
    ensures ServiceTask(Registered(task, id)) == Some(ParseTaskID(task.arn)) <==> KeepsTaskID(task)
    ensures ServiceTask(Registered(task, id)).Some?
  {
  }

  /** With the task ID kept, a registered service is orphaned exactly when its own
      task is absent from what ECS returned. */
  lemma OrphanedWithItsTask(l: Lister, c: Consul, task: Task, id: string, ids: set<TaskID>)
    requires KeepsTaskID(task) && Registered(task, id) in c.services
    requires l.cluster == task.cluster && l.partition == task.partition
      && (l.PartitionsEnabled() || task.namespace == "")
    ensures Registered(task, id) in OrphanServices(l, c, ids) <==> ParseTaskID(task.arn) !in ids
  {
    ServiceFindsItsTask(task, id);
  }

  /** With the task ID overridden, the service of a running task that ECS did
      return is orphaned, and a round without failures removes it. */
  lemma OverrideOrphansRunningTask(ok: Oracle, l: Lister, parse: Parser, c: Consul, c1: Consul, ecs: States,
      tokens: seq<Token>, services: seq<Service>, resources: seq<TaskState>, task: Task, id: string)
    requires RoundReads(l, parse, c, ecs, tokens, services, resources) && Identified(c.tokens, c.services)
    requires c1.tokens == c.tokens && c1.services == c.services
    requires AllSucceeded(ok, c1.calls, ReconcileTasks(ok, c1, resources).consul.calls)
    requires l.cluster == task.cluster && l.partition == task.partition
      && (l.PartitionsEnabled() || task.namespace == "")
    requires Registered(task, id) in c.services && ParseTaskID(task.arn) in ecs
    requires TASK_ID_META in task.userMeta && task.userMeta[TASK_ID_META] !in ecs
    ensures Registered(task, id) !in ReconcileTasks(ok, c1, resources).consul.services
  {
    ServiceFindsItsTask(task, id);
    RoundDeletesOrphans(ok, l, parse, c, c1, ecs, tokens, services, resources);
    assert Registered(task, id) in OrphanServices(l, c, ecs.Keys);
  }
}
