/** awsutil/awsutil.go: the ECS task metadata and the questions asked of it. */
module TaskMetadata {
  import opened Strings

  const STOPPED := "STOPPED"
  const NORMAL := "NORMAL"
  const HEALTHY := "HEALTHY"
  const UNHEALTHY := "UNHEALTHY"

  datatype Container = Container(
    name: string, health: string, desiredStatus: string, knownStatus: string, kind: string)
  {
    predicate HasStopped() { desiredStatus == STOPPED && knownStatus == STOPPED }
    predicate IsNormalType() { kind == NORMAL }
  }

  datatype TaskMeta = TaskMeta(cluster: string, taskARN: string, family: string, containers: seq<Container>)

  function ParseTaskID(taskArn: string): string {
    var parts := Split(taskArn, '/');
    parts[|parts| - 1]
  }

  /** The task ID is what follows the last slash, or everything if there is none. */
  lemma TaskIDIsLastSegment(taskArn: string)
    ensures var id := ParseTaskID(taskArn);
      && '/' !in id
      && (id == taskArn || exists prefix: string :: taskArn == prefix + "/" + id)
  {
    var parts := Split(taskArn, '/');
    JoinSplit(taskArn, '/');
    if |parts| > 1 {
      var prefix := JoinSnoc(parts, '/');
      assert taskArn == prefix + "/" + ParseTaskID(taskArn);
    }
  }

  lemma {:induction false} JoinSnoc(parts: seq<string>, sep: char) returns (prefix: string)
    requires |parts| > 1
    ensures Join(parts, sep) == prefix + [sep] + parts[|parts| - 1]
  {
    var tail := parts[1..];
    assert Join(parts, sep) == parts[0] + [sep] + Join(tail, sep);
    if |tail| == 1 {
      prefix := parts[0];
    } else {
      var rest := JoinSnoc(tail, sep);
      var last := tail[|tail| - 1];
      prefix := parts[0] + [sep] + rest;
      assert parts[0] + [sep] + (rest + [sep] + last) == prefix + [sep] + last;
    }
  }

  /** The containers by name; the first of several with one name counts. */
  function ByName(containers: seq<Container>): map<string, Container> {
    if containers == [] then map[]
    else ByName(containers[1..])[containers[0].name := containers[0]]
  }

  lemma {:induction false} ByNameFinds(containers: seq<Container>, name: string, j: nat)
    requires j <= |containers| && forall k :: 0 <= k < j ==> containers[k].name != name
    requires j < |containers| ==> containers[j].name == name
    ensures name in ByName(containers) <==> j < |containers|
    ensures j < |containers| ==> ByName(containers)[name] == containers[j]
  {
    if containers != [] && j > 0 {
      ByNameFinds(containers[1..], name, j - 1);
    }
  }

  /** Every container of that name has stopped; vacuously so if there is none. */
  predicate ContainerStopped(meta: TaskMeta, name: string) {
    forall c :: c in meta.containers && c.name == name ==> c.HasStopped()
  }

  method HasContainerStopped(meta: TaskMeta, name: string) returns (stopped: bool)
    ensures stopped <==> ContainerStopped(meta, name)
    ensures stopped <==> forall c :: c in meta.containers && c.name == name ==>
      c.desiredStatus == "STOPPED" && c.knownStatus == "STOPPED"
  {
    stopped := true;
    for i := 0 to |meta.containers|
      invariant stopped <==> forall k :: 0 <= k < i && meta.containers[k].name == name ==>
        meta.containers[k].HasStopped()
    {
      var c := meta.containers[i];
      if c.name == name && !c.HasStopped() {
        stopped := false;
        break;
      }
    }
  }

  const NON_APP_CONTAINERS: set<string> :=
    {"consul-ecs-mesh-init", "consul-dataplane", "consul-ecs-health-sync"}

  predicate IsApplication(c: Container) {
    c.IsNormalType() && c.name !in NON_APP_CONTAINERS
  }

  predicate ApplicationsStopped(meta: TaskMeta) {
    forall c :: c in meta.containers && IsApplication(c) ==> c.HasStopped()
  }

  /** subcommand/envoy-entrypoint/task-monitor.go, allAppContainersStopped. */
  method AllAppContainersStopped(meta: TaskMeta) returns (allStopped: bool)
    ensures allStopped <==> ApplicationsStopped(meta)
    ensures allStopped <==> forall c :: c in meta.containers && c.kind == "NORMAL" ==>
      || c.name in ["consul-ecs-mesh-init", "consul-dataplane", "consul-ecs-health-sync"]
      || (c.desiredStatus == "STOPPED" && c.knownStatus == "STOPPED")
  {
    allStopped := true;
    for i := 0 to |meta.containers|
      invariant allStopped <==> forall k :: 0 <= k < i && IsApplication(meta.containers[k]) ==>
        meta.containers[k].HasStopped()
    {
      if IsApplication(meta.containers[i]) && !meta.containers[i].HasStopped() {
        allStopped := false;
      }
    }
  }
}
