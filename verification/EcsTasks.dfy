/** The ECS side of the controller: which tasks it takes for its own, and how it
    reads them page by page (controller/resource.go, controller/mocks). */
module EcsTasks {
  import opened Prelude
  import opened Strings
  import opened TaskMetadata

  const MESH_TAG := "consul.hashicorp.com/mesh"
  const PARTITION_TAG := "consul.hashicorp.com/partition"
  const NAMESPACE_TAG := "consul.hashicorp.com/namespace"
  const DEFAULT := "default"

  type TaskID = string

  datatype Tag = Tag(key: string, value: string)

  datatype EcsTask = EcsTask(arn: Option<string>, clusterArn: string, tags: seq<Tag>)

  datatype Token = Token(accessor: string, partition: string, namespace: string, description: string)

  datatype Service = Service(id: string, node: string, partition: string, namespace: string, meta: map<string, string>)

  /** What is known of one task. */
  datatype TaskState = TaskState(
    taskID: TaskID, clusterARN: string, partition: string, ns: string,
    found: bool, tokens: seq<Token>, services: seq<Service>)

  /** The controller of one cluster and partition; no partition means that
      partitions are not enabled. */
  datatype Lister = Lister(cluster: string, partition: string) {
    predicate PartitionsEnabled() { partition != "" }
  }

  function TagValue(tags: seq<Tag>, key: string): string {
    if tags == [] then ""
    else if tags[0].key == key then tags[0].value
    else TagValue(tags[1..], key)
  }

  function NewTaskState(id: TaskID, cluster: string): TaskState {
    TaskState(id, cluster, "", "", false, [], [])
  }

  /** taskStateFromTask; None for its errors. */
  function StateFromTask(l: Lister, t: EcsTask): Option<TaskState> {
    var arn := if t.arn.Some? then t.arn.value else "";
    var p, n := TagValue(t.tags, PARTITION_TAG), TagValue(t.tags, NAMESPACE_TAG);
    var id := ParseTaskID(arn);
    var state := NewTaskState(id, t.clusterArn).(found := true);
    if l.PartitionsEnabled() && ((p == "") != (n == "")) then None
    else if id == "" then None
    else if !l.PartitionsEnabled() then Some(state)
    else if p == "" then Some(state.(partition := DEFAULT, ns := DEFAULT))
    else Some(state.(partition := p, ns := n))
  }

  /** The state recorded for a task: it must be tagged for the mesh, properly,
      and for this partition. */
  function Keep(l: Lister, t: EcsTask): (r: Option<TaskState>)
    ensures r.Some? ==> t.arn.Some? && r.value.taskID == ParseTaskID(t.arn.value)
    ensures r.Some? ==> r.value.found && r.value.tokens == [] && r.value.services == []
  {
    if t.arn.None? || TagValue(t.tags, MESH_TAG) != "true" then None
    else
      var state := StateFromTask(l, t);
      if state.Some? && state.value.partition == l.partition then state else None
  }

  // Which tasks these are

  /** The first tag with this key, at i, has this value. */
  predicate FirstTag(tags: seq<Tag>, key: string, value: string, i: int) {
    && 0 <= i < |tags| && tags[i] == Tag(key, value)
    && forall j :: 0 <= j < i ==> tags[j].key != key
  }

  ghost predicate Tagged(tags: seq<Tag>, key: string, value: string) {
    exists i :: FirstTag(tags, key, value, i)
  }

  ghost predicate Untagged(tags: seq<Tag>, key: string) {
    (forall i :: 0 <= i < |tags| ==> tags[i].key != key) || Tagged(tags, key, "")
  }

  lemma {:induction false} TagValueExactly(tags: seq<Tag>, key: string, value: string)
    ensures value != "" ==> (TagValue(tags, key) == value <==> Tagged(tags, key, value))
    ensures TagValue(tags, key) == "" <==> Untagged(tags, key)
  {
    if tags != [] {
      TagValueExactly(tags[1..], key, value);
      TaggedCons(tags, key, value);
      TaggedCons(tags, key, "");
      assert forall i :: 0 < i < |tags| ==> tags[i] == tags[1..][i - 1];
    }
  }

  lemma TaggedCons(tags: seq<Tag>, key: string, value: string)
    requires tags != []
    ensures Tagged(tags, key, value) <==>
      if tags[0].key == key then tags[0].value == value else Tagged(tags[1..], key, value)
  {
    if tags[0].key == key {
      if tags[0].value == value { assert FirstTag(tags, key, value, 0); }
      if i :| FirstTag(tags, key, value, i) { assert i == 0; }
    } else {
      if i :| FirstTag(tags, key, value, i) { assert FirstTag(tags[1..], key, value, i - 1); }
      if i :| FirstTag(tags[1..], key, value, i) { assert FirstTag(tags, key, value, i + 1); }
    }
  }

  /** Tagged with this partition and a namespace, or with neither and meant by default. */
  ghost predicate InPartition(tags: seq<Tag>, partition: string) {
    || (Tagged(tags, "consul.hashicorp.com/partition", partition) && !Untagged(tags, "consul.hashicorp.com/namespace"))
    || (partition == "default" && Untagged(tags, "consul.hashicorp.com/partition")
        && Untagged(tags, "consul.hashicorp.com/namespace"))
  }

  /** A task of the mesh, in the controller's partition if there are partitions. */
  ghost predicate IsOurs(l: Lister, t: EcsTask) {
    && t.arn.Some? && ParseTaskID(t.arn.value) != ""
    && Tagged(t.tags, "consul.hashicorp.com/mesh", "true")
    && (l.partition != "" ==> InPartition(t.tags, l.partition))
  }

  /** Exactly these are kept, each with its own cluster and namespace. */
  lemma KeepExactly(l: Lister, t: EcsTask)
    ensures Keep(l, t).Some? <==> IsOurs(l, t)
    ensures Keep(l, t).Some? ==>
      var state := Keep(l, t).value;
      && state.taskID == ParseTaskID(t.arn.value) && state.clusterARN == t.clusterArn && state.partition == l.partition
      && (l.partition == "" ==> state.ns == "")
      && (l.partition != "" ==>
            if Untagged(t.tags, "consul.hashicorp.com/namespace") then state.ns == "default"
            else Tagged(t.tags, "consul.hashicorp.com/namespace", state.ns))
  {
    TagValueExactly(t.tags, MESH_TAG, "true");
    TagValueExactly(t.tags, PARTITION_TAG, l.partition);
    TagValueExactly(t.tags, NAMESPACE_TAG, TagValue(t.tags, NAMESPACE_TAG));
  }

  type States = map<TaskID, TaskState>

  /** One unpaged read: a later task replaces an earlier one with its ID. */
  function Snapshot(l: Lister, tasks: seq<EcsTask>): States {
    if tasks == [] then map[]
    else Record(l, Snapshot(l, tasks[..|tasks| - 1]), tasks[|tasks| - 1])
  }

  function Record(l: Lister, m: States, t: EcsTask): States {
    match Keep(l, t)
    case Some(state) => m[state.taskID := state]
    case None => m
  }

  /** One of these tasks is kept as this state. */
  predicate Sourced(l: Lister, tasks: seq<EcsTask>, id: TaskID, state: TaskState) {
    exists t :: t in tasks && Keep(l, t) == Some(state) && state.taskID == id
  }

  /** Everything recorded comes from one of these tasks. */
  ghost predicate Sound(l: Lister, tasks: seq<EcsTask>, m: States) {
    forall id :: id in m ==> Sourced(l, tasks, id, m[id])
  }

  /** Each of these tasks, if kept, is recorded. */
  predicate Complete(l: Lister, tasks: seq<EcsTask>, m: States) {
    forall t :: t in tasks && Keep(l, t).Some? ==> Keep(l, t).value.taskID in m
  }

  predicate KeptAs(l: Lister, t: EcsTask, id: TaskID) {
    Keep(l, t).Some? && Keep(l, t).value.taskID == id
  }

  /** Kept tasks are told apart by their task IDs. */
  predicate DistinctIDs(l: Lister, tasks: seq<EcsTask>) {
    forall t, u ::
      (t in tasks && u in tasks && Keep(l, t).Some? && KeptAs(l, u, Keep(l, t).value.taskID)) ==>
        Keep(l, t) == Keep(l, u)
  }

  lemma {:induction false} SnapshotExact(l: Lister, tasks: seq<EcsTask>)
    ensures Sound(l, tasks, Snapshot(l, tasks)) && Complete(l, tasks, Snapshot(l, tasks))
  {
    if tasks != [] {
      var rest, last := tasks[..|tasks| - 1], tasks[|tasks| - 1];
      SnapshotExact(l, rest);
      assert tasks == rest + [last];
      RecordSound(l, tasks, Snapshot(l, rest), last);
    }
  }

  /** Of several kept tasks with one ID the last counts. */
  lemma {:induction false} SnapshotLast(l: Lister, tasks: seq<EcsTask>, i: nat)
    requires i < |tasks| && Keep(l, tasks[i]).Some?
    requires forall j :: i < j < |tasks| ==> !KeptAs(l, tasks[j], Keep(l, tasks[i]).value.taskID)
    ensures var state := Keep(l, tasks[i]).value;
      state.taskID in Snapshot(l, tasks) && Snapshot(l, tasks)[state.taskID] == state
  {
    if i < |tasks| - 1 {
      SnapshotLast(l, tasks[..|tasks| - 1], i);
    }
  }

  lemma RecordSound(l: Lister, tasks: seq<EcsTask>, m: States, t: EcsTask)
    requires t in tasks
    requires forall id :: id in m ==> Sourced(l, tasks, id, m[id])
    ensures Sound(l, tasks, Record(l, m, t))
  {
    var m' := Record(l, m, t);
    forall id | id in m' ensures Sourced(l, tasks, id, m'[id]) {
      if Keep(l, t).Some? && id == Keep(l, t).value.taskID {
        assert Keep(l, t) == Some(m'[id]);
      }
    }
  }

  lemma SourcedOnce(l: Lister, tasks: seq<EcsTask>, id: TaskID, a: TaskState, b: TaskState)
    requires DistinctIDs(l, tasks) && Sourced(l, tasks, id, a) && Sourced(l, tasks, id, b)
    ensures a == b
  {
    var t :| t in tasks && Keep(l, t) == Some(a) && a.taskID == id;
    var u :| u in tasks && Keep(l, u) == Some(b) && b.taskID == id;
    assert KeptAs(l, u, Keep(l, t).value.taskID);
  }

  lemma SourcedIn(l: Lister, tasks: seq<EcsTask>, id: TaskID, state: TaskState, m: States)
    requires Sourced(l, tasks, id, state) && Complete(l, tasks, m)
    ensures id in m
  {
  }

  /** With distinct IDs there is only one such record. */
  lemma RecordUnique(l: Lister, tasks: seq<EcsTask>, m: States, s: States)
    requires Sound(l, tasks, m) && Complete(l, tasks, m) && DistinctIDs(l, tasks)
    requires Sound(l, tasks, s) && Complete(l, tasks, s)
    ensures m == s
  {
    forall id | id in m ensures id in s && m[id] == s[id] {
      SourcedIn(l, tasks, id, m[id], s);
      SourcedOnce(l, tasks, id, m[id], s[id]);
    }
    forall id | id in s ensures id in m {
      SourcedIn(l, tasks, id, s[id], m);
    }
  }

  // Paging

  datatype Page = Page(arns: seq<string>, next: Option<string>)

  function ArnOf(t: EcsTask): string {
    if t.arn.Some? then t.arn.value else ""
  }

  function ArnsOf(tasks: seq<EcsTask>): seq<string> {
    seq(|tasks|, i requires 0 <= i < |tasks| => ArnOf(tasks[i]))
  }

  /** The tasks with one of these ARNs. */
  function Described(tasks: seq<EcsTask>, arns: set<string>): seq<EcsTask> {
    if tasks == [] then []
    else
      var last := tasks[|tasks| - 1];
      Described(tasks[..|tasks| - 1], arns) + if last.arn.Some? && last.arn.value in arns then [last] else []
  }

  lemma {:induction false} InDescribed(tasks: seq<EcsTask>, arns: set<string>, t: EcsTask)
    ensures t in Described(tasks, arns) <==> t in tasks && t.arn.Some? && t.arn.value in arns
  {
    if tasks != [] {
      InDescribed(tasks[..|tasks| - 1], arns, t);
      assert tasks == tasks[..|tasks| - 1] + [tasks[|tasks| - 1]];
    }
  }

  /** The index that a page token stands for; no token stands for the first page. */
  function PageStart(token: Option<string>): Option<nat> {
    if token.None? || token.value == "" then Some(0)
    else
      var index := Atoi(token.value);
      if index.None? || index.value < 0 then None else Some(index.value)
  }

  /** The ECS API over a fixed list of tasks. A page token is the index of the
      page's first task, and pageEnd says where the page that starts there ends;
      the mock's pages are always of one size. The k-th call succeeds if ok(k). */
  class EcsClient {
    const tasks: seq<EcsTask>
    const pageEnd: nat -> nat
    const ok: Oracle
    var calls: nat

    constructor (tasks: seq<EcsTask>, pageEnd: nat -> nat, ok: Oracle)
      ensures this.tasks == tasks && this.pageEnd == pageEnd && this.ok == ok && calls == 0
    {
      this.tasks, this.pageEnd, this.ok, calls := tasks, pageEnd, ok, 0;
    }

    /** The tasks of the page that starts here. */
    function PageOf(start: nat): seq<EcsTask> {
      if start < PageStop(start) then tasks[start..PageStop(start)] else []
    }

    function PageStop(start: nat): nat {
      if pageEnd(start) < |tasks| then pageEnd(start) else |tasks|
    }

    method ListTasks(token: Option<string>) returns (r: Result<Page, ()>)
      modifies this`calls
      ensures calls == old(calls) + 1 && (r.Ok? <==> ok(old(calls)) && PageStart(token).Some?)
      ensures r.Ok? ==>
        var start := PageStart(token).value; var end := pageEnd(start);
        && r.value.next == (if end < |tasks| then Some(Itoa(end)) else None)
        && r.value.arns == ArnsOf(PageOf(start))
    {
      calls := calls + 1;
      if !ok(calls - 1) { return Err(()); }
      var start := 0;
      if token.Some? && token.value != "" {
        var index := Atoi(token.value);
        if index.None? || index.value < 0 { return Err(()); }
        start := index.value;
      }
      var limit, next := |tasks|, None;
      var end := pageEnd(start);
      if end < |tasks| { limit, next := end, Some(Itoa(end)); }
      var arns := [];
      var i := start;
      while i < limit
        invariant start <= i && (i <= limit || i == start) && i - start == |arns|
        invariant start < limit ==> arns == ArnsOf(tasks[start..i])
        invariant start >= limit ==> arns == []
      {
        arns := arns + [ArnOf(tasks[i])];
        i := i + 1;
      }
      return Ok(Page(arns, next));
    }

    /** The tasks that have one of these ARNs, in the order of the list. */
    method DescribeTasks(arns: seq<string>) returns (r: Result<seq<EcsTask>, ()>)
      modifies this`calls
      ensures calls == old(calls) + 1 && (r.Ok? <==> ok(old(calls)))
      ensures r.Ok? ==> r.value == Described(tasks, Elements(arns))
    {
      calls := calls + 1;
      if !ok(calls - 1) { return Err(()); }
      var wanted := {};
      for i := 0 to |arns|
        invariant wanted == Elements(arns[..i])
      {
        assert arns[..i + 1] == arns[..i] + [arns[i]];
        wanted := wanted + {arns[i]};
      }
      assert arns[..|arns|] == arns;
      var found := [];
      for i := 0 to |tasks|
        invariant found == Described(tasks[..i], wanted)
      {
        assert tasks[..i + 1][..i] == tasks[..i];
        if tasks[i].arn.Some? && tasks[i].arn.value in wanted { found := found + [tasks[i]]; }
      }
      assert tasks[..|tasks|] == tasks;
      return Ok(found);
    }
  }

  /** Where paging stops: at the end, or before at the first empty page. */
  function Stop(pageEnd: nat -> nat, n: nat, start: nat): (stop: nat)
    requires start <= n
    ensures start <= stop <= n
    decreases n - start
  {
    var end := pageEnd(start);
    if start == n || end >= n then n
    else if end <= start then start
    else Stop(pageEnd, n, end)
  }

  predicate DistinctArns(tasks: seq<EcsTask>) {
    forall i, j :: 0 <= i < j < |tasks| && tasks[i].arn.Some? ==> tasks[i].arn != tasks[j].arn
  }

  /** Records the described tasks one after the other. */
  method RecordPage(l: Lister, m: States, page: seq<EcsTask>, ghost all: seq<EcsTask>) returns (m': States)
    requires (forall t :: t in page ==> t in all) && Sound(l, all, m)
    ensures Sound(l, all, m') && Complete(l, page, m') && m.Keys <= m'.Keys
    ensures forall id :: id in m' && id !in m ==> exists t :: t in page && KeptAs(l, t, id)
  {
    m' := m;
    for i := 0 to |page|
      invariant Sound(l, all, m') && m.Keys <= m'.Keys
      invariant forall k :: 0 <= k < i && Keep(l, page[k]).Some? ==> Keep(l, page[k]).value.taskID in m'
      invariant forall id :: id in m' && id !in m ==> exists t :: t in page && KeptAs(l, t, id)
    {
      RecordSound(l, all, m', page[i]);
      m' := Record(l, m', page[i]);
      assert Keep(l, page[i]).Some? ==> KeptAs(l, page[i], Keep(l, page[i]).value.taskID);
    }
  }

  /** The tasks before n have been read: every kept one is recorded, and nothing else
      (with distinct ARNs, nothing that lies behind). */
  ghost predicate ReadUpTo(l: Lister, tasks: seq<EcsTask>, n: nat, m: States)
    requires n <= |tasks|
  {
    && Sound(l, tasks, m) && Complete(l, tasks[..n], m)
    && (DistinctArns(tasks) ==> KnownFrom(l, tasks[..n], m))
  }

  /** One page's tasks described and recorded. */
  method ReadPage(l: Lister, client: EcsClient, arns: seq<string>, resources: States, ghost start: nat, ghost end: nat)
    returns (r: Result<States, ()>)
    requires start <= end <= |client.tasks| && arns == ArnsOf(client.tasks[start..end])
    requires ReadUpTo(l, client.tasks, start, resources)
    modifies client`calls
    ensures client.calls == old(client.calls) + 1 && (r.Ok? <==> client.ok(old(client.calls)))
    ensures r.Ok? ==> ReadUpTo(l, client.tasks, end, r.value)
  {
    var page := client.DescribeTasks(arns);
    if page.Err? { return Err(()); }
    forall t ensures t in page.value <==> t in client.tasks && t.arn.Some? && t.arn.value in arns {
      InDescribed(client.tasks, Elements(arns), t);
    }
    var longer := RecordPage(l, resources, page.value, client.tasks);
    PageRecorded(l, client.tasks, start, end, page.value, resources, longer);
    return Ok(longer);
  }

  lemma ArnsListed(tasks: seq<EcsTask>, start: nat, end: nat)
    requires start <= end <= |tasks|
    ensures forall i :: start <= i < end ==> ArnOf(tasks[i]) in ArnsOf(tasks[start..end])
    ensures forall a :: a in ArnsOf(tasks[start..end]) ==> exists i :: start <= i < end && ArnOf(tasks[i]) == a
  {
    var arns := ArnsOf(tasks[start..end]);
    forall i | start <= i < end ensures ArnOf(tasks[i]) in arns {
      assert arns[i - start] == ArnOf(tasks[i]);
    }
    forall a | a in arns ensures exists i :: start <= i < end && ArnOf(tasks[i]) == a {
      var k :| 0 <= k < |arns| && arns[k] == a;
      assert ArnOf(tasks[start + k]) == a;
    }
  }

  lemma PageRecorded(l: Lister, tasks: seq<EcsTask>, start: nat, end: nat, page: seq<EcsTask>, m: States, m': States)
    requires start <= end <= |tasks| && ReadUpTo(l, tasks, start, m)
    requires forall t :: t in page <==> t in tasks && t.arn.Some? && t.arn.value in ArnsOf(tasks[start..end])
    requires Sound(l, tasks, m') && Complete(l, page, m') && m.Keys <= m'.Keys
    requires forall id :: id in m' && id !in m ==> exists t :: t in page && KeptAs(l, t, id)
    ensures ReadUpTo(l, tasks, end, m')
  {
    ArnsListed(tasks, start, end);
    PageComplete(l, tasks, start, end, page, m');
    if DistinctArns(tasks) {
      PageKnown(l, tasks, start, end, ArnsOf(tasks[start..end]), page, m, m');
    }
  }

  /** An empty page is where paging stops; after any other it goes on, if at all, at
      the page's end, to which the next token leads. */
  lemma PageShape(client: EcsClient, start: nat)
    requires start <= |client.tasks|
    ensures var stop, end := Stop(client.pageEnd, |client.tasks|, start), client.PageStop(start);
      && PageStart(Some(Itoa(end))) == Some(end)
      && (ArnsOf(client.PageOf(start)) == [] ==> stop == start)
      && (ArnsOf(client.PageOf(start)) != [] ==>
            && start < end && ArnsOf(client.PageOf(start)) == ArnsOf(client.tasks[start..end])
            && stop == Stop(client.pageEnd, |client.tasks|, end))
  {
    AtoiItoa(client.PageStop(start));
  }

  /** fetchECSTasks. It succeeds if every call does; it then holds every kept task
      up to where paging stops, and nothing that is not a kept task. With distinct
      task IDs and non-empty pages this is one unpaged read of all tasks. */
  method FetchECSTasks(l: Lister, client: EcsClient) returns (r: Result<States, ()>)
    modifies client`calls
    ensures r.Ok? <==> AllSucceeded(client.ok, old(client.calls), client.calls)
    ensures r.Ok? ==> Fetched(l, client.tasks, client.pageEnd, r.value)
    ensures r.Ok? ==> RecordsOurs(l, client.tasks, client.pageEnd, r.value)
  {
    r := ReadPages(l, client);
    if r.Ok? {
      FetchedIsSnapshot(l, client.tasks, client.pageEnd, r.value);
      FetchedRecordsOurs(l, client.tasks, client.pageEnd, r.value);
    }
  }

  /** The loop over the pages. */
  method ReadPages(l: Lister, client: EcsClient) returns (r: Result<States, ()>)
    modifies client`calls
    ensures old(client.calls) <= client.calls
    ensures r.Ok? <==> AllSucceeded(client.ok, old(client.calls), client.calls)
    ensures r.Ok? ==> ReadUpTo(l, client.tasks, Stop(client.pageEnd, |client.tasks|, 0), r.value)
  {
    ghost var tasks := client.tasks;
    var resources: States := map[];
    var token := None;
    ghost var start, stop := 0, Stop(client.pageEnd, |tasks|, 0);
    while true
      invariant start <= |tasks| && stop == Stop(client.pageEnd, |tasks|, start)
      invariant PageStart(token) == Some(start)
      invariant old(client.calls) <= client.calls && AllSucceeded(client.ok, old(client.calls), client.calls)
      invariant ReadUpTo(l, tasks, start, resources)
      decreases |tasks| - start
    {
      var page := ReadNextPage(l, client, token, resources, start);
      if page.Err? { return Err(()); }
      resources, token := page.value.0, page.value.1;
      if token.None? { break; }
      start := client.PageStop(start);
    }
    return Ok(resources);
  }

  /** The states with the page at this token, and the token to go on with, if any. */
  method ReadNextPage(l: Lister, client: EcsClient, token: Option<string>, resources: States, ghost start: nat)
    returns (r: Result<(States, Option<string>), ()>)
    requires start <= |client.tasks| && PageStart(token) == Some(start) && ReadUpTo(l, client.tasks, start, resources)
    modifies client`calls
    ensures client.calls > old(client.calls) && (r.Ok? <==> AllSucceeded(client.ok, old(client.calls), client.calls))
    ensures var end, stop := client.PageStop(start), Stop(client.pageEnd, |client.tasks|, start);
      r.Ok? ==>
        if r.value.1.None? then ReadUpTo(l, client.tasks, stop, r.value.0)
        else
          && start < end && stop == Stop(client.pageEnd, |client.tasks|, end)
          && PageStart(r.value.1) == Some(end) && ReadUpTo(l, client.tasks, end, r.value.0)
  {
    var list := client.ListTasks(token);
    if list.Err? { return Err(()); }
    PageShape(client, start);
    if list.value.arns == [] { return Ok((resources, None)); }
    var longer := ReadPage(l, client, list.value.arns, resources, start, client.PageStop(start));
    if longer.Err? { return Err(()); }
    return Ok((longer.value, list.value.next));
  }

  /** What one unpaged read gives: of the tasks up to the first empty page, or of all
      if there is none. */
  ghost predicate Fetched(l: Lister, tasks: seq<EcsTask>, pageEnd: nat -> nat, m: States) {
    var stop := Stop(pageEnd, |tasks|, 0);
    && ReadUpTo(l, tasks, stop, m)
    && (DistinctTaskIDs(l, tasks) && DistinctArns(tasks) ==> m == Snapshot(l, tasks[..stop]))
    && (DistinctTaskIDs(l, tasks) && NonEmptyPages(pageEnd, |tasks|) ==> m == Snapshot(l, tasks))
  }

  lemma FetchedIsSnapshot(l: Lister, tasks: seq<EcsTask>, pageEnd: nat -> nat, m: States)
    requires ReadUpTo(l, tasks, Stop(pageEnd, |tasks|, 0), m)
    ensures Fetched(l, tasks, pageEnd, m)
  {
    if DistinctTaskIDs(l, tasks) && DistinctArns(tasks) {
      ReadIsSnapshotBefore(l, tasks, Stop(pageEnd, |tasks|, 0), m);
    }
    if DistinctTaskIDs(l, tasks) && NonEmptyPages(pageEnd, |tasks|) {
      NonEmptyPagesReachTheEnd(pageEnd, |tasks|, 0);
      ReadIsSnapshot(l, tasks, m);
    }
  }

  lemma ReadIsSnapshotBefore(l: Lister, tasks: seq<EcsTask>, stop: nat, m: States)
    requires stop <= |tasks| && ReadUpTo(l, tasks, stop, m) && DistinctTaskIDs(l, tasks) && DistinctArns(tasks)
    ensures m == Snapshot(l, tasks[..stop])
  {
    DistinctTaskIDsDistinct(l, tasks);
    PagingTransparent(l, tasks, stop, m);
  }

  lemma ReadIsSnapshot(l: Lister, tasks: seq<EcsTask>, m: States)
    requires ReadUpTo(l, tasks, |tasks|, m) && DistinctTaskIDs(l, tasks)
    ensures m == Snapshot(l, tasks)
  {
    DistinctTaskIDsDistinct(l, tasks);
    assert tasks[..|tasks|] == tasks;
    SoundIsSnapshot(l, tasks, m);
  }

  /** Every recorded task ID is that of one of these kept tasks. */
  ghost predicate KnownFrom(l: Lister, tasks: seq<EcsTask>, m: States) {
    forall id :: id in m ==> exists t :: t in tasks && KeptAs(l, t, id)
  }

  lemma PageComplete(l: Lister, tasks: seq<EcsTask>, start: nat, end: nat, page: seq<EcsTask>, m: States)
    requires start <= end <= |tasks|
    requires forall i :: start <= i < end && tasks[i].arn.Some? ==> tasks[i] in page
    requires Complete(l, page, m) && Complete(l, tasks[..start], m)
    ensures Complete(l, tasks[..end], m)
  {
    assert tasks[..end] == tasks[..start] + tasks[start..end];
  }

  lemma PageKnown(l: Lister, tasks: seq<EcsTask>, start: nat, end: nat, arns: seq<string>, page: seq<EcsTask>,
      m: States, m': States)
    requires start <= end <= |tasks| && DistinctArns(tasks)
    requires forall a :: a in arns ==> exists i :: start <= i < end && ArnOf(tasks[i]) == a
    requires forall t :: t in page ==> t in tasks && t.arn.Some? && t.arn.value in arns
    requires KnownFrom(l, tasks[..start], m)
    requires forall id :: id in m' && id !in m ==> exists t :: t in page && KeptAs(l, t, id)
    ensures KnownFrom(l, tasks[..end], m')
  {
    forall id | id in m' ensures exists t :: t in tasks[..end] && KeptAs(l, t, id) {
      if id in m {
        var t :| t in tasks[..start] && KeptAs(l, t, id);
        assert t in tasks[..end];
      } else {
        var t :| t in page && KeptAs(l, t, id);
        var j :| 0 <= j < |tasks| && tasks[j] == t;
        var i :| start <= i < end && ArnOf(tasks[i]) == t.arn.value;
        EmptyArnNotKept(l, t);
        assert i == j;
        assert tasks[..end][i] == t;
      }
    }
  }

  lemma EmptyArnNotKept(l: Lister, t: EcsTask)
    requires Keep(l, t).Some?
    ensures t.arn.value != ""
  {
    assert ParseTaskID("") == "";
  }

  /** Paging is transparent exactly up to the first empty page: with distinct
      ARNs and IDs the result is what one unpaged read of the tasks before it
      gives, and this is the whole only if no kept task lies behind it. */
  lemma PagingTransparent(l: Lister, tasks: seq<EcsTask>, stop: nat, m: States)
    requires stop <= |tasks| && DistinctIDs(l, tasks)
    requires Complete(l, tasks[..stop], m) && Sound(l, tasks, m) && KnownFrom(l, tasks[..stop], m)
    ensures m == Snapshot(l, tasks[..stop])
    ensures m == Snapshot(l, tasks) <==> Complete(l, tasks[stop..], m)
  {
    SoundBefore(l, tasks, stop, m);
    DistinctPart(l, tasks, stop);
    SoundIsSnapshot(l, tasks[..stop], m);
    SoundIsSnapshot(l, tasks, m);
    CompleteParts(l, tasks, stop, m);
  }

  predicate DistinctTaskIDs(l: Lister, tasks: seq<EcsTask>) {
    forall i, j :: 0 <= i < j < |tasks| && Keep(l, tasks[i]).Some? ==>
      !KeptAs(l, tasks[j], Keep(l, tasks[i]).value.taskID)
  }

  lemma DistinctTaskIDsDistinct(l: Lister, tasks: seq<EcsTask>)
    requires DistinctTaskIDs(l, tasks)
    ensures DistinctIDs(l, tasks)
  {
    forall t, u | t in tasks && u in tasks && Keep(l, t).Some? && KeptAs(l, u, Keep(l, t).value.taskID)
      ensures Keep(l, t) == Keep(l, u)
    {
      var i :| 0 <= i < |tasks| && tasks[i] == t;
      var j :| 0 <= j < |tasks| && tasks[j] == u;
      assert KeptAs(l, tasks[i], Keep(l, u).value.taskID);
    }
  }

  /** With distinct task IDs, an empty page loses something exactly when one of this
      controller's tasks lies behind it. */
  lemma PagingMissesExactly(l: Lister, tasks: seq<EcsTask>, stop: nat, m: States)
    requires stop <= |tasks| && DistinctTaskIDs(l, tasks)
    requires Complete(l, tasks[..stop], m) && Sound(l, tasks, m) && KnownFrom(l, tasks[..stop], m)
    ensures m == Snapshot(l, tasks) <==> forall t :: t in tasks[stop..] ==> Keep(l, t).None?
  {
    DistinctTaskIDsDistinct(l, tasks);
    PagingTransparent(l, tasks, stop, m);
    forall t | t in tasks[stop..] && Keep(l, t).Some? ensures Keep(l, t).value.taskID !in m {
      NotKeptBefore(l, tasks, stop, t);
    }
  }

  lemma NotKeptBefore(l: Lister, tasks: seq<EcsTask>, stop: nat, t: EcsTask)
    requires stop <= |tasks| && DistinctTaskIDs(l, tasks)
    requires t in tasks[stop..] && Keep(l, t).Some?
    ensures forall u :: u in tasks[..stop] ==> !KeptAs(l, u, Keep(l, t).value.taskID)
  {
    var j :| stop <= j < |tasks| && tasks[j] == t;
    forall i | 0 <= i < stop ensures !KeptAs(l, tasks[i], Keep(l, t).value.taskID) {
      assert Keep(l, tasks[i]).Some? ==> !KeptAs(l, tasks[j], Keep(l, tasks[i]).value.taskID);
    }
  }

  /** There is a task of this controller's with this ID. */
  ghost predicate Runs(l: Lister, tasks: seq<EcsTask>, id: TaskID) {
    exists i :: 0 <= i < |tasks| && IsOurs(l, tasks[i]) && ParseTaskID(tasks[i].arn.value) == id
  }

  /** With distinct task IDs and non-empty pages, the IDs recorded are exactly those of
      the controller's own tasks. */
  ghost predicate RecordsOurs(l: Lister, tasks: seq<EcsTask>, pageEnd: nat -> nat, m: States) {
    DistinctTaskIDs(l, tasks) && NonEmptyPages(pageEnd, |tasks|) ==> forall id :: id in m <==> Runs(l, tasks, id)
  }

  lemma FetchedRecordsOurs(l: Lister, tasks: seq<EcsTask>, pageEnd: nat -> nat, m: States)
    requires Fetched(l, tasks, pageEnd, m)
    ensures RecordsOurs(l, tasks, pageEnd, m)
  {
    if DistinctTaskIDs(l, tasks) && NonEmptyPages(pageEnd, |tasks|) {
      forall id ensures id in m <==> Runs(l, tasks, id) {
        FetchedExactly(l, tasks, pageEnd, m, id);
      }
    }
  }


  lemma FetchedExactly(l: Lister, tasks: seq<EcsTask>, pageEnd: nat -> nat, m: States, id: TaskID)
    requires Fetched(l, tasks, pageEnd, m) && DistinctTaskIDs(l, tasks) && NonEmptyPages(pageEnd, |tasks|)
    ensures id in m <==> Runs(l, tasks, id)
  {
    SnapshotExact(l, tasks);
    forall i | 0 <= i < |tasks| ensures Keep(l, tasks[i]).Some? <==> IsOurs(l, tasks[i]) {
      KeepExactly(l, tasks[i]);
    }
    if id in m {
      assert Sourced(l, tasks, id, m[id]);
      var t :| t in tasks && Keep(l, t) == Some(m[id]) && m[id].taskID == id;
      var i :| 0 <= i < |tasks| && tasks[i] == t;
    }
    if Runs(l, tasks, id) {
      var i :| 0 <= i < |tasks| && IsOurs(l, tasks[i]) && ParseTaskID(tasks[i].arn.value) == id;
      assert tasks[i] in tasks && Keep(l, tasks[i]).value.taskID == id;
    }
  }

  /** What lies behind the first empty page is not found. */
  lemma BehindEmptyPage(l: Lister, tasks: seq<EcsTask>, pageEnd: nat -> nat, m: States, i: nat)
    requires DistinctTaskIDs(l, tasks) && DistinctArns(tasks) && Fetched(l, tasks, pageEnd, m)
    requires Stop(pageEnd, |tasks|, 0) <= i < |tasks| && Keep(l, tasks[i]).Some?
    ensures Keep(l, tasks[i]).value.taskID !in m
  {
    NotKnownBehind(l, tasks, Stop(pageEnd, |tasks|, 0), m, i);
  }

  lemma NotKnownBehind(l: Lister, tasks: seq<EcsTask>, stop: nat, m: States, i: nat)
    requires DistinctTaskIDs(l, tasks) && stop <= i < |tasks| && Keep(l, tasks[i]).Some?
    requires KnownFrom(l, tasks[..stop], m)
    ensures Keep(l, tasks[i]).value.taskID !in m
  {
    NotKeptBefore(l, tasks, stop, tasks[i]);
  }

  /** The empty page need not be the last: with one at the start and a task behind it,
      fetchECSTasks finds none. */
  lemma EmptyPageHidesTask(l: Lister, t: EcsTask, pageEnd: nat -> nat, m: States)
    requires Keep(l, t).Some? && pageEnd(0) == 0 && Fetched(l, [t], pageEnd, m)
    ensures m == map[] && m != Snapshot(l, [t])
  {
    assert Stop(pageEnd, 1, 0) == 0;
    SnapshotExact(l, [t]);
    assert t in [t];
  }

  lemma DistinctPart(l: Lister, tasks: seq<EcsTask>, stop: nat)
    requires stop <= |tasks| && DistinctIDs(l, tasks)
    ensures DistinctIDs(l, tasks[..stop])
  {
    assert forall t :: t in tasks[..stop] ==> t in tasks;
  }

  lemma SoundIsSnapshot(l: Lister, tasks: seq<EcsTask>, m: States)
    requires DistinctIDs(l, tasks) && Sound(l, tasks, m)
    ensures m == Snapshot(l, tasks) <==> Complete(l, tasks, m)
  {
    SnapshotExact(l, tasks);
    if Complete(l, tasks, m) { RecordUnique(l, tasks, m, Snapshot(l, tasks)); }
  }

  lemma CompleteParts(l: Lister, tasks: seq<EcsTask>, stop: nat, m: States)
    requires stop <= |tasks|
    ensures Complete(l, tasks, m) <==> Complete(l, tasks[..stop], m) && Complete(l, tasks[stop..], m)
  {
    assert tasks == tasks[..stop] + tasks[stop..];
  }

  lemma SoundBefore(l: Lister, tasks: seq<EcsTask>, stop: nat, m: States)
    requires stop <= |tasks| && DistinctIDs(l, tasks) && Sound(l, tasks, m) && KnownFrom(l, tasks[..stop], m)
    ensures Sound(l, tasks[..stop], m)
  {
    forall id | id in m ensures Sourced(l, tasks[..stop], id, m[id]) {
      SourcedBefore(l, tasks, stop, id, m[id]);
    }
  }

  lemma SourcedBefore(l: Lister, tasks: seq<EcsTask>, stop: nat, id: TaskID, state: TaskState)
    requires stop <= |tasks| && DistinctIDs(l, tasks) && Sourced(l, tasks, id, state)
    requires exists t :: t in tasks[..stop] && KeptAs(l, t, id)
    ensures Sourced(l, tasks[..stop], id, state)
  {
    var t :| t in tasks[..stop] && KeptAs(l, t, id);
    assert t in tasks;
    assert Sourced(l, tasks, id, Keep(l, t).value);
    SourcedOnce(l, tasks, id, state, Keep(l, t).value);
  }

  predicate NonEmptyPages(pageEnd: nat -> nat, n: nat) {
    forall i: nat :: i < n ==> pageEnd(i) > i
  }

  /** Non-empty pages, of whatever sizes, reach the end. */
  lemma {:induction false} NonEmptyPagesReachTheEnd(pageEnd: nat -> nat, n: nat, start: nat)
    requires start <= n && NonEmptyPages(pageEnd, n)
    ensures Stop(pageEnd, n, start) == n
    decreases n - start
  {
    if start < n && pageEnd(start) < n { NonEmptyPagesReachTheEnd(pageEnd, n, pageEnd(start)); }
  }
}
