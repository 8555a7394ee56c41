# A verified model of Consul on ECS

Consul on ECS runs beside application containers in Amazon ECS tasks. Its
binaries register a task's service in Consul (`mesh-init`), copy container
health into Consul's checks (`health-sync`), start and stop Envoy and the
application in the right order (`envoy-entrypoint`, `app-entrypoint`), and, in
a controller, prepare Consul's ACL system and clean up after tasks that are
gone. This project models that behaviour in Dafny and proves what it
guarantees over whole runs, with any call failing at any time. One of its
string tools, the ARN parser of the IAM auth tests, is included.

How the model is built:

- Code that changes things step by step is a class with `modifies` clauses or a
  method with a loop. Each such method is proved equal to a specification
  function of its inputs and the old state, and the theorems are lemmas about
  those functions.
- Every Consul or ECS call may fail. An oracle `nat -> bool` says whether the
  k-th call of a run succeeds; theorems hold for every oracle, and where one
  speaks of a round without failures it means that round's own calls. A call that
  fails has changed nothing.
- Goroutines are steps of a state machine that interleave freely, and programs
  that take those steps; a channel is a pair of a buffer count and a closed flag. Ticks, timers, polls, signals and
  the child's exit are events that may come at any time.
- Order that Go leaves open (map iteration, `select`) is left open here too.

| file | what is in it |
|---|---|
| `Prelude.dfy` | results, and calls that may fail |
| `Strings.dfy` | split, join, byte-wise order, sorted lists, decimal numbers |
| `Arn.dfy` | the ARN parser and its canonical form |
| `TaskMetadata.dfy` | the task metadata and the questions asked of it |
| `HealthChecks.dfy` | check IDs, registration by `mesh-init`, lookup by `health-sync` |
| `HealthSync.dfy` | one round, one shutdown pass, the status cache, the full resync |
| `HealthSyncCommand.dfy` | `health-sync` as it runs |
| `HealthSyncRuns.dfy` | whole runs of its loop |
| `HealthSyncSystem.dfy` | the loop, the dataplane monitor and the signals together |
| `Processes.dfy`, `EnvoyEntrypoint.dfy` | main, monitor and command goroutines around Envoy |
| `EnvoyRuns.dfy` | their infinite runs under a fair scheduler |
| `EnvoySignals.dfy` | the signals that main receives and Envoy is sent |
| `EnvoyGoroutines.dfy` | the three goroutines as programs that take steps of that machine |
| `AppEntrypoint.dfy` | the three select loops around the application |
| `EcsTasks.dfy` | which tasks the controller takes for its own, and paging |
| `ConsulApi.dfy`, `Cleanup.dfy` | joining three sources by task, and deleting what is orphaned |
| `Registration.dfy` | what a task registers, and how the controller attributes it |
| `Namespaces.dfy` | namespaces and the cross-namespace policy |
| `Controller.dfy` | listing and reconciling as they run; two rounds |
| `Fleet.dfy` | all partitions' controllers interleaved with tasks that come and go |
| `AuthMethods.dfy` | the sorted merge into the shared auth method |
| `Startup.dfy` | read-then-write steps in general: guards, crashes and restarts |
| `StartupSteps.dfy` | the steps of one controller's start-up, and what holds however often it crashes |
| `StartupOutcome.dfy` | what a completed start-up leaves, and takes away |
| `StartupGrants.dfy` | what a completed start-up amounts to: which logins get which role, and what it may do |
| `StartupCommand.dfy` | the upserts as they run, with server-chosen rule IDs |

## Where the code falls short of what one might expect

Each of these is proved, with the exact condition or a concrete case.

- In service mode the check of a container named
  `sidecar-proxy-consul-dataplane` is the proxy's dataplane check, so it shows the
  whole task's health (`HealthSync.ShadowedContainerShows`,
  `HealthSync.ShadowedContainerMisreported`; `HealthChecks.RegisteredDistinct`
  says exactly which names are safe).
- For a gateway, `health-sync` also looks for the checks of any configured
  containers, which `mesh-init` never registers
  (`HealthChecks.MarkedIsRegisteredForGateway`).
- The shutdown pass leaves the remembered statuses stale; without the
  `shuttingDown` flag a later round would skip the write
  (`HealthSync.RememberedStatusStale`).
- A SIGTERM that arrives before Envoy's monitor waits for it is lost
  (`EnvoyEntrypoint.EarlySigtermIsLost`; `EnvoyEntrypoint.ToldExactly` has the
  exact condition).
- The dataplane monitor of `health-sync` loses an early SIGTERM in the same way.
  The task's checks then stay critical and it is never deregistered
  (`HealthSyncSystem.EarlySigtermStrandsTask`, `HealthSyncSystem.ToldExactly`).
- An empty page of tasks ends paging even if more pages follow, and the tasks
  behind it lose their tokens (`EcsTasks.EmptyPageHidesTask`,
  `EcsTasks.PagingMissesExactly`, `Controller.HiddenTaskLosesTokens`).
- The start-up neither compares nor merges an auth method's namespace rules: it
  overwrites them whenever it has something to add to the method's lists, and
  leaves them otherwise. So a controller without partitions removes those of one
  with them, and one that is restarted with partitions enabled never writes them
  (`StartupOutcome.OtherControllerDropsRules`,
  `StartupOutcome.EnablingPartitionsAddsNoRules`; the exact conditions are in
  `StartupOutcome.NamespaceRulesAfter` and `StartupOutcome.NothingElseIsLost`).
- It takes any policy of the right name for its own, and gives its link to no role
  that has another one (`StartupOutcome.StartUpAchieves`,
  `StartupOutcome.RoleLinkAfter`).
- A task that starts after its controller read ECS and logs in before it read
  the tokens loses its token (`Fleet.Fleet.LateTaskLosesToken`).
- A service whose user metadata overrides its task ID is removed while its task
  runs (`Registration.OverrideOrphansRunningTask`;
  `Registration.ServiceFindsItsTask` has the exact condition).
- Failed deregistrations are not reported
  (`Cleanup.DeregistrationFailureUnreported`; `Cleanup.ReconcileTaskLeaves` says
  exactly what remains of a task and when an error is returned).
- `subcommand/app-entrypoint/command_unix.go:97` says that the process has been
  told to exit; without a delay it has not, as the first SIGTERM is swallowed
  (`AppEntrypoint.SingleTermSwallowedWithoutDelay`).
- `controller/resource.go:97-100` names namespaces and tokens as what is
  listed; the code also lists services.

## Model

| member | source | states |
|---|---|---|
| Arn.ParseWritten | testutil/iamauthtest/arn.go:26-84 | every ARN written from colon-free fields is parsed by exactly those fields |
| Arn.ParseReadsFields | testutil/iamauthtest/arn.go:26-84 | whatever is accepted is such a written ARN, and the result's fields are the input's |
| Arn.AcceptsExactly | testutil/iamauthtest/arn.go:26-84 | an ARN is accepted iff it has six parts, the right prefix and service, a partition and an account, and names a user, a role or an assumed role with its session |
| Arn.CanonicalIsWritten | testutil/iamauthtest/arn.go:88-100 | the canonical form is an IAM ARN without region, path or session |
| Arn.CanonicalRoundTrip | testutil/iamauthtest/arn.go:26-100 | the canonical form of any accepted ARN is accepted, keeps partition, account and name, and is its own canonical form |
| Arn.CanonicalIdentifies | testutil/iamauthtest/arn.go:88-100 | two accepted ARNs share a canonical form iff partition, account, kind (roles and assumed roles alike) and name agree |
| TaskMetadata.TaskIDIsLastSegment | awsutil/awsutil.go:84-90 | the task ID is what follows the last slash |
| TaskMetadata.HasContainerStopped | awsutil/awsutil.go:122-136 | true iff every container of that name has desired and known status STOPPED, vacuously if none |
| TaskMetadata.AllAppContainersStopped | subcommand/envoy-entrypoint/task-monitor.go:94-113 | true iff every application container has stopped |
| HealthChecks.ConstructCheckID | subcommand/health-sync/checks.go:244-246 | the ID determines the container's name |
| HealthChecks.CheckIDsAre | subcommand/mesh-init/checks.go:21-54 | the IDs as written out: service and task, the container, and the proxy's own |
| HealthChecks.DataplaneCheckOf | subcommand/health-sync/checks.go:193-210 | which container names lead to a dataplane check: the dataplane's, and in service mode one more |
| HealthChecks.ConstructChecks | subcommand/mesh-init/checks.go:21-50 | builds one critical check per container for services, and the dataplane's, in order |
| HealthChecks.InitialAllCritical | subcommand/mesh-init/checks.go:21-50 | the catalog after registration holds exactly the registered checks, all critical |
| HealthChecks.MarkedIsRegistered | subcommand/health-sync/checks.go:66-93 | for a service, shutdown marks exactly the registered checks |
| HealthChecks.MarkedIsRegisteredForGateway | subcommand/mesh-init/checks.go:21-50 | for a gateway this holds iff no container but the dataplane is configured |
| HealthChecks.RegisteredDistinct | subcommand/mesh-init/checks.go:21-54 | registered IDs are pairwise distinct iff the names are, and neither reserved name is among them |
| HealthChecks.FetchHealthChecks | subcommand/health-sync/checks.go:18-63 | fails exactly if a lookup fails or the proxy has not one check; otherwise returns all found by ID |
| HealthSync.FetchAfterRegistration | subcommand/health-sync/checks.go:18-63 | fetching after registration gives back exactly what was registered |
| HealthSync.UpdateEvolves | subcommand/health-sync/checks.go:212-232 | one write is one call, changes the own copy, and at most that managed check's status; it shows the converted status iff it did not fail |
| HealthSync.UpdateFaithful | subcommand/health-sync/checks.go:114-164 | cache and catalog change together, for both kinds of container and any failure |
| HealthSync.UpdateAllCalls | subcommand/health-sync/checks.go:193-210 | exactly which calls are made for the dataplane's checks: in order, up to the first that fails and no further |
| HealthSync.SyncRoundFaithful | subcommand/health-sync/checks.go:99-187 | a round keeps the status-cache invariant and touches only managed checks, whatever fails |
| HealthSync.StartFaithful | subcommand/mesh-init/checks.go:21-50 | the invariant holds at the start |
| HealthSync.CleanRoundIsResync | subcommand/health-sync/checks.go:99-187 | a round without failures leaves the whole catalog as a stateless full resync would |
| HealthSync.CleanRoundMeaning | subcommand/health-sync/checks.go:160-187 | a container's check passes iff it is present and healthy; the dataplane's iff it and every present container are |
| HealthSync.RoundShows | subcommand/health-sync/checks.go:99-187 | in any round, each managed check for which no call failed says what the metadata says, whatever failed for the others |
| HealthSync.UnchangedNotWritten | subcommand/health-sync/checks.go:142-147 | a container whose health is the one remembered is not written |
| HealthSync.TaskHealthyExactly | subcommand/health-sync/checks.go:166-187 | the task is healthy iff the dataplane is there and it and every configured container that is there say so |
| HealthSync.ContainerHealthyExactly | subcommand/health-sync/checks.go:248-266 | a container is healthy iff the first of its name in the metadata says so |
| HealthSync.ShadowedContainerShows | subcommand/health-sync/checks.go:193-210 | in service mode a container of the shadowed name shows the task's health, and is reported rightly iff the two agree |
| HealthSync.ShadowedContainerMisreported | subcommand/health-sync/checks.go:193-210 | for every such configuration, metadata with the container healthy and its check critical |
| HealthSync.CriticalPassWrites | subcommand/health-sync/checks.go:66-93 | the shutdown pass writes nothing but critical |
| HealthSync.CleanCriticalPass | subcommand/health-sync/checks.go:66-93 | a pass without failures leaves every managed check critical |
| HealthSync.CriticalPassPerseveres | subcommand/health-sync/checks.go:66-93 | the pass leaves critical each managed check for which no call failed, whatever failed for the others |
| HealthSync.RememberedStatusStale | subcommand/health-sync/checks.go:66-93 | the pass breaks the invariant, and a later round would leave a healthy container critical |
| HealthSyncCommand.FindContainersToSync | subcommand/health-sync/checks.go:248-266 | splits the names into containers present and names missing |
| HealthSyncCommand.Command.UpdateConsulHealthStatus | subcommand/health-sync/checks.go:212-232 | changes the own copy even if Register fails, the catalog only if it succeeds |
| HealthSyncCommand.Command.HandleHealthForDataplaneContainer | subcommand/health-sync/checks.go:193-210 | service check, then proxy check, giving up at the first failure |
| HealthSyncCommand.Command.SetChecksCritical | subcommand/health-sync/checks.go:66-93 | tries every container, and fails if any did |
| HealthSyncCommand.Command.SyncChecks | subcommand/health-sync/checks.go:99-187 | is the round of the specification, or nothing if the metadata cannot be read |
| HealthSyncCommand.Command.DeregisterServices | subcommand/health-sync/command.go:237-268 | attempts service and proxy whatever became of the first |
| HealthSyncCommand.Command.RealRun | subcommand/health-sync/command.go:151-203 | on any events, the loop is the fold of its step; it has returned iff the dataplane was done, and is shutting down iff SIGTERM came |
| HealthSyncRuns.RunFaithful | subcommand/health-sync/command.go:151-175 | the invariant holds at every point of every run before shutdown |
| HealthSyncRuns.LoopFlags | subcommand/health-sync/command.go:151-203 | in every run the loop has returned iff the dataplane was done, and until then is shutting down iff SIGTERM came |
| HealthSyncRuns.QuietEventsIgnored | subcommand/health-sync/command.go:156-167 | a run is that without its server switches, its unreadable metadata and its ticks after SIGTERM |
| HealthSyncRuns.StatusCacheFaithful | subcommand/health-sync/checks.go:142-164 | in every run without SIGTERM so far, the remembered statuses are those the catalog shows |
| HealthSyncRuns.RoundAfterHistory | subcommand/health-sync/command.go:156-159 | after any history without SIGTERM, a round leaves each registered check for which it makes no failing call as the metadata says |
| HealthSyncRuns.CleanRoundForgetsHistory | subcommand/health-sync/checks.go:99-187 | after any history without SIGTERM, one clean round makes the catalog a function of the latest metadata alone |
| HealthSyncRuns.RegisteredManaged | subcommand/mesh-init/checks.go:21-50 | every registered check is one that health-sync writes |
| HealthSyncRuns.ShutdownMonotone | subcommand/health-sync/command.go:151-175 | after SIGTERM no event writes a passing status or makes a check pass |
| HealthSyncRuns.CriticalUntilDeregistered | subcommand/health-sync/command.go:168-175 | each registered check for which the pass makes no failing call stays critical until it is deregistered |
| HealthSyncRuns.DepartureLeavesNothing | subcommand/health-sync/command.go:237-268 | whatever happened before, a departure whose deregistrations succeed leaves none of the task's checks |
| HealthSyncRuns.FinishTrace | subcommand/health-sync/command.go:176-203 | the calls on leaving, in order, each attempted once, and when an error is returned |
| HealthSyncSystem.ToldExactly | subcommand/health-sync/dataplane_monitor.go:68-81 | in every run the monitor has been told of SIGTERM iff one arrived while it was waiting for it |
| HealthSyncSystem.ToldCanLeave | subcommand/health-sync/dataplane_monitor.go:40-81 | in any run in which one arrived in time, once the dataplane has stopped the loop can be told and leave without another |
| HealthSyncSystem.EarlySigtermStrandsTask | subcommand/health-sync/dataplane_monitor.go:68-81 | after a SIGTERM that came too early, and without another, nothing is ever deregistered and every check stays critical |
| HealthSyncSystem.MonitorHistory | subcommand/health-sync/dataplane_monitor.go:40-81 | in every run the monitor is done iff it heard of SIGTERM and then polled metadata with the dataplane stopped, or was cancelled, which is only after realRun has returned |
| HealthSyncSystem.DataplaneMonitor.Run | subcommand/health-sync/dataplane_monitor.go:40-81 | the two loops close the channel exactly then |
| HealthSyncSystem.DeregistrationOrder | subcommand/health-sync/command.go:154-203 | in every interleaving only registrations come before that; then service, proxy, logout, and the loop returns |
| EnvoyEntrypoint.StepInvariant | subcommand/envoy-entrypoint/command_unix.go:74-129 | every step of any goroutine keeps the invariant of channels, counters and child |
| EnvoyEntrypoint.SendsNeverBlock | entrypoint/cmd.go:48-66 | a goroutine about to send finds room and an open channel; none closes a channel twice |
| EnvoyEntrypoint.OneValuePerChannel | subcommand/envoy-entrypoint/task-monitor.go:50-92 | each channel carries at most one value in a run |
| EnvoyEntrypoint.MeasureNeverGrows | subcommand/envoy-entrypoint/command_unix.go:74-109 | no step adds to what is left to do |
| EnvoyEntrypoint.Progress | subcommand/envoy-entrypoint/command_unix.go:74-129 | once the child is gone some goroutine can always take a step that leaves less to do |
| EnvoyEntrypoint.ProgressPersists | subcommand/envoy-entrypoint/command_unix.go:86-108 | and that step stays possible under any other step that leaves as much to do, main's own receiving from the closed monitor channel included |
| EnvoyRuns.CleanupReturns | subcommand/envoy-entrypoint/command_unix.go:74-129 | in every fair infinite run, from any point at which the child is gone, main returns |
| EnvoyRuns.FairRunsReturn | subcommand/envoy-entrypoint/command_unix.go:74-129 | the same for every fair run from the program's start |
| EnvoyRuns.StoppedApplicationsStopEnvoy | subcommand/envoy-entrypoint/command_unix.go:91-107 | in every fair run, once the monitor has seen the applications stopped while Envoy runs, Envoy's group is sent SIGTERM or Envoy exits |
| EnvoyRuns.ArrivalLeadsToPolling | subcommand/envoy-entrypoint/task-monitor.go:50-92 | in every fair run, a SIGTERM that arrives in time makes the monitor poll, unless it is cancelled |
| EnvoyEntrypoint.CleanupCanReturn | subcommand/envoy-entrypoint/command_unix.go:122-129 | from every reachable state with the child gone the program can return without anything from outside, within the measure |
| EnvoyEntrypoint.ExitCode | subcommand/envoy-entrypoint/command_unix.go:74-109 | the result is the waited-for child's own code, or 1 if it never started |
| EnvoyEntrypoint.MonitorHistory | subcommand/envoy-entrypoint/task-monitor.go:50-92 | the monitor reports stopped applications only after SIGTERM and a later poll that shows it |
| EnvoyEntrypoint.ToldExactly | subcommand/envoy-entrypoint/task-monitor.go:79-92 | in every run the monitor has been told of SIGTERM iff one arrived while it was waiting for it |
| EnvoyEntrypoint.GroupTermNeedsArrival | subcommand/envoy-entrypoint/command_unix.go:91-120 | so Envoy is told to stop only if one did |
| EnvoyEntrypoint.EarlySigtermIsLost | subcommand/envoy-entrypoint/task-monitor.go:79-92 | a run in which SIGTERM arrives too early: without another one, no continuation ever polls or tells Envoy to stop |
| EnvoyGoroutines.Scheduler.CommandRun | entrypoint/cmd.go:48-66 | among any steps of the others it is held up only by its child, and ends with both channels closed |
| EnvoyGoroutines.Scheduler.TakeSend | subcommand/envoy-entrypoint/task-monitor.go:50-77 | a send always finds room, whatever the others did before it |
| EnvoyGoroutines.Scheduler.MonitorRun | subcommand/envoy-entrypoint/task-monitor.go:50-92 | ends having seen the applications stopped after SIGTERM, or cancelled |
| EnvoyGoroutines.Scheduler.RealRun | subcommand/envoy-entrypoint/command_unix.go:74-120 | is held up only by receiving, returns the waited-for child's code, or 1, and has forwarded the signals it received, in order, but SIGTERM, SIGCHLD and SIGURG |
| EnvoyGoroutines.Scheduler.Cleanup | subcommand/envoy-entrypoint/command_unix.go:122-129 | waits for the monitor, then for the command |
| EnvoyEntrypoint.GroupTermOnlyAfterStop | subcommand/envoy-entrypoint/command_unix.go:91-120 | at most one group SIGTERM, only after that; no SIGTERM, SIGCHLD or SIGURG is forwarded |
| EnvoySignals.ForwardsExactly | subcommand/envoy-entrypoint/command_unix.go:111-120 | in every run Envoy has been sent exactly the signals that main received, in order, but SIGTERM, SIGCHLD and SIGURG |
| EnvoySignals.ReceivesExactly | subcommand/envoy-entrypoint/command_unix.go:91-100 | main receives, in order, every signal that came while it was subscribed and its buffer empty; at most the last one still waits |
| EnvoySignals.WaitingIsForwarded | subcommand/envoy-entrypoint/command_unix.go:91-100 | in every fair run, a signal that waits for main in its select is forwarded, unless main leaves the select |
| AppEntrypoint.Command.WaitForSigterm | subcommand/app-entrypoint/command_unix.go:104-116 | ends at the first SIGTERM or with the child, having done as the fold says |
| AppEntrypoint.Command.WaitForShutdownDelay | subcommand/app-entrypoint/command_unix.go:121-136 | returns only when the child is done |
| AppEntrypoint.Command.WaitForAppExit | subcommand/app-entrypoint/command_unix.go:138-147 | returns only when the child is done |
| AppEntrypoint.Command.RealRun | subcommand/app-entrypoint/command_unix.go:78-100 | the three loops together are one fold over the events, and return the child's code |
| AppEntrypoint.ForwardsAllButFirstTerm | subcommand/app-entrypoint/command_unix.go:104-158 | the child gets every signal in order except the first SIGTERM, SIGCHLD and SIGURG |
| AppEntrypoint.GroupTermOnce | subcommand/app-entrypoint/command_unix.go:121-136 | exactly one group SIGTERM if a delay is set and its timer fires, else none |
| AppEntrypoint.SingleTermSwallowedWithoutDelay | subcommand/app-entrypoint/command_unix.go:89-100 | without a delay a single SIGTERM has no effect on the child |
| EcsTasks.Keep | controller/resource.go:176-199 | what is recorded of a task: its ID, found, with nothing else yet |
| EcsTasks.KeepExactly | controller/resource.go:427-451 | a task is kept iff its ARN gives an ID, its first mesh tag is "true" and, with partitions, its first tags name this partition and a namespace, or neither and this is the default one; and with which namespace, partition and cluster |
| EcsTasks.SnapshotLast | controller/resource.go:199-199 | of several kept tasks with one ID the last one's state is recorded |
| EcsTasks.SnapshotExact | controller/resource.go:146-206 | an unpaged read holds every kept task and only kept tasks |
| Strings.AtoiItoa | controller/mocks/ecs_client.go:33-40 | an index written in decimal as a page token is read back as itself |
| EcsTasks.EcsClient.ListTasks | controller/mocks/ecs_client.go:28-64 | the ARNs of the page at the token's index, in order, and the next token if tasks remain; a token that is no index is an error |
| EcsTasks.EcsClient.DescribeTasks | controller/mocks/ecs_client.go:66-83 | exactly the tasks with these ARNs, each as often as it is in the list and in that order |
| EcsTasks.FetchECSTasks | controller/resource.go:146-206 | succeeds iff every call does; with distinct task IDs and non-empty pages the IDs are exactly those of the mesh tasks of this partition, and the map is that of one unpaged read; of the tasks before the first empty page if ARNs are distinct |
| EcsTasks.FetchedExactly | controller/resource.go:146-206 | with distinct IDs and non-empty pages an ID is recorded iff a mesh task of this partition has it |
| EcsTasks.PagingTransparent | controller/resource.go:157-205 | what was recorded up to the stop is that of one unpaged read of the tasks before it, and of all iff every kept task behind it is recorded |
| EcsTasks.PagingMissesExactly | controller/resource.go:166-168 | with distinct task IDs it is the whole iff no kept task lies behind the first empty page |
| EcsTasks.BehindEmptyPage | controller/resource.go:166-168 | no task behind the first empty page is found |
| EcsTasks.EmptyPageHidesTask | controller/resource.go:166-168 | an empty first page with a next token, and a task behind it: the fetch finds none |
| Controller.HiddenTaskLosesTokens | controller/resource.go:166-168 | a round without failures then takes the tokens of a running task behind an empty page |
| EcsTasks.NonEmptyPagesReachTheEnd | controller/mocks/ecs_client.go:28-64 | non-empty pages of any sizes are read to the end |
| Cleanup.JoinConserves | controller/resource.go:97-141 | each token and service is in the state of its own task as often as listed and in no other; found iff ECS returned it |
| Cleanup.RoundDeletesOrphans | controller/resource.go:516-579 | whatever fails, a round deletes only what belongs to tasks its ECS read did not return; without an error all such tokens, and if none of its own calls fails all such services |
| Cleanup.CleanRoundConverges | controller/controller.go:45-66 | a round none of whose own calls fails leaves exactly what belongs to present tasks |
| Cleanup.OrphansOnlyShrink | controller/resource.go:549-579 | the orphaned tokens and services left are those there were without those deleted, counted together |
| Cleanup.OrphansExactly | controller/resource.go:210-289 | which tokens and services count as orphaned, in terms of partition, namespace, node, cluster and task ID |
| Cleanup.NothingToDo | controller/resource.go:516-542 | present tasks cause no call |
| Cleanup.TaskGone | controller/resource.go:516-579 | an absent task none of whose own calls fails is gone |
| Cleanup.RoundPerseveres | controller/controller.go:57-62 | and is so at the end of the round, whatever failed for the tasks before and after it |
| Cleanup.ReconcileTaskLeaves | controller/resource.go:516-579 | for every absent task: an error iff a token deletion failed; a token remains iff its deletion or one before it failed; a service iff every call made for it failed |
| Cleanup.ReconciledWithoutErrorLeaves | controller/resource.go:562-579 | reconciled without error, its tokens are gone, and its services iff for each that was there some call succeeded |
| Cleanup.DeregistrationFailureUnreported | controller/resource.go:562-579 | a concrete case of a task reconciled without error although its service is still there |
| Registration.MergeMeta | subcommand/mesh-init/command.go:551-563 | the union of both maps in which the second wins |
| Registration.ConstructRegistration | subcommand/mesh-init/command.go:252-281 | the service or gateway registered for the task, with its checks |
| Registration.ConstructProxyRegistration | subcommand/mesh-init/command.go:284-312 | the proxy, with its service's metadata and only the dataplane's check |
| Registration.Register | subcommand/mesh-init/command.go:112-140 | the registrations together carry exactly the checks health-sync takes over |
| Registration.RegisteredMeta | subcommand/mesh-init/command.go:252-261 | each key has the user's value, or else the program's for the task ID, its ARN and the source, or is not there |
| Registration.ServiceFindsItsTask | controller/resource.go:600-607 | the controller attributes a registered service to its task iff user metadata leaves the task ID alone |
| Registration.OrphanedWithItsTask | controller/resource.go:259-289 | such a service is orphaned iff its own task was not returned by ECS |
| Registration.OverrideOrphansRunningTask | subcommand/mesh-init/command.go:257-261 | otherwise a running task's service is removed by a clean round |
| Namespaces.UpsertCrossNSPolicy | controller/resource.go:318-372 | is the policy step of the specification, call by call |
| Namespaces.CreateNamespaces | controller/resource.go:379-416 | creates exactly the wanted namespaces that are missing, going on after failures |
| Namespaces.NamespacesReconciled | controller/resource.go:293-416 | only present tasks' namespaces are created, with the policy; default keeps its links and gains the policy; nothing else changes |
| Namespaces.CreatesExactly | controller/resource.go:293-416 | a namespace is created only for a task found in ECS, without an error for every such task, and none without partitions |
| Namespaces.ReconcileFailsExactly | controller/resource.go:293-416 | an error iff a call failed or default is missing; no namespace is created if the policy was not seen to |
| Namespaces.CreateAllPerseveres | controller/resource.go:405-416 | creating goes on after failures: each creation that does not fail itself is made |
| Namespaces.ReconcilePerseveres | controller/resource.go:293-416 | the same for the wanted namespaces once the policy is in place |
| Namespaces.ReconciledSettles | controller/resource.go:293-416 | success leaves nothing to do |
| Namespaces.SettledIdle | controller/resource.go:293-416 | then repeating it writes nothing |
| Controller.FetchACLState | controller/resource.go:210-257 | lists each visible token once and groups it under its task |
| Controller.FetchServiceState | controller/resource.go:259-289 | the same for services; one without a task ID fails the whole |
| Controller.List | controller/resource.go:97-141 | writes nothing; asks ECS before Consul; fails iff a source fails; otherwise one resource per task ID of the join |
| Controller.DeleteTaskTokens | controller/resource.go:549-559 | stops at the first token that cannot be deleted |
| Controller.DeregisterTaskServices | controller/resource.go:562-579 | goes on after failures, and reports none |
| Controller.ReconcileResource | controller/resource.go:516-542 | does nothing for a present task |
| Controller.Reconcile | controller/controller.go:45-66 | list, then namespaces, then every resource, going on after errors: each absent resource none of whose own calls fails is gone at the end; the orphans become fewer by exactly what was deleted |
| Controller.RoundShrinksOrphans | controller/controller.go:45-66 | over a whole round, whatever fails and whatever namespaces it creates, none but orphans is deleted and each deletion lowers their number |
| Controller.RoundConverges | controller/controller.go:45-66 | a whole round none of whose own calls fails leaves no orphan and takes nothing else |
| Controller.RoundExactly | controller/controller.go:45-66 | the tokens and services left by a round none of whose own calls fails are exactly those not orphaned, spelled out |
| Controller.RoundSpares | controller/controller.go:45-66 | whatever fails, what a round takes was orphaned in those terms |
| Controller.FirstRoundSettles | controller/controller.go:45-66 | and has settled the namespaces |
| Controller.SecondRoundWritesNothing | controller/controller.go:45-66 | where nothing is orphaned or unsettled, a round writes nothing, whatever fails |
| Controller.TwoRounds | controller/controller.go:30-66 | two rounds in a row over paged ECS: after a first without failures exactly what belongs to no mesh task of this partition is gone, and the second changes nothing, whatever fails in it |
| Fleet.Fleet.JoinedMayClean | controller/resource.go:97-141 | whatever was read when, the join gives an absent resource nothing of a task that ECS returned |
| Fleet.Fleet.TokenRemovalSafe | controller/resource.go:549-559 | in every interleaving, a token that a controller's step takes out of the world is of its partition and belonged to a task its ECS reads in this round did not return |
| Fleet.Fleet.ServiceRemovalSafe | controller/resource.go:562-579 | the same for services |
| Fleet.Fleet.ListedTaskLosesNothing | controller/resource.go:97-141 | no controller's step takes a token or service of a task that its own partition's controller was shown in the current round |
| Fleet.Fleet.LateTaskLosesToken | controller/resource.go:105-113 | a running, well-tagged task that starts between the reads does lose its token |
| Fleet.Fleet.ReusedAccessorLosesToken | controller/resource.go:549-559 | deletion goes by accessor: a run in which a reused accessor costs a listed task its token |
| Fleet.Fleet.ControllerRoundIsRun | controller/controller.go:45-66 | every round as the running controller is proved to make it, failures included, is a run of this machine by that controller's steps alone, with the same tokens and services at the end |
| AuthMethods.UniqueStrings | subcommand/controller/command.go:549-565 | the sorted list of the elements, each once |
| AuthMethods.SortedUniqueIs | subcommand/controller/command.go:549-565 | which is the only such list |
| AuthMethods.SkipExactly | subcommand/controller/command.go:379-383 | the write is skipped iff the stored lists are sorted and already contain ours |
| AuthMethods.UpsertIsUnion | subcommand/controller/command.go:339-407 | afterwards exactly the union of principals and of tags is stored |
| AuthMethods.UpsertAllIsUnion | subcommand/controller/command.go:339-407 | any number of controllers, one after the other, leave the union of all |
| AuthMethods.UpsertsCommute | subcommand/controller/command.go:339-407 | in whatever order and however often: the stored lists are the same |
| Startup.PutAddsNoDuplicate | subcommand/controller/command.go:590-625 | upserting a rule adds none if one matches, and touches no other |
| Startup.ApplySettles | subcommand/controller/command.go:312-504 | after a step, the guard under which the code finds nothing to do is met |
| Startup.SettledIsIdle | subcommand/controller/command.go:312-504 | where its guard is met a step changes nothing |
| Startup.SettledStays | subcommand/controller/command.go:191-305 | no compatible step makes a met guard unmet (which is not to say that it takes nothing away) |
| Startup.RestartsReach | subcommand/controller/command.go:191-305 | after any crashes and restarts the state is that of one run to the furthest point reached |
| Startup.RunWritesPolicy | subcommand/controller/command.go:477-504 | a policy is written only by a step, with that step's contents |
| Startup.RunLinksOnce | subcommand/controller/command.go:676-710 | the anonymous token gains at most the one link |
| StartupSteps.StepsCompatible | subcommand/controller/command.go:191-305 | all steps of any two controllers that agree on the node's address leave each other's guards met |
| StartupSteps.CrashRestartConverges | subcommand/controller/command.go:191-305 | stopped after any write, any number of times, and run to the end: the result of one uninterrupted run |
| StartupSteps.NothingDangles | subcommand/controller/command.go:191-305 | wherever it was stopped, no role, rule or token refers to something missing, nor will the next write |
| StartupSteps.NoDuplicates | subcommand/controller/command.go:231-295 | each of the four rules is there once unless it was duplicated before, and is first among those that match |
| StartupOutcome.ApplyAchieves | subcommand/controller/command.go:312-504 | a step achieves its purpose (the policy's contents, the role's link, the method's namespace rules included) iff nothing else was in its place |
| StartupOutcome.OutcomeAt | subcommand/controller/command.go:191-305 | in the place of each step a run leaves what that step alone would have left |
| StartupOutcome.StartUpAchieves | subcommand/controller/command.go:191-305 | however often restarted, a completed start-up achieves the purpose of each of its steps iff nothing else was in its place |
| StartupOutcome.NamespaceRulesAfter | subcommand/controller/command.go:379-395 | the namespace rules at the end are this controller's iff the method was not there, was to be updated, or had them |
| StartupOutcome.RoleLinkAfter | subcommand/controller/command.go:432-445 | a gateway role ends up linked to the controller's policy iff it was not there, had no links, or had this one |
| StartupOutcome.ReplacedTaskConverges | subcommand/controller/command.go:793-803 | the same convergence where each restart may be at another address of the node |
| StartupOutcome.ControllersCoexist | subcommand/controller/command.go:191-305 | after any steps of another controller, repeating a completed start-up is idle and what it achieved still holds; its namespace rules are as they were iff the other does not overwrite them |
| StartupOutcome.OtherControllerDropsRules | subcommand/controller/command.go:379-395 | a controller without partitions removes the namespace rules of one with them, which a restart does not restore |
| StartupOutcome.EnablingPartitionsAddsNoRules | subcommand/controller/command.go:379-395 | a controller restarted with partitions enabled does not add its namespace rules |
| StartupOutcome.NothingElseIsLost | subcommand/controller/command.go:191-305 | nothing that was there is lost but, under exact conditions, the method's namespace rules and the node's address; other binding rules are as they were |
| StartupGrants.KindIsInjective | subcommand/controller/command.go:238-258 | selectors of different kinds differ |
| StartupGrants.StartUpGrants | subcommand/controller/command.go:231-295 | where nothing was before, a completed start-up, however often restarted, binds the logins of each kind of gateway to that kind's role alone, and the role has that kind's policy with its text, or none |
| StartupGrants.StartUpBindsServices | subcommand/controller/command.go:231-237 | any login is bound to the service its tag names |
| StartupGrants.StartUpTrusts | subcommand/controller/command.go:192-229 | the auth method trusts the roles at the configured path of the account, looks at three tags, and has the namespace rule iff partitions are enabled |
| StartupGrants.StartUpRegisters | subcommand/controller/command.go:273-305 | the partition is there if partitions are enabled, and the cluster's node is registered in it at its present address |
| StartupGrants.StartUpAttaches | subcommand/controller/command.go:636-717 | the anonymous token has the policy iff this is the primary datacenter or it had it before |
| StartupGrants.StartUpCreatesAnonymousPolicy | subcommand/controller/command.go:676-710 | where there was none, the policy created for it is the one for anonymous tokens |
| StartupGrants.PrimaryExactly | subcommand/controller/command.go:735-748 | which datacenter is the primary one, and when that is not known |
| StartupGrants.TrimExactly | subcommand/controller/command.go:196-200 | the role path without the slashes at its ends |
| StartupCommand.UpdateIsPut | subcommand/controller/command.go:590-625 | updating by the ID found in the listing replaces the first matching rule |
| StartupCommand.Command.UpsertPartition | subcommand/controller/command.go:312-331 | is its step, or nothing if a call fails |
| StartupCommand.Command.UpsertConsulPolicy | subcommand/controller/command.go:477-504 | is its step, or nothing if a call fails |
| StartupCommand.Command.UpsertRole | subcommand/controller/command.go:423-462 | creates the role, or links the policy if the role has none |
| StartupCommand.Command.UpsertAuthMethod | subcommand/controller/command.go:339-407 | is the merge, or nothing if a call fails |
| StartupCommand.Command.UpsertBindingRule | subcommand/controller/command.go:590-625 | with any IDs the server chooses, is the replacement of the first match or an addition |
| StartupCommand.Command.UpsertAnonymousTokenPolicy | subcommand/controller/command.go:636-717 | makes its steps in order, only in the primary datacenter, all iff no call fails |
| StartupCommand.Command.RegisterNode | subcommand/controller/command.go:793-803 | is its step, or nothing if the call fails |
| StartupCommand.Command.UpsertConsulResources | subcommand/controller/command.go:191-305 | makes a first part of the steps, and all of them iff no call fails and the configuration is accepted; if so, and nothing was there before, each kind of gateway has its own role and policy |

## Left out

- EnvoyEntrypoint: the state that the goroutines share is one value, and a step replaces it; the programs in `EnvoyGoroutines.dfy` take those steps.
- EnvoyRuns.CleanupReturns: fairness is assumed of the scheduler and of `select`: no step that stays possible is put off for ever.
- Fleet: works on values; each read and each delete is one step, and namespace reconciliation, which deletes nothing, is not part of the interleaving.
- Fleet.Fleet.ListedTaskLosesNothing: it is assumed that an accessor or a service ID in use keeps its owner; a controller that deletes by an ID it read earlier removes whatever has that ID by then (`Fleet.Fleet.ReusedAccessorLosesToken`).
- Namespaces.NamespacesReconciled: a partition without a default namespace is an error here; the program would dereference nil.
- StartupSteps.CrashRestartConverges: no one else writes between a step's read and its write; two controllers updating the auth method at the very same time lose one update, as `subcommand/controller/command.go:337-338` says.
- StartupSteps.NoDuplicates: the server lists binding rules in one fixed order.
- Startup.RunIntact: references of binding rules that other programs created to roles are not followed.
- HealthSync: a Register that took effect but was reported as failed is not modelled, and the status-cache invariant would not survive it.
- HealthChecks.ConstructChecks: a check's display name, type, notes and output text, and the node, namespace and partition, which are constant.
- HealthSyncCommand.Command.UpdateConsulHealthStatus: the check's output text, which names the ECS status last written.
- TokenMeta: the parsing of a token's JSON description is a parameter, an arbitrary partial function to task ID and cluster.
- Registration.ConstructRegistration: addresses, ports, tagged addresses and weights, which nothing modelled here reads back.
- Registration.ConstructProxyRegistration: likewise, and the proxy's own settings.
- Configuration: validation, defaults, the lower-cased service name and the account ID parsed from the cluster's ARN are given.
- AuthMethods.Upsert: fields fixed by the program (name, type, description) and values in the stored lists that are not strings.
- Policy templates: texts are symbols for what their template depends on; rendering does not fail.
- EcsTasks.EcsClient.ListTasks: indexes have no upper bound, a negative index is an error rather than a panic, and page sizes may vary where the mock's do not.
- Network plumbing: HTTP, gRPC, the AWS SDK, TLS, credentials, server discovery; switching servers changes nothing in the model.
- Real time: ticks, polls and timers are events; nothing is said about how long anything takes.
- Service registration payloads and defaults, locality, file copying, DNS and iptables rules, logging, CLI flags, documentation generation.
