# A verified model of Agama

Agama installs an operating system. Its manager runs work as tasks that wait for each other, keeps the
wanted configuration and the state of the network, and tells clients about progress through events.
This project models those parts in Dafny and proves what they promise over every input, every run and
every interleaving. `dafny verify dfyconfig.toml` checks everything.

## What is modelled

**Tasks** (`TaskManager.dfy`, `Scheduler*.dfy`, `Runtime.dfy`). The state that all tasks share is a class
whose methods are the critical sections of the task manager. Around it, a state machine lets any number
of tasks take atomic steps in any order: allocate an id, store the description, announce it, check the
dependencies under the read lock, create the `Notified` future, sleep, wake, be cancelled, start,
finish. A lock section is one step, except that a check that finds an unfinished dependency keeps the
read lock until the future exists; writers wait for it. The notification is a counter. The work of a
task is an arbitrary function of its id and of the failed dependencies it is told about. Dependencies
may be any ids, even of tasks that do not exist yet; what is promised for ordered dependencies is then
a special case. `Runtime` runs the same steps on the class.

**Graphs and runs of the service** (`Actions.dfy`, `ConfigurationOrder.dfy`, `ManagerService.dfy`,
`Installation*.dfy`, `ConfigurationNames.dfy`, `ServiceProgress.dfy`, `ProductIssue.dfy`,
`StageEvents.dfy`). The two actions spawn their tasks one by one; the guarded
handlers accept or reject requests; a run of the service interleaves requests, spawning, stage changes
made by the work of the last two installation tasks, and all task steps. What the registry of products
answers to a configuration is part of the request; a default product is a first request. The results
about names and scopes (`InstallationNames.dfy`, `ConfigurationNames.dfy`) are about what clients see in
the log.

**The monitor** (`Monitor*.dfy`). The client loop, what its status shows after any feed, and the list of
live tasks it keeps by replaying events, stale ones included, on top of a snapshot.

**Network** (`Network*.dfy`, `BondOptions.dfy`). The operations of the network state as functions on
lists (`Network.dfy`), their properties, and `NetworkState` as the source has it: fields updated in
place, loops over vectors, hash tables taken apart in an order that is chosen while running
(`NetworkService.dfy`). `NetworkAcceptance.dfy` says what a change makes of each connection and when
it is accepted, `NetworkChanges.dfy` what counts as changed, and `NetworkConversion.dfy` what the
settings of a connection mean. `NetworkLinks.dfy` has the tables for wireless, VLAN and 802.1X settings, and
`NetworkDeclared.dfy` and `NetworkPortSets.dfy` say what of a connection and of its ports survives the
way to the other form and back. New uuids are numbers above all that were given out.

**Proxy** (`Proxy*.dfy`). Reading the sysconfig file, editing it in place, and the service on top. A
file is a text; lines are split and joined as the standard library of Rust does. `ProxyMeaning.dfy` says
what the keys and the lines of the file mean.

**Small texts and joins** (`Locale.dfy`, `Collections.dfy`, `Joins.dfy`). Keymap and locale ids, and the
two helpers of the web client that join lists by key.

## What the proofs found

- `set_ports` and the conversion of the configuration look at different ports when a connection is both a
  bond and a bridge (the conversion takes those of the bond, the update those of the bridge). Then, and
  only then, can a convertible configuration with distinct ids be refused: `SucceedsIfProvided` gives the
  exact condition, `BondAndBridgeIsHalfDone` an input that is refused after the connection was added.
- A change that lists a new id more than once is refused half-way, always and only then: the entries of a
  convertible change can be merged if and only if every repeated id is known (`MergesUnlessRepeated`);
  otherwise the update reports an unknown uuid and a connection with the new id stays behind
  (`RepeatedIsHalfDone`; `RepeatedIdIsHalfDone` is the smallest input).
- For a known id that is listed more than once, the order in which the hash table of ports is taken apart
  decides which settings the connection gets (`Source`). `AcceptedExactly` gives the condition of
  acceptance for changes with whatever ids, and `OrderDecides` a change that one order accepts and
  another refuses.
- A known connection that a change does not list keeps its settings exactly if no connection names it as
  a port, or a listed one has its id as interface, or its settings are the default ones
  (`SettingsKeptExactly`). Otherwise they are reset to the default (`NamedPortIsReset`).
- The comment at rust/agama-lib/src/monitor.rs:457 says that the monitor exits on idle only after it saw
  the system busy. The flag is set by every event before it is tested (line 380), so the test never
  holds anything back: the promise is broken exactly when the monitor starts idle and the first event
  that it handles starts no progress and no task (`IdleWithoutWork`), for example a change of the stage
  (`StageEndsIdle`).
- A configuration with an unknown product is refused, but the product that was selected is lost
  (`RefusedChangesNothing`), and the issue that tells about a missing product is not set. In every run the
  issue is right unless that happened last (`IssueTellsExactly`); then an installation is accepted without
  a product (`AcceptedHasProduct`), for which `InstallsWithoutProduct` is a run.
- Which connections survive being declared and converted again is given by `ConnectionKeptExactly`: WEP
  keys, the maximum age and ageing time of a bridge, a custom MAC address and the kinds of connections
  that have no settings are lost, and so are bond options that cannot be printed. The port sets of a
  configuration survive exactly under the condition of `RoundTripExactly`. Parsing and printing of LEAP
  as the authentication of WEP gives another one (`WepAuthExactly`).
- A line of the proxy file that is read as a setting but that does not begin with the key as it is
  written is missed by the editor: `SOCKS5_PROXY=` (`SocksAlias`), `http_PROXY=` (`LowerAlias`), or a space
  before the equals sign (`SpaceAlias`). `EditableExactly` says for which files every new value is read
  back; files with these lines are not among them (`MissedFiles`, `LaterAliasIsMissed`).
- In an editable file every value is read back as it was asked for if and only if none of them holds a
  line feed, has a quote at either end, or is an empty URL (`ReadsAsAskedExactly`).
- `extendCollection` and `mergeSources` join the key fields with a bar: with a bar inside a field, items
  that differ in their key fields match (`BarsCollide`); without one they match exactly if all key fields
  agree (`SameKeyExactly`).

## Model

| member | source | states |
|---|---|---|
| `TaskManagement.TaskManager.NextId` | rust/agama-manager/src/task_manager.rs:210-215 | Ids are handed out in order and each once; nothing else of the shared state changes. |
| `TaskManagement.TaskManager.StoreMetadata` | rust/agama-manager/src/task_manager.rs:230-234 | The description is registered under its id and the rest of the shared state stays. |
| `TaskManagement.TaskManager.CheckDependencies` | rust/agama-manager/src/task_manager.rs:252-266 | Done exactly if every dependency succeeded or failed, and then the failed ones in the order of the dependencies. |
| `TaskManagement.TaskManager.Cancel` | rust/agama-manager/src/task_manager.rs:282-294 | The whole new state of a cancelled task: failed, unregistered, waiters notified, its end announced with the number of tasks left. |
| `TaskManagement.TaskManager.Finish` | rust/agama-manager/src/task_manager.rs:305-326 | The same for a task that ran, in the set that its result says. |
| `TaskManagement.TaskManager.GetAllMetadata` | rust/agama-manager/src/task_manager.rs:357-360 | The snapshot holds each registered description once, in some order. |
| `TaskRuntime.Runtime.Step` | rust/agama-manager/src/task_manager.rs:218-328 | A step on the shared object is exactly the step of the state machine. |
| `TaskRuntime.Runtime.RunAll` | rust/agama-manager/src/task_manager.rs:218-328 | So a sequence of steps on the shared object ends in the state of the run. |
| `SchedulerInvariant.StepInv` | rust/agama-manager/src/task_manager.rs:218-328 | Every step of every task keeps the invariant that ties phases, the four collections, the notification counter and the event log together. |
| `SchedulerInvariant.ReachableInv` | rust/agama-manager/src/task_manager.rs:171-328 | The invariant holds at the end of every run from the empty manager. |
| `SchedulerTheorems.Partition` | rust/agama-manager/src/task_manager.rs:210-234 | In every reachable state each id below the next one is in exactly one of: not registered yet, registered, succeeded, failed; others are in none. |
| `SchedulerTheorems.NoLostWakeup` | rust/agama-manager/src/task_manager.rs:268-272 | In every reachable state a sleeping task whose dependencies are all resolved can wake. |
| `SchedulerTheorems.EventGrammar` | rust/agama-manager/src/task_manager.rs:236-326 | The events of a finished task are added, started unless it was cancelled, finished, in this order and each once; cancelled means that it may not run always and a dependency failed. |
| `SchedulerTheorems.RemainingCounts` | rust/agama-manager/src/task_manager.rs:286-293 | The end of a task is announced with the number of tasks that are registered and not finished, seen in the phases of all tasks. |
| `SchedulerTheorems.StartsAfterDependencies` | rust/agama-manager/src/task_manager.rs:251-301 | In the log of every run, a task starts only after the end of each of its dependencies was announced. |
| `SchedulerTheorems.ScheduleIndependence` | rust/agama-manager/src/task_manager.rs:245-327 | Under every interleaving a finished task has the outcome of one recursive function over its dependencies, and its work is told exactly the dependencies that this function says fail, in their order. |
| `SchedulerTheorems.QuiescentPhase` | rust/agama-manager/src/task_manager.rs:245-327 | When the manager cannot step by itself, every task is finished, or asleep with an unresolved dependency. |
| `SchedulerTheorems.FinishesIffGrounded` | rust/agama-manager/src/task_manager.rs:251-273 | When the manager cannot step by itself, a task is finished if and only if unrolling its dependencies ends at existing tasks. |
| `SchedulerTheorems.OrderedRunsDrain` | rust/agama-manager/src/task_manager.rs:395-434 | With dependencies on earlier ids only, every run that cannot go on has finished all tasks and has no registered one left. |
| `SchedulerTheorems.StepLowersRank` | rust/agama-manager/src/task_manager.rs:245-327 | Every step that the manager takes by itself lowers a natural number computed from phases and notifications. |
| `SchedulerTheorems.RunsTerminate` | rust/agama-manager/src/task_manager.rs:245-327 | A run without new requests is never longer than the rank of the state it starts from. |
| `Actions.RunInstall` | rust/agama-manager/src/actions.rs:85-304 | Spawning step by step gives the six tasks of the installation graph, with the ids their dependencies name; `InstallsInOrder` says which names are at which place. |
| `Actions.RunSetConfig` | rust/agama-manager/src/actions.rs:343-516 | The same for the configuration graph, for each combination of network, s390 and product. |
| `InstallationNames.EventsDescribe` | rust/agama-manager/src/task_manager.rs:218-326 | Every event about a task, in every run, tells the id, name, scope and description that the task was created with. |
| `InstallationNames.MetadataDescribes` | rust/agama-manager/src/task_manager.rs:230-234 | So does every description that is stored. |
| `InstallationNames.TasksAreCreated` | rust/agama-manager/src/task_manager.rs:210-234 | The tasks of a run are those that were handed to the builder, in order, under consecutive ids. |
| `InstallationNames.InstallsInOrder` | rust/agama-manager/src/actions.rs:85-304 | By name and scope, in the log of every run: when one of storage, post-partitioning scripts, software, configuration and finish starts, the success of each earlier one was announced; when `finalize` starts, the end of all five was. |
| `InstallationNames.PackagesAfterStorage` | rust/agama-manager/src/actions.rs:92-148 | In particular no packages are installed before the storage was prepared and the post-partitioning scripts ran, both with success. |
| `InstallationNames.FailedByName` | rust/agama-manager/src/actions.rs:258-273 | What `finalize` is told, by name and scope: the last ones of the chain, and each end in the log is one of a task that failed if and only if it is among them. |
| `InstallationNames.EndsByName` | rust/agama-manager/src/actions.rs:235-304 | Where every installation ends: the same, and the stage is Finished if no critical task failed and Failed otherwise. |
| `ConfigurationNames.GraphFits` | rust/agama-manager/src/actions.rs:343-516 | For every shape the tasks of a configuration are those of a table of names and scopes, and wait for those that the table names. |
| `ConfigurationNames.ConfiguresInOrder` | rust/agama-manager/src/actions.rs:343-516 | In the log of every run, a task of an accepted configuration starts only after the success of each task that the table names for it was announced. |
| `ConfigurationNames.ConfiguresLate` | rust/agama-manager/src/actions.rs:364-512 | However indirectly: storage waits for files, scripts, iSCSI and, if present, network, zFCP and DASD; software for these, storage, boot loader and NTP; all but questions and files for the scripts. |
| `ConfigurationOrder.NeededSucceedFirst` | rust/agama-manager/src/task_manager.rs:252-295 | In every run, a task that starts and is not run always has all its direct and indirect needs succeeded and announced before. |
| `ConfigurationOrder.StorageWaits` | rust/agama-manager/src/actions.rs:454-492 | Storage configuration starts only after files, scripts, iSCSI and the network, zFCP and DASD tasks of its graph succeeded. |
| `ConfigurationOrder.SoftwareWaits` | rust/agama-manager/src/actions.rs:484-512 | Software configuration starts only after all of these, storage, boot loader and NTP. |
| `ConfigurationOrder.OnlyAfterPreScripts` | rust/agama-manager/src/actions.rs:364-516 | No other task of the graph than questions, files and the scripts themselves starts unless the scripts succeeded. |
| `ManagerService.Service.HandleSetConfig` | rust/agama-manager/src/service.rs:503-615 | Accepted exactly while configuring and if the product, when one is given, is known; then the product is selected, the manager's own issue is updated, the configuration is stored and the graph queued. In another stage nothing changes; an unknown product leaves no product selected and all else as it was. |
| `ManagerService.RefusedChangesNothing` | rust/agama-manager/src/service.rs:583-602 | A refused configuration changes nothing if and only if the stage is another one or no product was selected. |
| `ManagerService.Service.HandleInstall` | rust/agama-manager/src/service.rs:872-900 | The handler does what `InstallExactly` says: accepted while configuring without issues and progress, then the stage is Installing and the graph is queued; otherwise nothing changes and all issues or all busy scopes are reported. |
| `ManagerService.InstallExactly` | rust/agama-manager/src/checks.rs:27-56 | An installation is accepted if and only if the stage is Configuring, there is neither an own issue nor one of another service, and no progress; else the first reason is reported in full, all issues or all busy scopes in order, and nothing changes. |
| `ManagerService.ConfigExactly` | rust/agama-manager/src/service.rs:503-615 | A configuration is accepted if and only if the stage is Configuring and its product is not refused; what each field is afterwards, and the reason otherwise. |
| `ProductIssue.IssueTellsExactly` | rust/agama-manager/src/service.rs:583-615 | In every run of the service the issue says that there is no product exactly if there is none, unless the last configuration was refused after a product had been selected; then there is no product and no issue. |
| `ProductIssue.AcceptedHasProduct` | rust/agama-manager/src/checks.rs:27-35 | So in every run an installation that is accepted has a product, if and only if that did not happen. |
| `ProductIssue.InstallsWithoutProduct` | rust/agama-manager/src/service.rs:583-602 | A run, for whatever the tasks do, that selects a product, asks for an unknown one, and installs without any. |
| `Installation.TraceIsRun` | rust/agama-manager/src/service.rs:784-910 | A run of the service is a run of the task manager, so all results about tasks hold in it. |
| `Installation.StepSystem` | rust/agama-manager/src/actions.rs:62-308 | Every request and step keeps the invariant of the service: graphs in place, dependencies ordered, stage and finished tasks in agreement. |
| `InstallationTheorems.NothingAfterInstall` | rust/agama-manager/src/checks.rs:37-46 | After an accepted installation no later request of any run adds a task or another installation, and the stage never is Configuring again. |
| `InstallationTheorems.TasksComeFromGraphs` | rust/agama-manager/src/service.rs:784-910 | Every task of every run belongs to the one installation graph or to an accepted configuration graph. |
| `InstallationTheorems.FailedSuffix` | rust/agama-manager/src/actions.rs:258-273 | When `finalize` is decided, it is told exactly the failed critical tasks, and they are a suffix of the chain. |
| `InstallationTheorems.InstallationEnds` | rust/agama-manager/src/actions.rs:235-304 | When nothing is left to do, `finalize` ran exactly once after all critical tasks, and the stage is Finished if none of them failed and Failed otherwise. |
| `ServiceProgress.OwnStepLowersRank` | rust/agama-manager/src/task_manager.rs:210-327 | Spawning, setting the final stage and every step of a task lower a natural number computed from queue, phases and stage. |
| `ServiceProgress.ServiceTerminates` | rust/agama-manager/src/service.rs:784-910 | So without new requests and foreign events the service does at most that many steps, from every state it can be in. |
| `ServiceProgress.ServiceSettles` | rust/agama-manager/src/service.rs:784-910 | And it can always go on by itself to a state in which nothing is left to do, where `InstallationEnds` applies. |
| `InstallationTheorems.FinalizeStartsLast` | rust/agama-manager/src/actions.rs:267-304 | In every run `finalize` starts only after the end of each critical task was announced. |
| `InstallationTheorems.StageMovesForward` | rust/agama-manager/src/actions.rs:70-72 | The stage only goes from Configuring to Installing and from there to Finished or to Failed. |
| `InstallationTheorems.EachConfigInOrder` | rust/agama-manager/src/actions.rs:335-519 | However many configurations share the manager, in every run of the service each follows the order of its own graph. |
| `StageEvents.StageIsSent` | rust/agama-manager/src/actions.rs:71-73 | In every run of the service the stage is the last one that was sent as an event, or Configuring if none was. |
| `StageEvents.MonitorShowsStage` | rust/agama-lib/src/monitor.rs:384-386 | So a monitor that received all events shows the stage of the service. |
| `Monitoring.Monitor.HandleEvent` | rust/agama-lib/src/monitor.rs:364-464 | The new status and the message of one event, for each kind of event and each answer of the server. |
| `Monitoring.Monitor.Run` | rust/agama-lib/src/monitor.rs:325-353 | What subscribers get is the first status, then one status for each handled event in order, then the final message if there is one; nothing is taken after it. |
| `MonitorView.PutProgressIs` | rust/agama-lib/src/monitor.rs:424-435 | A progress takes the place of the first one of its scope, or goes to the end. |
| `MonitorView.PutProgressKeeps` | rust/agama-lib/src/monitor.rs:424-435 | Progresses of other scopes are the same as before, and with one for each scope there is still only one. |
| `MonitorView.WithoutScopeInOrder` | rust/agama-lib/src/monitor.rs:436-438 | Removing the progresses of a scope keeps the others in order; so do the filters for tasks (`WithoutTaskInOrder`) and questions, which `SingleKept` gives for one element. |
| `MonitorView.ProgressShown` | rust/agama-lib/src/monitor.rs:424-438 | From a first status with one progress for each scope, every later status has one for each scope, and shows a progress if and only if it is the last one sent for its scope since the scope was last finished, or one of the first status of which nothing was heard. |
| `MonitorView.QuestionShown` | rust/agama-lib/src/monitor.rs:407-423 | A question is shown if and only if it was open in the last list that arrived, or at the start, and was not answered since. |
| `MonitorView.IssuesShown` | rust/agama-lib/src/monitor.rs:387-395 | The issues are those of the last answer that arrived, or those of the start. |
| `MonitorView.ProductShown` | rust/agama-lib/src/monitor.rs:397-405 | The product is that of the last answer that arrived after issues did, or that of the start. |
| `MonitorView.StageShown` | rust/agama-lib/src/monitor.rs:384-386 | The stage is the last one that was sent, or that of the start. |
| `Monitoring.IdleStops` | rust/agama-lib/src/monitor.rs:456-463 | An idle monitor stops at an event if and only if it handles the event and the event starts no progress and no task. |
| `Monitoring.IdleWithoutWork` | rust/agama-lib/src/monitor.rs:378-463 | For every feed: the monitor says idle without ever having been busy if and only if it starts idle, ignores everything before, and the first event that it handles starts no work. |
| `Monitoring.StageEndsIdle` | rust/agama-lib/src/monitor.rs:384-386 | An input for that: a change of the stage. |
| `MonitorReplica.FollowReplays` | rust/agama-lib/src/monitor.rs:439-446 | While the monitor goes on, its task list is the replay of the events on the first list. |
| `MonitorReplica.ReplicaMembers` | rust/agama-lib/src/monitor.rs:239-259 | After events from before the snapshot were replayed on it, a task is listed if and only if it is registered and was in the snapshot or is running. |
| `MonitorReplica.ReplicaConverges` | rust/agama-manager/src/service.rs:655-666 | For every run and every cut, the list has no task twice, only registered tasks with their descriptions, and every running one; exactly the tasks registered after the snapshot that have not started are missing. |
| `BondOptions.TryFrom` | rust/agama-network/src/model.rs:1891-1903 | The loop over the words gives the parsed map, or nothing if a word has no equals sign. |
| `BondOptions.ParsesExactly` | rust/agama-network/src/model.rs:1891-1903 | A text is refused if and only if one of its words has no equals sign. |
| `BondOptions.PrintedForm` | rust/agama-network/src/model.rs:1906-1916 | Each option is printed with an equals sign between key and value, and one space before the next. |
| `Text.WordsApart` | rust/agama-network/src/model.rs:1893-1894 | The words of a text are those before a white space and those after it. |
| `Text.WordAlone` | rust/agama-network/src/model.rs:1893-1894 | A text without white space is one word. |
| `BondOptions.PrintThenParse` | rust/agama-network/src/model.rs:1885-1916 | For every order of the hash table, printing and parsing gives the map back if and only if no key or value holds white space and no key an equals sign. |
| `BondOptions.ParseThenPrint` | rust/agama-network/src/model.rs:1885-1916 | Every text that parses means the same after it was parsed and printed in any order. |
| `BondOptions.LastWins` | rust/agama-network/src/model.rs:1894-1900 | A key has the value of the last word that sets it. |
| `NetworkTheorems.SetPortsExact` | rust/agama-network/src/model.rs:542-579 | Fails exactly if the connection is no controller or a name stands for nothing, and then changes nothing; otherwise it controls exactly what the names stand for, dropped ports are marked Removed, all others are untouched. |
| `NetworkTheorems.SetPortsKeepsNames` | rust/agama-network/src/model.rs:128-143 | Filling in interfaces never changes what any name stands for, nor any id, uuid or configuration. |
| `NetworkTheorems.ResolvesFirst` | rust/agama-network/src/model.rs:550-556 | A port name stands for the first connection with that interface, only if there is none for the first with that id, and otherwise for nothing. |
| `NetworkTheorems.SetPortsAnswers` | rust/agama-network/src/model.rs:542-579 | The error is that the connection is no controller, or else names the first port that stands for nothing. |
| `NetworkTheorems.SetAllPortsExact` | rust/agama-network/src/model.rs:370-384 | After all changed controllers were served, a connection belongs to the last one that claims it; unclaimed ones are unchanged, or released if they belonged to a changed controller. |
| `NetworkTheorems.RefusedStops` | rust/agama-network/src/model.rs:370-384 | The first controller that is refused decides the error; what was set before it stays and nothing is set after it. |
| `NetworkReconciliation.AddPortsFacts` | rust/agama-network/src/model.rs:2017-2025 | The entry of a port depends on the listed connections only, not on the ports that were taken out of the hash table before it. |
| `NetworkRepeats.MergedIs` | rust/agama-network/src/model.rs:357-365 | After entries were merged without error, known connections have their places, ids and uuids, every id of an entry is there, and each place holds the last entry with its id, or what it held before if there is none. |
| `NetworkEntries.EntryIds` | rust/agama-network/src/model.rs:1993-2029 | The ids of the entries are exactly those of the listed connections and the port names that no listed connection answers to. |
| `NetworkUpdate.Reconciles` | rust/agama-network/src/model.rs:344-395 | For a convertible change with distinct ids whose port names are provided (see `SucceedsIfProvided`), for every order of the hash table, the update succeeds, keeps ids and uuids unique and known connections in place, and each changed controller has exactly the connections that its names stand for and that no later one claims. |
| `NetworkUpdate.DisjointPorts` | rust/agama-network/src/model.rs:304-395 | If no two port names of different changed controllers are the same or belong to one connection, changed or left alone, each controller has exactly what its port names stand for afterwards. |
| `NetworkUpdate.SucceedsIfProvided` | rust/agama-network/src/model.rs:370-384 | A convertible change with distinct ids is accepted if and only if every port name of its controllers is the id of a known or changed connection, the interface of a changed one or of a known one that is left alone, or a port of the conversion. |
| `NetworkUpdate.OneKindProvided` | rust/agama-network/src/model.rs:371-377 | That always holds when no connection is both a bond and a bridge. |
| `NetworkFrame.ReconcileFrame` | rust/agama-network/src/model.rs:344-422 | For every change, accepted or refused at any point: a known connection is unchanged unless the change has an entry with its id, a port name of a changed controller stands for it, or it belonged to a changed controller. |
| `NetworkRepeats.MergesUnlessRepeated` | rust/agama-network/src/model.rs:344-365 | The entries of a convertible change can all be merged if and only if every id that it lists more than once is known already. |
| `NetworkRepeats.RepeatedIsHalfDone` | rust/agama-network/src/model.rs:357-365 | Otherwise the update fails with the uuid of one of the repeated entries, and a connection with this new id is there afterwards. |
| `NetworkAcceptance.AcceptedExactly` | rust/agama-network/src/model.rs:344-395 | A convertible change with whatever ids is accepted if and only if no new id is repeated, each of its controllers gets its settings from one, and each port name is the id of a known or changed connection or of a port, or an interface that a known or changed connection keeps or gets. |
| `NetworkAcceptance.SourceIsLast` | rust/agama-network/src/model.rs:2017-2025 | A listed id gets its settings from the connection that answers first to the last port taken out of the hash table that is answered by this id, else from the last connection with the id. |
| `NetworkUpdate.OrderDecides` | rust/agama-network/src/model.rs:2017-2025 | A change that is accepted for one order of the hash table and refused for the other. |
| `NetworkRepeats.MergeSucceeds` | rust/agama-network/src/model.rs:357-365 | Any entries are merged without error if and only if entries with one new id have one uuid, and entries with a known id a known one. |
| `NetworkUpdate.RepeatedIdIsHalfDone` | rust/agama-network/src/model.rs:357-365 | The smallest input of that kind, and the state it leaves behind. |
| `NetworkUpdate.BondAndBridgeIsHalfDone` | rust/agama-network/src/model.rs:2003-2012 | A connection with both kinds of ports is added and then refused because of the port of the bridge. |
| `NetworkSettings.SettingsAfter` | rust/agama-network/src/model.rs:344-395 | For every change that can be merged, even if ports are refused: a listed id has the settings of its source, one that is only named as a port the default ones, and any other connection its own. |
| `NetworkSettings.SettingsKeptExactly` | rust/agama-network/src/model.rs:2017-2025 | A known connection that is not listed keeps its settings if and only if a listed one has its id as interface, no one names it as a port, or they are the default ones. |
| `NetworkSettings.NamedPortIsReset` | rust/agama-network/src/model.rs:2017-2025 | After the update, a known connection that no changed one has as id or interface, but that one names as a port, has default settings, with its old id and uuid. |
| `NetworkInvariant.ReconcileKeeps` | rust/agama-network/src/model.rs:344-395 | For every configuration, accepted or refused, ids and uuids stay unique and no known connection is dropped, moved or renamed. |
| `NetworkControllers.ControllersExist` | rust/agama-network/src/model.rs:304-336 | For every configuration, accepted or refused: if every controlled connection had an existing controller before an update, so it is after it; ports follow the uuid their controller is known by. |
| `NetworkControllers.ChangedDistinct` | rust/agama-network/src/model.rs:401-422 | What changed in a configuration with distinct ids has distinct ids. |
| `NetworkChanges.ChangedExactly` | rust/agama-network/src/model.rs:401-422 | A declaration counts as changed if and only if it is listed and is not the first one with its id in the last accepted list. |
| `NetworkChanges.ChangedInOrder` | rust/agama-network/src/model.rs:401-422 | The changed declarations keep their order and their number; `ChangedOne` is the case of one. |
| `NetworkChanges.NothingAccepted` | rust/agama-network/src/model.rs:401-422 | Without a last accepted list all of them are. |
| `NetworkChanges.UnalteredKept` | rust/agama-network/src/model.rs:344-422 | Whatever became of it meanwhile, a known connection is unchanged by an update, accepted or refused, unless a declaration that was altered has its id, names it as a port, or is a controller that had it. |
| `NetworkService.ConvertCollection` | rust/agama-network/src/model.rs:1993-2029 | The loops give the entries of the specification for the order in which the hash table was taken apart, or the first conversion error. |
| `NetworkConversion.ConvertedMeans` | rust/agama-network/src/model.rs:1165-1235 | Field by field, what a converted connection is: its kind by the order bridge, bond, wireless, VLAN, the settings of that kind by their names, and the defaults for what is not set. |
| `NetworkConversion.ConversionRefused` | rust/agama-network/src/model.rs:1189-1213 | The first settings that cannot be read decide the error, in the order VLAN, wireless, bond, 802.1X; if all can be read the conversion succeeds. |
| `NetworkConversion.BondRefused` | rust/agama-network/src/model.rs:2099-2112 | Bond settings are refused for an unknown mode, or else if and only if some word of the options has no equals sign. |
| `NetworkConversion.VlanRefused` | rust/agama-network/src/model.rs:1465-1486 | VLAN settings are refused if and only if they name a protocol other than the two, and the error has that text. |
| `NetworkConversion.WirelessRefused` | rust/agama-network/src/model.rs:1501-1524 | Of wireless settings, mode, security, band and BSSID are refused in this order. |
| `NetworkConversion.ListsRefused` | rust/agama-network/src/model.rs:1525-1548 | Then the first unknown text of the three lists, always reported as a group algorithm. |
| `NetworkConversion.IeeeRefused` | rust/agama-network/src/model.rs:2284-2321 | Of 802.1X settings, the first unknown method is reported, then an unknown second phase. |
| `NetworkConversion.NewPortIsBare` | rust/agama-network/src/model.rs:2017-2025 | A port that is only named is what a declaration with nothing but the id gives. |
| `NetworkConversion.BondModes` | rust/agama-network/src/model.rs:2099-2107 | The seven names of bond modes, and that no other text is one. |
| `NetworkConversion.WirelessNames` | rust/agama-network/src/model.rs:1616-1880 | The names of wireless modes, security protocols, bands, algorithms, protocol versions and WEP authentication. |
| `NetworkConversion.OtherNames` | rust/agama-network/src/model.rs:2367-2455 | The names of 802.1X methods, and those of VLAN protocols (line 1406). |
| `NetworkService.NetworkState.AddConnection` | rust/agama-network/src/model.rs:192-199 | Refused exactly if the id is known; otherwise appended, and unique ids and uuids are kept. |
| `NetworkService.NetworkState.UpdateConnection` | rust/agama-network/src/model.rs:446-453 | The first connection with the uuid is replaced in place, or nothing changes. |
| `NetworkService.NetworkState.SetPorts` | rust/agama-network/src/model.rs:542-579 | The two loops do what the specification says, the error cases included. |
| `NetworkService.NetworkState.SanitizedCollection` | rust/agama-network/src/model.rs:304-336 | Entries for known ids get the known uuid, and ports follow the uuid of their controller, in the result and for the uuids used. |
| `NetworkService.NetworkState.UpdateState` | rust/agama-network/src/model.rs:344-395 | The whole new state of an update, also when it fails half-way; the same configuration again changes nothing; for every configuration, unique ids and uuids, places and existing controllers are kept, and so is what no altered declaration touches; each general flag is what the settings say, else as before. |
| `NetworkRoundTrip.RoundTripExact` | rust/agama-network/src/model.rs:1993-2029 | Converting and declaring again gives the ids in order, and each controller has exactly the ports it was the last to name, each under the name of the connection that answers to it. |
| `NetworkRoundTrip.PortsInOrder` | rust/agama-network/src/model.rs:1944-1965 | The ports of a controller are declared in the order of the connections, each under its interface, or its id if it has none (`PortOf`). |
| `NetworkPortSets.RoundTripExactly` | rust/agama-network/src/model.rs:1927-2029 | For every convertible configuration and order of the hash table, ids are kept, and all port sets are if and only if no port is named by two connections and no connection that is used as a port has an interface of another name. |
| `NetworkDeclared.ConnectionRoundTrip` | rust/agama-network/src/model.rs:1165-1308 | A converted connection, declared and converted again, is the same connection with all its wireless, VLAN, bond, bridge and 802.1X settings, whatever order bond options are printed in. |
| `NetworkDeclared.ConnectionKeptExactly` | rust/agama-network/src/model.rs:1165-1308 | Any connection comes back the same if and only if it is no port, has no WEP keys, no ages of a bridge, no custom MAC address, nothing else without a declared form, and only bond options that can be printed; VLAN settings and those of all kinds come back with the same exceptions. |
| `NetworkLinks.WirelessExactly` | rust/agama-network/src/model.rs:1501-1605 | Up to the spelling of the BSSID, the only settings that give a wireless configuration are its declared form, and none give one with WEP keys. |
| `NetworkLinks.IeeeExactly` | rust/agama-network/src/model.rs:2284-2350 | The only settings that give an 802.1X configuration are its declared form. |
| `NetworkLinks.ParseEachExactly` | rust/agama-network/src/model.rs:1525-1548 | A list of texts is parsed to a list of values if and only if it is their printed list, for every table that accepts exactly what it prints. |
| `ProxyFile.ReadFrom` | rust/agama-proxy/src/model.rs:116-165 | The loop gives the proxies in line order, and the last `enabled` and `no_proxy`. |
| `ProxyMeaning.FileMeans` | rust/agama-proxy/src/model.rs:126-164 | Of the lines that set `enabled` or `no_proxy` the last one decides, and only the text `yes` enables. |
| `ProxyMeaning.ProxiesInOrder` | rust/agama-proxy/src/model.rs:141-153 | The proxies of two pieces of a file are those of the first and then those of the second (`ProxyOfLine` for one line). |
| `ProxyMeaning.LineMeans` | rust/agama-proxy/src/model.rs:127-135 | Empty lines, comments and lines without equals sign mean nothing; any other is the trimmed text before the first equals sign with the trimmed text after it, without outer quotes. |
| `Text.TrimDrops` | rust/agama-proxy/src/model.rs:128-135 | Trimming drops white space at both ends, all of it and nothing else. |
| `ProxyMeaning.QuotesDropped` | rust/agama-proxy/src/model.rs:135 | The quotes that are dropped are those at both ends, all of them and nothing else. |
| `ProxyMeaning.KeysMean` | rust/agama-proxy/src/model.rs:137-156 | `PROXY_ENABLED` and `NO_PROXY` take any value, the keys of the proxies any that is not empty. |
| `ProxyMeaning.NamedProtocol` | rust/agama-proxy/src/model.rs:147-153 | Any other key that ends like a proxy is one for the protocol that the rest names in whatever case, or means nothing. |
| `ProxyMeaning.OtherKeys` | rust/agama-proxy/src/model.rs:137-156 | A key that sets anything is one of the first three or ends like those of the proxies, and sets the value itself. |
| `ProxyMeaning.ProtocolNames` | rust/agama-proxy/src/model.rs:147-149 | The six names of protocols, and that no other text is one. |
| `ProxyMeaning.LowerEach` | rust/agama-proxy/src/model.rs:149 | Lower case, letter by letter. |
| `ProxyMeaning.FileKeys` | rust/agama-proxy/src/model.rs:175-193 | The eight keys of the file. |
| `ProxyFile.WriteTo` | rust/agama-proxy/src/model.rs:171-243 | The nested loops over lines and hash table give the edited lines and then the missing keys in the order of the table. |
| `ProxyFile.StartsWithKey` | rust/agama-proxy/src/model.rs:213-220 | At most one key starts a line, so the order of the hash table does not matter for a line. |
| `ProxyLines.WrittenMeans` | rust/agama-proxy/src/model.rs:128-156 | A written line begins with its key and is read as the slot it was written for, with the value without outer quotes and an empty URL as nothing. |
| `ProxyLines.KeyLineSets` | rust/agama-proxy/src/model.rs:128-156 | Whatever line begins with the key of a slot sets that slot or nothing. |
| `ProxyEditing.WriteKeepsLines` | rust/agama-proxy/src/model.rs:211-225 | Every line stays at its place; it is rewritten exactly if it begins with a key of the configuration. |
| `ProxyEditing.WriteAppends` | rust/agama-proxy/src/model.rs:227-233 | Exactly the keys that no line begins with are appended, each once. |
| `ProxyEditing.OrderMovesAppended` | rust/agama-proxy/src/model.rs:211-233 | Two orders of the hash table give files that differ in the order of the appended lines only. |
| `ProxyEditing.SecondWriteSame` | rust/agama-proxy/src/model.rs:171-243 | Writing the same configuration again changes nothing, for any two orders. |
| `ProxyReadBack.ReadAfterWrite` | rust/agama-proxy/src/model.rs:116-243 | After writing, a slot of the configuration is read as its value if the file is editable in that slot; every other slot is read as before in every file. |
| `ProxyReadBack.EditableExactly` | rust/agama-proxy/src/model.rs:211-233 | A file is editable in a slot if and only if every value written for it is read back. |
| `ProxyAliases.MissedFiles` | rust/agama-proxy/src/model.rs:128-156 | For every value that is read as something, files with it after `SOCKS5_PROXY=`, `http_PROXY=`, or the key of a proxy and a space are not editable in that proxy. |
| `ProxyAliases.AliasIsMissed` | rust/agama-proxy/src/model.rs:211-225 | A line anywhere that sets a proxy but does not begin with its key keeps some value from being read back. |
| `ProxyAliases.LaterAliasIsMissed` | rust/agama-proxy/src/model.rs:211-225 | So does one for another slot at the end of a file that has a line with the key. |
| `ProxyService.LinesOfUnlines` | rust/agama-proxy/src/model.rs:195-204 | Lines that are written one by one, each with a line feed (`ProxyMeaning.UnlinesOne`), are read again as the same lines, but for a carriage return at the end. |
| `ProxyMeaning.LinesCut` | rust/agama-proxy/src/model.rs:126-128 | A line feed ends a line, and a carriage return right before it belongs to the end. |
| `ProxyService.ExpandedSettings` | rust/agama-proxy/src/service.rs:145-177 | The settings that are written are exactly what the configuration has for each slot; a value is written in quotes (`ProxyMeaning.WrittenForm`). |
| `ProxyMeaning.WrittenSettings` | rust/agama-proxy/src/service.rs:145-177 | Key by key, the settings that are written are the fields of the configuration, `yes` or `no` for `enabled`. |
| `ProxyMeaning.OnlyTheseKeys` | rust/agama-proxy/src/service.rs:145-177 | No other keys are written. |
| `ProxyService.CollapseHas` | rust/agama-proxy/src/service.rs:118-143 | Slot by slot, the configuration of a file is what its last line for the slot says. |
| `ProxyService.UpdateThenRead` | rust/agama-proxy/src/service.rs:108-181 | For every order of the hash table and values without line feeds: each slot in which the file is editable is read after an update as the new configuration says, an empty URL as nothing, and each slot that it does not mention as before. |
| `ProxyExact.OverridesExactly` | rust/agama-proxy/src/service.rs:108-181 | If the file is editable in the slots of the configuration, all slots are read as they should if and only if no value holds a line feed. |
| `ProxyExact.ReadsAsAskedExactly` | rust/agama-proxy/src/model.rs:116-243 | And every value is read exactly as it was asked for if and only if none holds a line feed, has an outer quote, or is an empty URL. |
| `ProxyService.State.UpdateConfig` | rust/agama-proxy/src/service.rs:145-181 | The new text of the file, the reloaded configuration, and that it overrides the old one slot by slot. |
| `ProxyService.State.ToConfig` | rust/agama-proxy/src/service.rs:118-143 | The loop assigns the fields so that the last proxy of a protocol wins. |
| `Locale.AcceptsBothForms` | rust/agama-locale-data/src/locale.rs:155-213 | A text parses to a keymap id if and only if the id is well-formed and the text is one of its two printed forms. |
| `Locale.KeymapForms` | rust/agama-locale-data/src/locale.rs:155-213 | The two forms: the variant in parentheses or after a minus sign. |
| `Locale.ReadsLocale` | rust/agama-locale-data/src/locale.rs:92-116 | Letters, an underscore, letters and what follows: the encoding is the text after a dot, and UTF-8 if there is none. |
| `Locale.LocalesExactly` | rust/agama-locale-data/src/locale.rs:92-116 | A text is a locale if and only if it begins with letters, an underscore and a letter. |
| `Locale.PrintParses` | rust/agama-locale-data/src/locale.rs:63-116 | Printing a locale id and parsing it gives it back if and only if it is one that parsing can give. |
| `Locale.Normalises` | rust/agama-locale-data/src/locale.rs:92-116 | Parsing, printing and parsing again gives what the first parse gave, for every text. |
| `Collections.FromEntriesIs` | web/src/utils.ts:668-669 | The lookup map holds each distinct key once, in the order of first occurrences, with its last value. |
| `Collections.LastValueIsLast` | web/src/utils.ts:668-669 | That value is the one of the last entry with the key. |
| `Collections.FirstKeysInOrder` | web/src/utils.ts:485-502 | Distinct keys are listed in the order of their first occurrences. |
| `Joins.MergeItems` | web/src/utils.ts:675-706 | The fields of both items: one that only one item has keeps its value; of one that both have, the preferred item decides; of two lists that are to be merged, each element once, those of the base first, in the order of first occurrences. |
| `Joins.BaseWinsByDefault` | web/src/utils.ts:666-677 | Without options a field has the value of the base item if that has it, else that of the extension. |
| `Joins.SameKeyExactly` | web/src/utils.ts:664-665 | If no key field holds a bar, two items match if and only if all their key fields agree as texts. |
| `Joins.FieldTextIs` | web/src/utils.ts:664-665 | The text of a field, also of one that is absent or holds a list. |
| `Joins.BarsCollide` | web/src/utils.ts:664-665 | With a bar in a field, items with different fields have one key. |
| `Joins.ExtendCollection` | web/src/utils.ts:654-727 | Base order is kept; the first base item of a key is merged field by field with the last extension item of that key, all others stay; the last extension items of the other keys follow in the order of their keys. |
| `Joins.MatchedKey` | web/src/utils.ts:706-717 | An extension key that a base item has extends the first such item and is not left over. |
| `Joins.UnmatchedKey` | web/src/utils.ts:719-724 | Any other extension key is left over exactly once. |
| `Joins.UnmatchedInOrder` | web/src/utils.ts:719-724 | What is left over comes in the order of the first occurrences of its keys. |
| `Joins.OthersUnchanged` | web/src/utils.ts:706-717 | A base item that repeats a key, or whose key the extension lacks, is unchanged. |
| `Joins.MergeSources` | web/src/utils.ts:480-503 | One item for each key in the order of first occurrences, with the first item and all its sources; the sources count every occurrence of the input. |
| `Joins.FlatInOrder` | web/src/utils.ts:485-487 | The collections are taken in the order of precedence (`FlatOne` for one of them). |
| `Joins.NamedItems` | web/src/utils.ts:487-491 | Each item of a collection comes once, in order, with its key and the name of the collection. |
| `Joins.SourcesInOrder` | web/src/utils.ts:488-497 | The sources of a key are the names of all entries with it, in their order (`SourceOne` for one entry). |
| `Joins.CollectedItem` | web/src/utils.ts:494-497 | The item of a key is the first one, field by field, without a field called `sources`. |

## Left out

- Foreign services: D-Bus, NetworkManager, systemd, IPMI, scripts, HTTP and WebSocket connections. The work of a task is an arbitrary function, and the answers of the server are parameters of the monitor.
- Lost or lagging events, and errors when sending them: delivery is taken as lossless and in order.
- Sending an event outside a critical section is one step of the machine together with the change of phase that follows it in the source; no other task can see the difference.
- InstallationEnds: takes the progress calls in the work of the last two installation tasks as always successful, because the progress service is not part of this model; so does StageMovesForward.
- Descriptions of tasks that are built from translated texts, and the messages that the works send.
- The services behind the tasks (storage, software, users and the others), and the merge of partial configurations.
- Addresses, methods, gateways, name servers and the MTU of a connection, which both forms have alike, are kept together as plain texts, and so are the identity, passwords and certificates of 802.1X.
- ConnectionRoundTrip: takes the text of a MAC address as the address that the library reads from it, and an SSID as text; the source stops with a panic when it prints an SSID that is no UTF-8.
- WirelessExactly: takes two spellings of one BSSID as one text, as ConnectionRoundTrip does.
- HandleSetConfig: takes what the registry of products finds as part of the request; the registry and the settings of products are not part of this model.
- The error for an unknown uuid is a case of its own; the source puts the uuid as text into the error for unknown connections.
- Devices, access points and removal of connections in the network state: no other operation here depends on them.
- UpdateThenRead: requires values without line feeds and a file that is editable in the slot; `OverridesExactly` and `EditableExactly` show that both are needed.
- Creating the directory of the proxy file, file modes, and errors of the file system other than a missing file.
- Lower case in proxy keys: only characters whose lower case is an ASCII letter are mapped, since no other can be part of a protocol name.
- Locale: the class of word characters is a parameter of which only is known that it lacks parentheses and the minus sign.
- Joins: the order of the fields of a record, and values other than texts and lists of texts.
- Text masking, hexadecimal parsing and translation of entries in the web client: one-branch functions.
