/**
 What the events of a configuration change tell, by the names and scopes that clients see
 (rust/agama-manager/src/actions.rs): which tasks there are and which task follows which.
 */
module ConfigurationNames {
  import opened Events
  import opened TaskManagement
  import opened Scheduler
  import opened SchedulerInvariant
  import opened SchedulerTheorems
  import opened Actions
  import opened ConfigurationOrder
  import opened ManagerService
  import opened Installation
  import opened InstallationTheorems

  /** A task as clients see it, with the names of the tasks it waits for. */
  datatype Entry = Entry(name: string, scope: Scope, after: seq<string>)

  const PRE := ["pre_scripts"]

  const COMMON: seq<Entry> := [
    Entry("questions_config", Questions, []),
    Entry("files_config", Files, []),
    Entry("pre_scripts", Files, ["files_config"]),
    Entry("security_config", Security, PRE),
    Entry("access_config", Access, PRE),
    Entry("hostname_config", Hostname, PRE),
    Entry("proxy_config", Proxy, PRE),
    Entry("ntp_config", Ntp, PRE),
    Entry("l10n_config", L10n, PRE),
    Entry("users_config", Users, PRE)]

  function Devices(shape: Shape): seq<Entry> {
    (if shape.network then [Entry("network_config", Network, PRE)] else [])
    + [Entry("iscsi_config", ISCSI, PRE + if shape.network then ["network_config"] else [])]
    + (if shape.s390 then [Entry("zfcp_config", ZFCP, PRE), Entry("dasd_config", DASD, PRE)] else [])
  }

  function Products(shape: Shape): seq<Entry> {
    [ Entry("storage_config", Storage,
            ["pre_scripts", "iscsi_config"] + if shape.s390 then ["zfcp_config", "dasd_config"] else []),
      Entry("bootloader_config", Bootloader, ["pre_scripts", "storage_config"]),
      Entry("software_config", Software,
            ["files_config", "pre_scripts", "storage_config", "bootloader_config", "ntp_config"]),
      Entry("selinux_config", Security, ["software_config"]) ]
  }

  /** Everything that a configuration change spawns. */
  function Table(shape: Shape): seq<Entry> {
    COMMON + Devices(shape) + if shape.product then Products(shape) else []
  }

  predicate Fits(table: seq<Entry>, first: TaskId, k: nat, task: Task) {
    && k < |table| && task.name == table[k].name && task.scope == table[k].scope && !task.runAlways
    && |task.deps| == |table[k].after|
    && forall j | 0 <= j < |task.deps| ::
         first <= task.deps[j] < first + k && table[task.deps[j] - first].name == table[k].after[j]
  }

  lemma Places(first: TaskId, shape: Shape)
    ensures |Table(shape)| == |ConfigGraph(first, shape)| >= 11
    ensures var t := Table(shape);
            && t[1].name == "files_config" && t[2].name == "pre_scripts" && t[7].name == "ntp_config"
            && (shape.network ==> t[10].name == "network_config")
            && IscsiId(first, shape) - first < |t| && t[IscsiId(first, shape) - first].name == "iscsi_config"
  {
  }

  lemma LaterPlaces(first: TaskId, shape: Shape)
    ensures var t := Table(shape);
            && (shape.s390 ==>
                  && DasdId(first, shape) - first < |t| && t[DasdId(first, shape) - first].name == "dasd_config"
                  && t[ZfcpId(first, shape) - first].name == "zfcp_config")
            && (shape.product ==>
                  && SoftwareId(first, shape) - first < |t|
                  && t[SoftwareId(first, shape) - first].name == "software_config"
                  && t[BootloaderId(first, shape) - first].name == "bootloader_config"
                  && t[StorageId(first, shape) - first].name == "storage_config")
  {
  }

  lemma CommonFits(first: TaskId, shape: Shape, k: nat)
    requires k < 10
    ensures Fits(Table(shape), first, k, ConfigGraph(first, shape)[k])
  {
    Places(first, shape);
    assert ConfigGraph(first, shape)[k] == CommonTasks(first)[k] && Table(shape)[k] == COMMON[k];
  }

  lemma DeviceFitsAt(t: seq<Entry>, first: TaskId, shape: Shape, k: nat)
    requires k < |DeviceTasks(first, shape)| == |Devices(shape)| && 10 + k < |t| && t[10 + k] == Devices(shape)[k]
    requires t[2].name == "pre_scripts" && (shape.network && k > 0 ==> t[10].name == "network_config")
    ensures Fits(t, first, 10 + k, DeviceTasks(first, shape)[k])
  {
  }

  lemma DeviceFits(first: TaskId, shape: Shape, k: nat)
    requires k < |DeviceTasks(first, shape)|
    ensures Fits(Table(shape), first, 10 + k, ConfigGraph(first, shape)[10 + k])
  {
    Places(first, shape);
    assert ConfigGraph(first, shape)[10 + k] == DeviceTasks(first, shape)[k];
    assert Table(shape)[10 + k] == Devices(shape)[k];
    DeviceFitsAt(Table(shape), first, shape, k);
  }

  lemma ProductFitsAt(t: seq<Entry>, first: TaskId, shape: Shape, k: nat, n: nat)
    requires k < 4 && n == StorageId(first, shape) - first + k < |t| && t[n] == Products(shape)[k]
    requires t[1].name == "files_config" && t[2].name == "pre_scripts" && t[7].name == "ntp_config"
    requires t[IscsiId(first, shape) - first].name == "iscsi_config"
    requires shape.s390 ==> t[DasdId(first, shape) - first].name == "dasd_config"
    requires shape.s390 ==> t[ZfcpId(first, shape) - first].name == "zfcp_config"
    requires k > 0 ==> t[StorageId(first, shape) - first].name == "storage_config"
    requires k > 1 ==> t[BootloaderId(first, shape) - first].name == "bootloader_config"
    requires k > 2 ==> t[SoftwareId(first, shape) - first].name == "software_config"
    ensures Fits(t, first, n, ProductTasks(first, shape)[k])
  {
  }

  lemma ProductFits(first: TaskId, shape: Shape, k: nat)
    requires k < 4 && shape.product
    ensures var n := StorageId(first, shape) - first + k;
            && n < |ConfigGraph(first, shape)|
            && Fits(Table(shape), first, n, ConfigGraph(first, shape)[n])
  {
    var n := StorageId(first, shape) - first + k;
    Places(first, shape);
    LaterPlaces(first, shape);
    assert ConfigGraph(first, shape)[n] == ProductTasks(first, shape)[k];
    assert Table(shape)[n] == Products(shape)[k];
    ProductFitsAt(Table(shape), first, shape, k, n);
  }

  lemma Sizes(first: TaskId, shape: Shape)
    ensures |Table(shape)| == |ConfigGraph(first, shape)|
    ensures StorageId(first, shape) - first == 10 + |DeviceTasks(first, shape)|
    ensures |ConfigGraph(first, shape)| == 10 + |DeviceTasks(first, shape)| + if shape.product then 4 else 0
  {
  }

  /** The graph of every shape is the one of the table. */
  lemma GraphFits(first: TaskId, shape: Shape, k: nat)
    requires k < |ConfigGraph(first, shape)|
    ensures |Table(shape)| == |ConfigGraph(first, shape)|
    ensures Fits(Table(shape), first, k, ConfigGraph(first, shape)[k])
  {
    Sizes(first, shape);
    var devices := |DeviceTasks(first, shape)|;
    if k < 10 {
      CommonFits(first, shape, k);
    } else if k < 10 + devices {
      DeviceFits(first, shape, k - 10);
    } else {
      ProductFits(first, shape, k - 10 - devices);
    }
  }

  /*** The events of a configuration change ***/

  predicate OfConfig(first: TaskId, table: seq<Entry>, t: TaskInfo) {
    first <= t.id < first + |table|
  }

  /** Before position `i` of the log, the success of the task of this name was announced. */
  ghost predicate SucceededFirst(s: State, first: TaskId, table: seq<Entry>, name: string, i: nat)
    requires i <= |s.shared.log|
  {
    exists j | 0 <= j < i ::
      var e := s.shared.log[j];
      e.TaskFinished? && OfConfig(first, table, e.task) && e.task.name == name && e.task.id in s.shared.succeeded
  }

  /** The tasks from `first` on that exist already are those of the table. */
  ghost predicate Fitted(tasks: seq<Task>, first: TaskId, table: seq<Entry>) {
    forall id: TaskId | first <= id < first + |table| && id < |tasks| :: Fits(table, first, id - first, tasks[id])
  }

  lemma PlacedFitted(all: seq<Task>, first: TaskId, shape: Shape, table: seq<Entry>)
    requires Placed(all, first, ConfigGraph(first, shape)) && table == Table(shape)
    ensures Fitted(all, first, table)
  {
    Sizes(first, shape);
    forall id: TaskId | first <= id < first + |table| && id < |all| ensures Fits(table, first, id - first, all[id]) {
      GraphFits(first, shape, id - first);
      assert all[first + (id - first)] == ConfigGraph(first, shape)[id - first];
    }
  }

  lemma ConfigFitted(work: Work, y: System, c: (TaskId, Shape))
    requires SystemInv(work, y) && c in y.front.configs
    ensures Fitted(y.sched.tasks, c.0, Table(c.1))
  {
    PlacedFitted(AllTasks(y), c.0, c.1, Table(c.1));
    assert forall id: TaskId | id < |y.sched.tasks| :: AllTasks(y)[id] == y.sched.tasks[id];
  }

  /** An event of the configuration change tells the name and the scope that the table has at its place. */
  lemma EventNamed(s: State, first: TaskId, table: seq<Entry>, i: nat)
    requires LogOk(s) && Fitted(s.tasks, first, table)
    requires i < |s.shared.log| && IsTaskEvent(s.shared.log[i]) && OfConfig(first, table, s.shared.log[i].task)
    ensures var t := s.shared.log[i].task;
            var k := t.id - first;
            && t.name == table[k].name && t.scope == table[k].scope
            && t.id < |s.tasks| && Fits(table, first, k, s.tasks[t.id])
  {
    assert EventOk(s.tasks, s.shared.log, i);
  }

  lemma NamedBefore(s: State, first: TaskId, table: seq<Entry>, id: TaskId, i: nat)
    requires LogOk(s) && Fitted(s.tasks, first, table) && i <= |s.shared.log|
    requires first <= id < first + |table| && SucceededBefore(s, id, i)
    ensures SucceededFirst(s, first, table, table[id - first].name, i)
  {
    var j :| 0 <= j < i && s.shared.log[j].TaskFinished? && s.shared.log[j].task.id == id;
    EventNamed(s, first, table, j);
  }

  lemma DependencyNamed(table: seq<Entry>, first: TaskId, k: nat, task: Task, a: string) returns (d: TaskId)
    requires Fits(table, first, k, task) && a in table[k].after
    ensures d in task.deps && first <= d < first + k && table[d - first].name == a
  {
    var j :| 0 <= j < |table[k].after| && table[k].after[j] == a;
    d := task.deps[j];
  }

  lemma WaitedFor(work: Work, trace: seq<Label>, first: TaskId, table: seq<Entry>, i: nat, a: string)
    requires Valid(work, INIT, trace) && Fitted(Exec(work, INIT, trace).tasks, first, table)
    requires var log := Exec(work, INIT, trace).shared.log;
             && i < |log| && log[i].TaskStarted? && OfConfig(first, table, log[i].task)
             && a in table[log[i].task.id - first].after
    ensures SucceededFirst(Exec(work, INIT, trace), first, table, a, i)
  {
    var s := Exec(work, INIT, trace);
    ReachableInv(work, trace);
    EventNamed(s, first, table, i);
    var id := s.shared.log[i].task.id;
    var d := DependencyNamed(table, first, id - first, s.tasks[id], a);
    StartsAfterDependencies(work, trace, i, d);
    NamedBefore(s, first, table, d, i);
  }

  /** The event tells what the table has, and what the table says the task waits for succeeded before. */
  ghost predicate StartsAsListed(s: State, first: TaskId, table: seq<Entry>, i: nat)
    requires i < |s.shared.log| && IsTaskEvent(s.shared.log[i]) && OfConfig(first, table, s.shared.log[i].task)
  {
    var t := s.shared.log[i].task;
    var entry := table[t.id - first];
    && t.name == entry.name && t.scope == entry.scope
    && forall a | a in entry.after :: SucceededFirst(s, first, table, a, i)
  }

  lemma AllWaitedFor(work: Work, trace: seq<Label>, first: TaskId, table: seq<Entry>, i: nat)
    requires Valid(work, INIT, trace) && Fitted(Exec(work, INIT, trace).tasks, first, table)
    requires var log := Exec(work, INIT, trace).shared.log;
             i < |log| && log[i].TaskStarted? && OfConfig(first, table, log[i].task)
    ensures StartsAsListed(Exec(work, INIT, trace), first, table, i)
  {
    var s := Exec(work, INIT, trace);
    ReachableInv(work, trace);
    EventNamed(s, first, table, i);
    forall a | a in table[s.shared.log[i].task.id - first].after ensures SucceededFirst(s, first, table, a, i) {
      WaitedFor(work, trace, first, table, i, a);
    }
  }

  /** By name: a task starts only after the success of every task that the table says it waits for. */
  lemma ConfiguresInOrder(work: Work, run: seq<Request>, c: (TaskId, Shape), i: nat)
    requires ValidRun(work, START, run) && c in ExecRun(work, START, run).front.configs
    requires var log := ExecRun(work, START, run).sched.shared.log;
             i < |log| && log[i].TaskStarted? && OfConfig(c.0, Table(c.1), log[i].task)
    ensures StartsAsListed(ExecRun(work, START, run).sched, c.0, Table(c.1), i)
  {
    ReachableSystem(work, run);
    ConfigFitted(work, ExecRun(work, START, run), c);
    AllWaitedFor(work, Trace(work, START, run), c.0, Table(c.1), i);
  }

  /** What must have succeeded before the storage is configured. */
  function StorageNames(shape: Shape): set<string> {
    {"files_config", "pre_scripts", "iscsi_config"}
    + (if shape.network then {"network_config"} else {})
    + (if shape.s390 then {"zfcp_config", "dasd_config"} else {})
  }

  function SoftwareNames(shape: Shape): set<string> {
    StorageNames(shape) + {"storage_config", "bootloader_config", "ntp_config"}
  }

  const EARLY := {"questions_config", "files_config", "pre_scripts"}

  lemma LateNames(shape: Shape, k: nat)
    requires k < |Table(shape)|
    ensures Table(shape)[k].name == "storage_config" ==> shape.product && k == StorageId(0, shape)
    ensures Table(shape)[k].name == "software_config" ==> shape.product && k == SoftwareId(0, shape)
    ensures Table(shape)[k].name !in EARLY ==> k >= 3
  {
    if k < 10 {
      assert Table(shape)[k] == COMMON[k];
    } else if k < 10 + |Devices(shape)| {
      assert Table(shape)[k] == Devices(shape)[k - 10];
    } else {
      assert Table(shape)[k] == Products(shape)[k - 10 - |Devices(shape)|];
    }
  }

  lemma NameNeeded(first: TaskId, shape: Shape, a: string) returns (id: TaskId)
    requires shape.product && a in SoftwareNames(shape)
    ensures first <= id < first + |Table(shape)| && Table(shape)[id - first].name == a
    ensures id in SoftwareNeeds(first, shape) && (a in StorageNames(shape) ==> id in StorageNeeds(first, shape))
  {
    Places(first, shape);
    LaterPlaces(first, shape);
    id := if a == "files_config" then first + 1
          else if a == "pre_scripts" then PreScriptsId(first)
          else if a == "iscsi_config" then IscsiId(first, shape)
          else if a == "network_config" then NetworkId(first)
          else if a == "zfcp_config" then ZfcpId(first, shape)
          else if a == "dasd_config" then DasdId(first, shape)
          else if a == "storage_config" then StorageId(first, shape)
          else if a == "bootloader_config" then BootloaderId(first, shape)
          else NtpId(first);
  }

  lemma NeededByName(s: State, first: TaskId, shape: Shape, table: seq<Entry>, needs: set<TaskId>, a: string, i: nat)
    requires LogOk(s) && Fitted(s.tasks, first, table) && table == Table(shape) && shape.product
    requires i <= |s.shared.log| && forall id | id in needs :: SucceededBefore(s, id, i)
    requires || (a in StorageNames(shape) && needs == StorageNeeds(first, shape))
             || (a in SoftwareNames(shape) && needs == SoftwareNeeds(first, shape))
    ensures SucceededFirst(s, first, table, a, i)
  {
    var id := NameNeeded(first, shape, a);
    NamedBefore(s, first, table, id, i);
  }

  /** The tasks that are named here were announced to succeed before, by id. */
  ghost predicate LateIds(s: State, first: TaskId, shape: Shape, id: TaskId, i: nat)
    requires i <= |s.shared.log|
  {
    && (shape.product && id == StorageId(first, shape) ==>
          forall a | a in StorageNeeds(first, shape) :: SucceededBefore(s, a, i))
    && (shape.product && id == SoftwareId(first, shape) ==>
          forall a | a in SoftwareNeeds(first, shape) :: SucceededBefore(s, a, i))
    && (first + 3 <= id < first + |Table(shape)| ==> SucceededBefore(s, PreScriptsId(first), i))
  }

  /** Which names must come first, however indirectly. */
  predicate Late(shape: Shape, name: string, a: string) {
    || (name == "storage_config" && a in StorageNames(shape))
    || (name == "software_config" && a in SoftwareNames(shape))
    || (name !in EARLY && a == "pre_scripts")
  }

  lemma PlaceOfName(s: State, first: TaskId, shape: Shape, table: seq<Entry>, i: nat)
    requires LogOk(s) && Fitted(s.tasks, first, table) && table == Table(shape)
    requires i < |s.shared.log| && s.shared.log[i].TaskStarted? && OfConfig(first, table, s.shared.log[i].task)
    ensures var t := s.shared.log[i].task;
            && (t.name == "storage_config" ==> shape.product && t.id == StorageId(first, shape))
            && (t.name == "software_config" ==> shape.product && t.id == SoftwareId(first, shape))
            && (t.name !in EARLY ==> t.id >= first + 3)
  {
    EventNamed(s, first, table, i);
    LateNames(shape, s.shared.log[i].task.id - first);
  }

  lemma ScriptsByName(s: State, first: TaskId, shape: Shape, table: seq<Entry>, i: nat)
    requires LogOk(s) && Fitted(s.tasks, first, table) && table == Table(shape)
    requires i <= |s.shared.log| && SucceededBefore(s, PreScriptsId(first), i)
    ensures SucceededFirst(s, first, table, "pre_scripts", i)
  {
    Places(first, shape);
    NamedBefore(s, first, table, PreScriptsId(first), i);
  }

  lemma LateByName(s: State, first: TaskId, shape: Shape, table: seq<Entry>, i: nat, a: string)
    requires LogOk(s) && Fitted(s.tasks, first, table) && table == Table(shape)
    requires i < |s.shared.log| && s.shared.log[i].TaskStarted? && OfConfig(first, table, s.shared.log[i].task)
    requires LateIds(s, first, shape, s.shared.log[i].task.id, i) && Late(shape, s.shared.log[i].task.name, a)
    ensures SucceededFirst(s, first, table, a, i)
  {
    var name := s.shared.log[i].task.name;
    PlaceOfName(s, first, shape, table, i);
    if name == "storage_config" && a in StorageNames(shape) {
      NeededByName(s, first, shape, table, StorageNeeds(first, shape), a, i);
    } else if name == "software_config" && a in SoftwareNames(shape) {
      NeededByName(s, first, shape, table, SoftwareNeeds(first, shape), a, i);
    } else {
      ScriptsByName(s, first, shape, table, i);
    }
  }

  /**
   By name: storage and software are configured only after the scripts, the devices and, for software,
   the storage, the boot loader and NTP; nothing but questions and files is without the scripts.
   */
  lemma ConfiguresLate(work: Work, run: seq<Request>, c: (TaskId, Shape), i: nat, a: string)
    requires ValidRun(work, START, run) && c in ExecRun(work, START, run).front.configs
    requires var log := ExecRun(work, START, run).sched.shared.log;
             i < |log| && log[i].TaskStarted? && OfConfig(c.0, Table(c.1), log[i].task)
    ensures var s := ExecRun(work, START, run).sched;
            Late(c.1, s.shared.log[i].task.name, a) ==> SucceededFirst(s, c.0, Table(c.1), a, i)
  {
    var y := ExecRun(work, START, run);
    assert LateIds(y.sched, c.0, c.1, y.sched.shared.log[i].task.id, i) by {
      EachConfigInOrder(work, run, c, i);
      Sizes(c.0, c.1);
    }
    ReachableSystem(work, run);
    ConfigFitted(work, y, c);
    if Late(c.1, y.sched.shared.log[i].task.name, a) {
      LateByName(y.sched, c.0, c.1, Table(c.1), i, a);
    }
  }
}
