/**
 The task graphs of an installation and of a configuration change
 (rust/agama-manager/src/actions.rs). Translated descriptions are left empty.
 */
module Actions {
  import opened Events
  import opened Scheduler

  function Required(name: string, scope: Scope, deps: seq<TaskId>): Task {
    Task(name, scope, "", deps, false)
  }

  function Always(name: string, scope: Scope, deps: seq<TaskId>): Task {
    Task(name, scope, "", deps, true)
  }

  /*** Installation ***/

  /** storage, post-partitioning scripts, software, configure and finish, from the id `first` on. */
  function Critical(first: TaskId): seq<TaskId> {
    [first, first + 1, first + 2, first + 3, first + 4]
  }

  function FinalizeId(first: TaskId): TaskId {
    first + 5
  }

  function InstallGraph(first: TaskId): seq<Task> {
    [ Required("storage_install", Storage, []),
      Required("post_partitioning_scripts", Files, [first]),
      Required("software_install", Software, [first + 1]),
      Required("configure", Manager, [first + 2]),
      Required("finish_progress", Manager, [first + 3]),
      Always("finalize", Manager, Critical(first)) ]
  }

  /*** Configuration ***/

  /** What decides which optional tasks a configuration change has. */
  datatype Shape = Shape(network: bool, s390: bool, product: bool)

  function PreScriptsId(first: TaskId): TaskId { first + 2 }
  function NtpId(first: TaskId): TaskId { first + 7 }
  function NetworkId(first: TaskId): TaskId { first + 10 }
  function IscsiId(first: TaskId, shape: Shape): TaskId { first + if shape.network then 11 else 10 }
  function ZfcpId(first: TaskId, shape: Shape): TaskId { IscsiId(first, shape) + 1 }
  function DasdId(first: TaskId, shape: Shape): TaskId { IscsiId(first, shape) + 2 }
  function StorageId(first: TaskId, shape: Shape): TaskId { IscsiId(first, shape) + if shape.s390 then 3 else 1 }
  function BootloaderId(first: TaskId, shape: Shape): TaskId { StorageId(first, shape) + 1 }
  function SoftwareId(first: TaskId, shape: Shape): TaskId { StorageId(first, shape) + 2 }

  function IscsiDeps(first: TaskId, shape: Shape): seq<TaskId> {
    [PreScriptsId(first)] + if shape.network then [NetworkId(first)] else []
  }

  function StorageDeps(first: TaskId, shape: Shape): seq<TaskId> {
    [PreScriptsId(first), IscsiId(first, shape)]
    + if shape.s390 then [ZfcpId(first, shape), DasdId(first, shape)] else []
  }

  function CommonTasks(first: TaskId): seq<Task> {
    var pre := [PreScriptsId(first)];
    [ Required("questions_config", Questions, []),
      Required("files_config", Files, []),
      Required("pre_scripts", Files, [first + 1]),
      Required("security_config", Security, pre),
      Required("access_config", Access, pre),
      Required("hostname_config", Hostname, pre),
      Required("proxy_config", Proxy, pre),
      Required("ntp_config", Ntp, pre),
      Required("l10n_config", L10n, pre),
      Required("users_config", Users, pre) ]
  }

  function DeviceTasks(first: TaskId, shape: Shape): seq<Task> {
    var pre := [PreScriptsId(first)];
    (if shape.network then [Required("network_config", Network, pre)] else [])
    + [Required("iscsi_config", ISCSI, IscsiDeps(first, shape))]
    + (if shape.s390 then [Required("zfcp_config", ZFCP, pre), Required("dasd_config", DASD, pre)] else [])
  }

  function ProductTasks(first: TaskId, shape: Shape): seq<Task> {
    var pre, storage := PreScriptsId(first), StorageId(first, shape);
    [ Required("storage_config", Storage, StorageDeps(first, shape)),
      Required("bootloader_config", Bootloader, [pre, storage]),
      Required("software_config", Software, [first + 1, pre, storage, BootloaderId(first, shape), NtpId(first)]),
      Required("selinux_config", Security, [SoftwareId(first, shape)]) ]
  }

  function ConfigGraph(first: TaskId, shape: Shape): seq<Task> {
    CommonTasks(first) + DeviceTasks(first, shape)
    + if shape.product then ProductTasks(first, shape) else []
  }

  /** The builder: it hands out the next id and remembers what is to be run. */
  class Spawner {
    const first: TaskId
    var spawned: seq<Task>

    constructor (first: TaskId)
      ensures this.first == first && spawned == []
    {
      this.first := first;
      spawned := [];
    }

    method Run(name: string, scope: Scope, deps: seq<TaskId>) returns (id: TaskId)
      modifies this
      ensures id == first + |old(spawned)|
      ensures spawned == old(spawned) + [Required(name, scope, deps)]
    {
      id := first + |spawned|;
      spawned := spawned + [Required(name, scope, deps)];
    }

    method RunAlways(name: string, scope: Scope, deps: seq<TaskId>) returns (id: TaskId)
      modifies this
      ensures id == first + |old(spawned)|
      ensures spawned == old(spawned) + [Always(name, scope, deps)]
    {
      id := first + |spawned|;
      spawned := spawned + [Always(name, scope, deps)];
    }
  }

  method RunInstall(s: Spawner)
    requires s.spawned == []
    modifies s
    ensures s.spawned == InstallGraph(s.first)
  {
    var storage := s.Run("storage_install", Storage, []);
    var scripts := s.Run("post_partitioning_scripts", Files, [storage]);
    var software := s.Run("software_install", Software, [scripts]);
    var config := s.Run("configure", Manager, [software]);
    var finish := s.Run("finish_progress", Manager, [config]);
    var critical := [storage, scripts, software, config, finish];
    var _ := s.RunAlways("finalize", Manager, critical);
  }

  method RunSetConfig(s: Spawner, shape: Shape)
    requires s.spawned == []
    modifies s
    ensures s.spawned == ConfigGraph(s.first, shape)
  {
    var files, pre, ntp := SpawnCommon(s);
    var storageDeps := SpawnDevices(s, shape, pre);
    if shape.product {
      ghost var before := s.spawned;
      var storage := s.Run("storage_config", Storage, storageDeps);
      var bootloader := s.Run("bootloader_config", Bootloader, [pre, storage]);
      var software := s.Run("software_config", Software, [files, pre, storage, bootloader, ntp]);
      var _ := s.Run("selinux_config", Security, [software]);
      assert s.spawned == before + ProductTasks(s.first, shape);
    }
  }

  method SpawnDevices(s: Spawner, shape: Shape, pre: TaskId) returns (storageDeps: seq<TaskId>)
    requires |s.spawned| == 10 && pre == PreScriptsId(s.first)
    modifies s
    ensures s.spawned == old(s.spawned) + DeviceTasks(s.first, shape)
    ensures storageDeps == StorageDeps(s.first, shape)
  {
    var iscsiDeps := [pre];
    if shape.network {
      var network := s.Run("network_config", Network, [pre]);
      iscsiDeps := iscsiDeps + [network];
    }
    storageDeps := [pre];
    var iscsi := s.Run("iscsi_config", ISCSI, iscsiDeps);
    storageDeps := storageDeps + [iscsi];
    assert iscsiDeps == IscsiDeps(s.first, shape);
    assert s.spawned == old(s.spawned) + DeviceTasks(s.first, shape.(s390 := false));
    if shape.s390 {
      ghost var before := s.spawned;
      var zfcp := s.Run("zfcp_config", ZFCP, [pre]);
      storageDeps := storageDeps + [zfcp];
      var dasd := s.Run("dasd_config", DASD, [pre]);
      storageDeps := storageDeps + [dasd];
      assert s.spawned == before + [Required("zfcp_config", ZFCP, [pre]), Required("dasd_config", DASD, [pre])];
    }
  }

  method SpawnCommon(s: Spawner) returns (files: TaskId, pre: TaskId, ntp: TaskId)
    requires s.spawned == []
    modifies s
    ensures s.spawned == CommonTasks(s.first)
    ensures files == s.first + 1 && pre == PreScriptsId(s.first) && ntp == NtpId(s.first)
  {
    var _ := s.Run("questions_config", Questions, []);
    files := s.Run("files_config", Files, []);
    pre := s.Run("pre_scripts", Files, [files]);
    var _ := s.Run("security_config", Security, [pre]);
    var _ := s.Run("access_config", Access, [pre]);
    var _ := s.Run("hostname_config", Hostname, [pre]);
    var _ := s.Run("proxy_config", Proxy, [pre]);
    ntp := s.Run("ntp_config", Ntp, [pre]);
    var _ := s.Run("l10n_config", L10n, [pre]);
    var _ := s.Run("users_config", Users, [pre]);
  }
}
