/**
 The network state (rust/agama-network/src/model.rs). Identifiers are numbers; a new one is `nextUuid`,
 above all in use.
 */
module Network {
  import opened Events
  import BondOptions
  import Links = NetworkLinks

  type Uuid = nat

  datatype Error =
    | ConnectionExists(id: string)
    | UnknownConnection(name: string)
    | UnknownUuid(uuid: Uuid)
    | NotControllerConnection(id: string)
    | InvalidBondMode(mode: string)
    | InvalidBondOptions
    | InvalidLink(error: Links.LinkError)

  datatype Result<+T> = Ok(value: T) | Err(error: Error)

  datatype Status = Up | Down | Removed | Keep

  datatype BondMode = RoundRobin | ActiveBackup | BalanceXOR | Broadcast | LACP | BalanceTLB | BalanceALB

  datatype BondConfig = BondConfig(mode: BondMode, options: BondOptions.Options)

  datatype BridgeConfig = BridgeConfig(
    stp: Option<bool>, priority: Option<nat>, forwardDelay: Option<nat>, helloTime: Option<nat>,
    maxAge: Option<nat>, ageingTime: Option<nat>)

  datatype ConnectionConfig =
    | Ethernet
    | Wireless(wireless: Links.WirelessConfig)
    | Vlan(vlan: Links.VlanConfig)
    | Bond(bond: BondConfig)
    | Bridge(bridge: BridgeConfig)
    | OtherConfig(text: string)

  datatype Connection = Connection(
    id: string,
    uuid: Uuid,
    interface: Option<string>,
    controller: Option<Uuid>,
    status: Status,
    config: ConnectionConfig,
    ieee: Option<Links.IeeeConfig>,
    profile: Links.Profile)

  datatype BondSettings = BondSettings(mode: string, options: Option<string>, ports: seq<string>)

  datatype BridgeSettings = BridgeSettings(
    stp: Option<bool>, priority: Option<nat>, forwardDelay: Option<nat>, helloTime: Option<nat>,
    maxAge: Option<nat>, ports: seq<string>)

  datatype NetworkConnection = NetworkConnection(
    id: string,
    interface: Option<string>,
    status: Option<Status>,
    vlan: Option<Links.VlanSettings>,
    wireless: Option<Links.WirelessSettings>,
    bond: Option<BondSettings>,
    bridge: Option<BridgeSettings>,
    ieee: Option<Links.IeeeSettings>,
    profile: Links.ProfileSettings)

  datatype General = General(copyNetwork: bool, wirelessEnabled: bool, networkingEnabled: bool)

  datatype StateSettings = StateSettings(
    copyNetwork: Option<bool>, wirelessEnabled: Option<bool>, networkingEnabled: Option<bool>)

  datatype Config = Config(connections: Option<seq<NetworkConnection>>, state: Option<StateSettings>)

  /*** Converting one connection ***/

  function ModeOf(text: string): Option<BondMode> {
    match text
    case "balance-rr" => Some(RoundRobin)
    case "active-backup" => Some(ActiveBackup)
    case "balance-xor" => Some(BalanceXOR)
    case "broadcast" => Some(Broadcast)
    case "802.3ad" => Some(LACP)
    case "balance-tlb" => Some(BalanceTLB)
    case "balance-alb" => Some(BalanceALB)
    case _ => None
  }

  function ConvertBond(s: BondSettings): Result<BondConfig> {
    if ModeOf(s.mode).None? then Err(InvalidBondMode(s.mode))
    else if s.options.None? then Ok(BondConfig(ModeOf(s.mode).value, map[]))
    else
      match BondOptions.Parse(s.options.value)
      case None => Err(InvalidBondOptions)
      case Some(options) => Ok(BondConfig(ModeOf(s.mode).value, options))
  }

  /** The maximum age is not taken over. */
  function ConvertBridge(s: BridgeSettings): BridgeConfig {
    BridgeConfig(s.stp, s.priority, s.forwardDelay, s.helloTime, None, None)
  }

  function FirstError(nc: NetworkConnection): Option<Error> {
    if nc.vlan.Some? && Links.ReadVlan(nc.vlan.value).Bad? then Some(InvalidLink(Links.ReadVlan(nc.vlan.value).error))
    else if nc.wireless.Some? && Links.ReadWireless(nc.wireless.value).Bad? then
      Some(InvalidLink(Links.ReadWireless(nc.wireless.value).error))
    else if nc.bond.Some? && ConvertBond(nc.bond.value).Err? then Some(ConvertBond(nc.bond.value).error)
    else if nc.ieee.Some? && Links.ReadIeee(nc.ieee.value).Bad? then
      Some(InvalidLink(Links.ReadIeee(nc.ieee.value).error))
    else None
  }

  /** Bridge settings win over bond settings, those over wireless, those over VLAN. */
  function ConvertConfig(nc: NetworkConnection): ConnectionConfig
    requires FirstError(nc).None?
  {
    if nc.bridge.Some? then Bridge(ConvertBridge(nc.bridge.value))
    else if nc.bond.Some? then Bond(ConvertBond(nc.bond.value).value)
    else if nc.wireless.Some? then Wireless(Links.ReadWireless(nc.wireless.value).value)
    else if nc.vlan.Some? then Vlan(Links.ReadVlan(nc.vlan.value).value)
    else Ethernet
  }

  function Convert(nc: NetworkConnection, uuid: Uuid): Result<Connection> {
    if FirstError(nc).Some? then Err(FirstError(nc).value)
    else Ok(Connection(nc.id, uuid, nc.interface, None, nc.status.GetOr(Up), ConvertConfig(nc),
                       if nc.ieee.Some? then Some(Links.ReadIeee(nc.ieee.value).value) else None,
                       Links.ReadProfile(nc.profile)))
  }

  /** `Connection::new` for a port that the configuration does not list. */
  function NewPort(name: string, uuid: Uuid): Connection {
    Connection(name, uuid, None, None, Up, Ethernet, None, Links.DEFAULT_PROFILE)
  }

  /*** From the declarative form to connections ***/

  /** The ports that the conversion of the whole list uses. */
  function PortsOf(nc: NetworkConnection): seq<string> {
    if nc.bond.Some? then nc.bond.value.ports
    else if nc.bridge.Some? then nc.bridge.value.ports
    else []
  }

  function ConvertAll(list: seq<NetworkConnection>, next: Uuid): Result<seq<Connection>> {
    if list == [] then Ok([])
    else
      var prefix := list[..|list| - 1];
      match ConvertAll(prefix, next)
      case Err(e) => Err(e)
      case Ok(conns) =>
        match Convert(list[|list| - 1], next + |prefix|)
        case Err(e) => Err(e)
        case Ok(conn) => Ok(conns + [conn])
  }

  function ClaimPorts(claims: map<string, Uuid>, ports: seq<string>, uuid: Uuid): map<string, Uuid>
    decreases ports
  {
    if ports == [] then claims else ClaimPorts(claims[ports[0] := uuid], ports[1..], uuid)
  }

  lemma {:induction false} ClaimedPort(claims: map<string, Uuid>, ports: seq<string>, uuid: Uuid, p: string)
    ensures var r := ClaimPorts(claims, ports, uuid);
            && (p in r <==> p in claims || p in ports)
            && (p in r ==> r[p] == if p in ports then uuid else claims[p])
    decreases ports
  {
    if ports != [] {
      ClaimedPort(claims[ports[0] := uuid], ports[1..], uuid, p);
    }
  }

  /** Which controller gets each port name: the last one that lists it. */
  function Claims(list: seq<NetworkConnection>, next: Uuid): map<string, Uuid> {
    if list == [] then map[]
    else ClaimPorts(Claims(list[..|list| - 1], next), PortsOf(list[|list| - 1]), next + |list| - 1)
  }

  predicate AnswersTo(c: Connection, port: string) {
    c.id == port || c.interface == Some(port)
  }

  function FirstAnswering(conns: seq<Connection>, port: string): Option<Connection> {
    if conns == [] then None
    else if AnswersTo(conns[0], port) then Some(conns[0])
    else FirstAnswering(conns[1..], port)
  }

  function PortEntry(conns: seq<Connection>, port: string, controller: Uuid, spare: Uuid): Connection {
    FirstAnswering(conns, port).GetOr(NewPort(port, spare)).(controller := Some(controller))
  }

  /** The claimed ports are appended in the order in which the hash table is iterated. */
  function AddPorts(conns: seq<Connection>, claims: map<string, Uuid>, order: seq<string>, next: Uuid): seq<Connection>
    requires forall p | p in order :: p in claims
    decreases order
  {
    if order == [] then conns
    else
      var last := |order| - 1;
      var before := AddPorts(conns, claims, order[..last], next);
      before + [PortEntry(before, order[last], claims[order[last]], next + last)]
  }

  function Collect(list: seq<NetworkConnection>, next: Uuid, order: seq<string>): Result<seq<Connection>>
    requires forall p | p in order :: p in Claims(list, next)
  {
    match ConvertAll(list, next)
    case Err(e) => Err(e)
    case Ok(conns) => Ok(AddPorts(conns, Claims(list, next), order, next + |list|))
  }

  /*** Looking up connections ***/

  function FindId(conns: seq<Connection>, id: string): (n: nat)
    ensures n <= |conns| && (forall i | 0 <= i < n :: conns[i].id != id) && (n < |conns| ==> conns[n].id == id)
  {
    if conns == [] || conns[0].id == id then 0 else 1 + FindId(conns[1..], id)
  }

  function FindUuid(conns: seq<Connection>, uuid: Uuid): (n: nat)
    ensures n <= |conns| && (forall i | 0 <= i < n :: conns[i].uuid != uuid) && (n < |conns| ==> conns[n].uuid == uuid)
  {
    if conns == [] || conns[0].uuid == uuid then 0 else 1 + FindUuid(conns[1..], uuid)
  }

  function FindInterface(conns: seq<Connection>, name: string): (n: nat)
    ensures n <= |conns| && (forall i | 0 <= i < n :: conns[i].interface != Some(name))
         && (n < |conns| ==> conns[n].interface == Some(name))
  {
    if conns == [] || conns[0].interface == Some(name) then 0 else 1 + FindInterface(conns[1..], name)
  }

  /** What a port name stands for: the first connection with that interface, else with that id. */
  function Resolve(conns: seq<Connection>, name: string): (n: nat)
    ensures n <= |conns|
  {
    if FindInterface(conns, name) < |conns| then FindInterface(conns, name) else FindId(conns, name)
  }

  /*** Operations on the list of connections ***/

  function AddConnection(conns: seq<Connection>, c: Connection): (seq<Connection>, Option<Error>) {
    if FindId(conns, c.id) < |conns| then (conns, Some(ConnectionExists(c.id))) else (conns + [c], None)
  }

  function UpdateConnection(conns: seq<Connection>, c: Connection): (seq<Connection>, Option<Error>) {
    var n := FindUuid(conns, c.uuid);
    if n < |conns| then (conns[n := c], None) else (conns, Some(UnknownUuid(c.uuid)))
  }

  function MergeOne(conns: seq<Connection>, c: Connection): (seq<Connection>, Option<Error>) {
    if FindId(conns, c.id) < |conns| then UpdateConnection(conns, c) else AddConnection(conns, c)
  }

  /** Stops at the first error and keeps what was done before. */
  function Merge(conns: seq<Connection>, entries: seq<Connection>): (seq<Connection>, Option<Error>)
    decreases entries
  {
    if entries == [] then (conns, None)
    else
      var (after, error) := MergeOne(conns, entries[0]);
      if error.Some? then (after, error) else Merge(after, entries[1..])
  }

  predicate IsController(c: ConnectionConfig) {
    c.Bond? || c.Bridge?
  }

  /** The first port name that stands for nothing. */
  function FirstUnknown(conns: seq<Connection>, ports: seq<string>): Option<string> {
    if ports == [] then None
    else if Resolve(conns, ports[0]) == |conns| then Some(ports[0])
    else FirstUnknown(conns, ports[1..])
  }

  function ControlledUuids(conns: seq<Connection>, ports: seq<string>): seq<Uuid>
    requires forall p | p in ports :: Resolve(conns, p) < |conns|
  {
    if ports == [] then [] else [conns[Resolve(conns, ports[0])].uuid] + ControlledUuids(conns, ports[1..])
  }

  function Reassign(c: Connection, controller: Uuid, controlled: seq<Uuid>): Connection {
    if c.uuid in controlled then
      c.(controller := Some(controller), interface := if c.interface.None? then Some(c.id) else c.interface)
    else if c.controller == Some(controller) then c.(controller := None, status := Removed)
    else c
  }

  function ReassignAll(conns: seq<Connection>, controller: Uuid, controlled: seq<Uuid>): (r: seq<Connection>)
    ensures |r| == |conns| && forall i | 0 <= i < |r| :: r[i] == Reassign(conns[i], controller, controlled)
  {
    if conns == [] then []
    else [Reassign(conns[0], controller, controlled)] + ReassignAll(conns[1..], controller, controlled)
  }

  lemma {:induction false} NoneUnknown(conns: seq<Connection>, ports: seq<string>)
    ensures FirstUnknown(conns, ports).None? <==> forall p | p in ports :: Resolve(conns, p) < |conns|
  {
    if ports != [] {
      NoneUnknown(conns, ports[1..]);
      assert ports[0] in ports;
    }
  }

  function SetPorts(conns: seq<Connection>, controller: Connection,
                    ports: seq<string>): (seq<Connection>, Option<Error>) {
    if !IsController(controller.config) then (conns, Some(NotControllerConnection(controller.id)))
    else
      NoneUnknown(conns, ports);
      match FirstUnknown(conns, ports)
      case Some(name) => (conns, Some(UnknownConnection(name)))
      case None => (ReassignAll(conns, controller.uuid, ControlledUuids(conns, ports)), None)
  }

  /*** Updating the state ***/

  /** The ports that the update uses for a changed connection, if it is a controller. */
  function UpdatePorts(nc: NetworkConnection): Option<seq<string>> {
    if nc.bridge.Some? then Some(nc.bridge.value.ports)
    else if nc.bond.Some? then Some(nc.bond.value.ports)
    else None
  }

  function SetPortsOf(conns: seq<Connection>, nc: NetworkConnection): (seq<Connection>, Option<Error>) {
    var n := FindId(conns, nc.id);
    if UpdatePorts(nc).None? || n == |conns| then (conns, None)
    else SetPorts(conns, conns[n], UpdatePorts(nc).value)
  }

  function SetAllPorts(conns: seq<Connection>, list: seq<NetworkConnection>): (seq<Connection>, Option<Error>) {
    if list == [] then (conns, None)
    else
      var (before, error) := SetAllPorts(conns, list[..|list| - 1]);
      if error.Some? then (before, error) else SetPortsOf(before, list[|list| - 1])
  }

  /** Entries for known ids get the known uuid; for controllers the change of uuid is remembered. */
  function Renamed(conns: seq<Connection>, entries: seq<Connection>): map<Uuid, Uuid> {
    if entries == [] then map[]
    else
      var c := entries[|entries| - 1];
      var before := Renamed(conns, entries[..|entries| - 1]);
      var n := FindId(conns, c.id);
      if n < |conns| && IsController(c.config) then before[c.uuid := conns[n].uuid] else before
  }

  function SanitizeOne(conns: seq<Connection>, renamed: map<Uuid, Uuid>, c: Connection): Connection {
    var n := FindId(conns, c.id);
    c.(uuid := if n < |conns| then conns[n].uuid else c.uuid,
       controller := if c.controller.Some? && c.controller.value in renamed
                     then Some(renamed[c.controller.value]) else c.controller)
  }

  function Sanitize(conns: seq<Connection>, entries: seq<Connection>): (r: seq<Connection>)
    ensures |r| == |entries|
    ensures forall i | 0 <= i < |r| :: r[i] == SanitizeOne(conns, Renamed(conns, entries), entries[i])
  {
    seq(|entries|, i requires 0 <= i < |entries| => SanitizeOne(conns, Renamed(conns, entries), entries[i]))
  }

  function Known(config: Option<Config>, id: string): Option<NetworkConnection> {
    if config.None? || config.value.connections.None? then None else FirstWithId(config.value.connections.value, id)
  }

  function FirstWithId(list: seq<NetworkConnection>, id: string): Option<NetworkConnection> {
    if list == [] then None else if list[0].id == id then Some(list[0]) else FirstWithId(list[1..], id)
  }

  /** The connections that differ from what the user asked for last time. */
  function Changed(user: Option<Config>, list: seq<NetworkConnection>): (r: seq<NetworkConnection>)
    ensures forall nc :: nc in r <==> nc in list && Known(user, nc.id) != Some(nc)
  {
    if list == [] then []
    else (if Known(user, list[0].id) == Some(list[0]) then [] else [list[0]]) + Changed(user, list[1..])
  }

  function Reconcile(conns: seq<Connection>, changed: seq<NetworkConnection>, next: Uuid, order: seq<string>)
    : (seq<Connection>, Option<Error>)
    requires forall p | p in order :: p in Claims(changed, next)
  {
    match Collect(changed, next, order)
    case Err(e) => (conns, Some(e))
    case Ok(entries) =>
      var (merged, error) := Merge(conns, Sanitize(conns, entries));
      if error.Some? then (merged, error) else SetAllPorts(merged, changed)
  }

  function UpdateGeneral(g: General, s: Option<StateSettings>): General {
    if s.None? then g
    else General(s.value.copyNetwork.GetOr(g.copyNetwork), s.value.wirelessEnabled.GetOr(g.wirelessEnabled),
                 s.value.networkingEnabled.GetOr(g.networkingEnabled))
  }
}
