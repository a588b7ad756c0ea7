/** `NetworkState` as the source has it: fields updated in place, loops over vectors and hash tables. */
module NetworkService {
  import opened Events
  import opened Sequences
  import opened Text
  import opened Network
  import opened NetworkTheorems
  import opened NetworkReconciliation
  import opened NetworkInvariant
  import opened NetworkControllers
  import opened NetworkChanges

  lemma {:induction false} ConvertAllStops(list: seq<NetworkConnection>, n: nat, next: Uuid)
    requires n <= |list| && ConvertAll(list[..n], next).Err?
    ensures ConvertAll(list, next) == ConvertAll(list[..n], next)
  {
    if n < |list| {
      assert list[..|list| - 1][..n] == list[..n];
      ConvertAllStops(list[..|list| - 1], n, next);
    } else {
      assert list[..n] == list;
    }
  }

  lemma ConvertAllStep(list: seq<NetworkConnection>, i: nat, next: Uuid, converted: Result<Connection>)
    requires i < |list| && ConvertAll(list[..i], next).Ok? && converted == Convert(list[i], next + i)
    ensures ConvertAll(list[..i + 1], next) ==
              if converted.Err? then Err(converted.error)
              else Ok(ConvertAll(list[..i], next).value + [converted.value])
  {
    assert list[..i + 1][..i] == list[..i];
  }

  lemma ConvertFails(list: seq<NetworkConnection>, i: nat, next: Uuid, e: Error)
    requires i < |list| && ConvertAll(list[..i], next).Ok? && Convert(list[i], next + i) == Err(e)
    ensures ConvertAll(list, next) == Err(e)
  {
    ConvertAllStep(list, i, next, Err(e));
    ConvertAllStops(list, i + 1, next);
  }

  lemma ClaimsStep(list: seq<NetworkConnection>, i: nat, next: Uuid)
    requires i < |list|
    ensures Claims(list[..i + 1], next) == ClaimPorts(Claims(list[..i], next), PortsOf(list[i]), next + i)
  {
    assert list[..i + 1][..i] == list[..i];
  }

  method Claim(claims: map<string, Uuid>, ports: seq<string>, uuid: Uuid) returns (r: map<string, Uuid>)
    ensures r == ClaimPorts(claims, ports, uuid)
  {
    r := claims;
    var i := 0;
    while i < |ports|
      invariant i <= |ports|
      invariant ClaimPorts(r, ports[i..], uuid) == ClaimPorts(claims, ports, uuid)
    {
      assert ports[i..][1..] == ports[i + 1..];
      r := r[ports[i] := uuid];
      i := i + 1;
    }
  }

  /** Takes the ports out of the hash table in the order that the table chooses. */
  method AddClaimed(listed: seq<Connection>, claims: map<string, Uuid>, base: Uuid)
    returns (conns: seq<Connection>, spare: Uuid, ghost order: seq<string>)
    ensures Enumerates(order, claims.Keys) && conns == AddPorts(listed, claims, order, base)
    ensures listed <= conns
    ensures spare == base + |order|
  {
    conns, order := listed, [];
    var left := claims.Keys;
    spare := base;
    while left != {}
      invariant left <= claims.Keys && NoRepeats(order) && spare == base + |order|
      invariant forall p :: p in order <==> p in claims && p !in left
      invariant conns == AddPorts(listed, claims, order, base) && listed <= conns
      decreases |left|
    {
      var port: string :| port in left;
      var conn := FirstAnswering(conns, port).GetOr(NewPort(port, spare));
      conns := conns + [conn.(controller := Some(claims[port]))];
      left, order, spare := left - {port}, order + [port], spare + 1;
    }
  }

  method ConvertListed(list: seq<NetworkConnection>, next: Uuid)
    returns (r: Result<seq<Connection>>, claims: map<string, Uuid>)
    ensures r == ConvertAll(list, next) && (r.Ok? ==> claims == Claims(list, next))
  {
    var conns := [];
    claims := map[];
    var i := 0;
    while i < |list|
      invariant i <= |list|
      invariant ConvertAll(list[..i], next) == Ok(conns) && claims == Claims(list[..i], next)
    {
      var converted := Convert(list[i], next + i);
      if converted.Err? {
        ConvertFails(list, i, next, converted.error);
        return Err(converted.error), claims;
      }
      ConvertAllStep(list, i, next, converted);
      ClaimsStep(list, i, next);
      claims := Claim(claims, PortsOf(list[i]), next + i);
      conns := conns + [converted.value];
      i := i + 1;
    }
    assert list[..i] == list;
    r := Ok(conns);
  }

  /** The conversion of a list of declared connections; new uuids are taken from `next` on. */
  method ConvertCollection(list: seq<NetworkConnection>, next: Uuid)
    returns (r: Result<seq<Connection>>, unused: Uuid, ghost order: seq<string>)
    ensures NoRepeats(order) && (forall p | p in order :: p in Claims(list, next)) && unused == next + |list| + |order|
    ensures r == Collect(list, next, order)
    ensures r.Err? <==> ConvertAll(list, next).Err?
    ensures r.Ok? ==> Enumerates(order, Claims(list, next).Keys)
  {
    var listed, claims := ConvertListed(list, next);
    if listed.Err? {
      return listed, next + |list|, [];
    }
    var conns;
    conns, unused, order := AddClaimed(listed.value, claims, next + |list|);
    r := Ok(conns);
  }

  /** Each flag is as set, and as before where it is not set. */
  predicate Follows(before: General, s: StateSettings, after: General) {
    && after.copyNetwork == (if s.copyNetwork.Some? then s.copyNetwork.value else before.copyNetwork)
    && after.wirelessEnabled == (if s.wirelessEnabled.Some? then s.wirelessEnabled.value else before.wirelessEnabled)
    && after.networkingEnabled ==
         (if s.networkingEnabled.Some? then s.networkingEnabled.value else before.networkingEnabled)
  }

  class NetworkState {
    var userConfig: Option<Config>
    var general: General
    var connections: seq<Connection>
    /** Every uuid handed out so far is below this one. */
    var nextUuid: Uuid

    predicate Valid()
      reads this
    {
      Distinct(connections) && Below(connections, nextUuid) && ControllersIn(connections, connections)
    }

    method AddConnection(c: Connection) returns (error: Option<Error>)
      modifies this`connections
      ensures (connections, error) == Network.AddConnection(old(connections), c)
      ensures if exists i :: 0 <= i < |old(connections)| && old(connections)[i].id == c.id
              then connections == old(connections) && error == Some(ConnectionExists(c.id))
              else connections == old(connections) + [c] && error.None?
      ensures c.uuid < nextUuid && !HasUuid(old(connections), c.uuid) ==>
                (c.controller.Some? ==> HasUuid(old(connections), c.controller.value)) ==>
                  old(Valid()) ==> Valid()
    {
      if FindId(connections, c.id) < |connections| {
        return Some(ConnectionExists(c.id));
      }
      connections := connections + [c];
      error := None;
    }

    method UpdateConnection(c: Connection) returns (error: Option<Error>)
      modifies this`connections
      ensures (connections, error) == Network.UpdateConnection(old(connections), c)
      ensures (forall i | 0 <= i < |old(connections)| :: old(connections)[i].uuid != c.uuid) ==>
                connections == old(connections) && error == Some(UnknownUuid(c.uuid))
      ensures forall i | 0 <= i < |old(connections)| && old(connections)[i].uuid == c.uuid &&
                         (forall j | 0 <= j < i :: old(connections)[j].uuid != c.uuid) ::
                connections == old(connections)[i := c] && error.None?
    {
      var n := FindUuid(connections, c.uuid);
      if n == |connections| {
        return Some(UnknownUuid(c.uuid));
      }
      connections := connections[n := c];
      error := None;
    }

    method SetPorts(controller: Connection, ports: seq<string>) returns (error: Option<Error>)
      modifies this`connections
      ensures (connections, error) == Network.SetPorts(old(connections), controller, ports)
    {
      if !IsController(controller.config) {
        return Some(NotControllerConnection(controller.id));
      }
      var controlled := [];
      var i := 0;
      while i < |ports|
        invariant i <= |ports| && connections == old(connections)
        invariant FirstUnknown(connections, ports) == FirstUnknown(connections, ports[i..])
        invariant forall p | p in ports[..i] :: Resolve(connections, p) < |connections|
        invariant controlled == ControlledUuids(connections, ports[..i])
      {
        var n := Resolve(connections, ports[i]);
        assert ports[i..][1..] == ports[i + 1..];
        if n == |connections| {
          return Some(UnknownConnection(ports[i]));
        }
        assert ports[..i + 1] == ports[..i] + [ports[i]];
        ControlledStep(connections, ports[..i], ports[i]);
        controlled := controlled + [connections[n].uuid];
        i := i + 1;
      }
      assert ports[..i] == ports && ports[i..] == [];
      NoneUnknown(connections, ports);
      ReassignPorts(controller.uuid, controlled);
      error := None;
    }

    method ReassignPorts(controller: Uuid, controlled: seq<Uuid>)
      modifies this`connections
      ensures connections == ReassignAll(old(connections), controller, controlled)
    {
      var k := 0;
      while k < |connections|
        invariant k <= |connections| == |old(connections)|
        invariant forall x | 0 <= x < k :: connections[x] == Reassign(old(connections)[x], controller, controlled)
        invariant forall x | k <= x < |connections| :: connections[x] == old(connections)[x]
      {
        var conn := connections[k];
        if conn.uuid in controlled {
          conn := conn.(controller := Some(controller));
          if conn.interface.None? {
            conn := conn.(interface := Some(conn.id));
          }
        } else if conn.controller == Some(controller) {
          conn := conn.(controller := None, status := Removed);
        }
        connections := connections[k := conn];
        k := k + 1;
      }
    }

    method SanitizedCollection(list: seq<NetworkConnection>)
      returns (r: Result<seq<Connection>>, ghost order: seq<string>)
      modifies this`nextUuid
      ensures var next := old(nextUuid);
              && NoRepeats(order) && (forall p | p in order :: p in Claims(list, next))
              && (r == match Collect(list, next, order)
                       case Err(e) => Err(e)
                       case Ok(entries) => Ok(Sanitize(connections, entries)))
              && (r.Ok? ==> Enumerates(order, Claims(list, next).Keys))
              && nextUuid == next + |list| + |order|
    {
      var converted;
      converted, nextUuid, order := ConvertCollection(list, nextUuid);
      if converted.Err? {
        return Err(converted.error), order;
      }
      var clean := CleanEntries(converted.value);
      r := Ok(clean);
    }

    /** Known connections keep their uuid; for controllers the change of uuid is remembered. */
    method KeepUuids(entries: seq<Connection>) returns (collection: seq<Connection>, renamed: map<Uuid, Uuid>)
      ensures renamed == Renamed(connections, entries) && |collection| == |entries|
      ensures forall x: nat | x < |entries| :: collection[x] == WithKnownUuid(connections, entries[x])
    {
      collection, renamed := entries, map[];
      var i := 0;
      while i < |collection|
        invariant i <= |collection| == |entries|
        invariant renamed == Renamed(connections, entries[..i])
        invariant forall x: nat | x < i :: collection[x] == WithKnownUuid(connections, entries[x])
        invariant forall x: nat | i <= x < |entries| :: collection[x] == entries[x]
      {
        RenamedStep(connections, entries, i);
        var conn := collection[i];
        var n := FindId(connections, conn.id);
        if n < |connections| {
          collection := collection[i := conn.(uuid := connections[n].uuid)];
          if IsController(conn.config) {
            renamed := renamed[conn.uuid := connections[n].uuid];
          }
        }
        i := i + 1;
      }
      assert entries[..i] == entries;
    }

    method CleanEntries(entries: seq<Connection>) returns (collection: seq<Connection>)
      ensures collection == Sanitize(connections, entries)
    {
      var renamed;
      collection, renamed := KeepUuids(entries);
      var k := 0;
      while k < |collection|
        invariant k <= |collection| == |entries|
        invariant forall x: nat | x < k :: collection[x] == SanitizeOne(connections, renamed, entries[x])
        invariant forall x: nat | k <= x < |entries| :: collection[x] == WithKnownUuid(connections, entries[x])
      {
        var controller := collection[k].controller;
        if controller.Some? && controller.value in renamed {
          collection := collection[k := collection[k].(controller := Some(renamed[controller.value]))];
        }
        k := k + 1;
      }
    }

    /**
     The update is what `Reconcile` says for some order of the hash table. On error the connections keep
     what was done before, and the configuration is not remembered.
     */
    method UpdateState(config: Config) returns (error: Option<Error>, ghost order: seq<string>)
      modifies this
      ensures old(Valid()) ==> Valid() && Extends(old(connections), connections)
      ensures old(Valid()) ==>
                KeepsUntouched(old(userConfig), config.connections.GetOr([]), old(connections), connections)
      ensures old(userConfig) == Some(config) ==>
                && error.None? && connections == old(connections)
                && general == old(general) && userConfig == old(userConfig)
      ensures old(userConfig) != Some(config) ==>
                var changed := Changed(old(userConfig), config.connections.GetOr([]));
                && NoRepeats(order) && (forall p | p in order :: p in Claims(changed, old(nextUuid)))
                && (connections, error) == Reconcile(old(connections), changed, old(nextUuid), order)
                && (ConvertAll(changed, old(nextUuid)).Ok? ==> Enumerates(order, Claims(changed, old(nextUuid)).Keys))
                && userConfig == (if error.None? then Some(config) else old(userConfig))
                && general == (if error.None? then UpdateGeneral(old(general), config.state) else old(general))
      ensures if old(userConfig) != Some(config) && error.None? && config.state.Some?
              then Follows(old(general), config.state.value, general) else general == old(general)
    {
      order := [];
      if userConfig == Some(config) {
        return None, [];
      }
      var changed := Changed(userConfig, config.connections.GetOr([]));
      ghost var next := nextUuid;
      if changed != [] {
        error, order := UpdateConnections(changed);
        if old(Valid()) {
          AllUntouchedKept(old(connections), userConfig, config.connections.GetOr([]), next, order);
        }
        if error.Some? {
          return;
        }
      } else {
        ReconcileNothing(connections, nextUuid);
      }
      general := UpdateGeneral(general, config.state);
      userConfig := Some(config);
      error := None;
    }

    method UpdateConnections(changed: seq<NetworkConnection>) returns (error: Option<Error>, ghost order: seq<string>)
      modifies this`connections, this`nextUuid
      ensures old(Valid()) ==> Valid() && Extends(old(connections), connections)
      ensures NoRepeats(order) && forall p | p in order :: p in Claims(changed, old(nextUuid))
      ensures (connections, error) == Reconcile(old(connections), changed, old(nextUuid), order)
      ensures ConvertAll(changed, old(nextUuid)).Ok? ==> Enumerates(order, Claims(changed, old(nextUuid)).Keys)
    {
      var collection;
      collection, order := SanitizedCollection(changed);
      if old(Valid()) {
        ReconcileKeeps(connections, changed, old(nextUuid), order);
        ControllersExist(connections, changed, old(nextUuid), order);
      }
      if collection.Err? {
        return Some(collection.error), order;
      }
      error := MergeAll(collection.value);
      if error.None? {
        error := SetPortsOfAll(changed);
      }
    }

    method MergeAll(entries: seq<Connection>) returns (error: Option<Error>)
      modifies this`connections
      ensures (connections, error) == Merge(old(connections), entries)
    {
      var i := 0;
      while i < |entries|
        invariant i <= |entries| && Merge(connections, entries[i..]) == Merge(old(connections), entries)
      {
        assert entries[i..][1..] == entries[i + 1..];
        if FindId(connections, entries[i].id) < |connections| {
          error := this.UpdateConnection(entries[i]);
        } else {
          error := this.AddConnection(entries[i]);
        }
        if error.Some? {
          return;
        }
        i := i + 1;
      }
      error := None;
    }

    method SetPortsOfAll(changed: seq<NetworkConnection>) returns (error: Option<Error>)
      modifies this`connections
      ensures (connections, error) == SetAllPorts(old(connections), changed)
    {
      var i := 0;
      while i < |changed|
        invariant i <= |changed| && SetAllPorts(old(connections), changed[..i]) == (connections, None)
      {
        assert changed[..i + 1][..i] == changed[..i];
        var ports := UpdatePorts(changed[i]);
        if ports.Some? {
          var n := FindId(connections, changed[i].id);
          if n < |connections| {
            error := this.SetPorts(connections[n], ports.value);
            if error.Some? {
              SetAllPortsStops(old(connections), changed, i + 1);
              return;
            }
          }
        }
        i := i + 1;
      }
      assert changed[..i] == changed;
      error := None;
    }
  }

  function WithKnownUuid(conns: seq<Connection>, c: Connection): Connection {
    var n := FindId(conns, c.id);
    if n < |conns| then c.(uuid := conns[n].uuid) else c
  }

  lemma RenamedStep(conns: seq<Connection>, entries: seq<Connection>, i: nat)
    requires i < |entries|
    ensures Renamed(conns, entries[..i + 1]) ==
              var before, n := Renamed(conns, entries[..i]), FindId(conns, entries[i].id);
              if n < |conns| && IsController(entries[i].config) then before[entries[i].uuid := conns[n].uuid]
              else before
  {
    assert entries[..i + 1][..i] == entries[..i];
  }

  lemma {:induction false} ControlledStep(conns: seq<Connection>, ports: seq<string>, p: string)
    requires (forall q | q in ports :: Resolve(conns, q) < |conns|) && Resolve(conns, p) < |conns|
    ensures ControlledUuids(conns, ports + [p]) == ControlledUuids(conns, ports) + [conns[Resolve(conns, p)].uuid]
  {
    if ports == [] {
      assert ports + [p] == [p];
    } else {
      assert (ports + [p])[1..] == ports[1..] + [p];
      ControlledStep(conns, ports[1..], p);
    }
  }

  lemma ReconcileNothing(conns: seq<Connection>, next: Uuid)
    ensures Reconcile(conns, [], next, []) == (conns, None)
  {
    assert Sanitize(conns, []) == [];
  }
}
