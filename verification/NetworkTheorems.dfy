/** What the network reconciliation promises. */
module NetworkTheorems {
  import opened Events
  import opened Network

  predicate Distinct(conns: seq<Connection>) {
    forall i, j | 0 <= i < j < |conns| :: conns[i].id != conns[j].id && conns[i].uuid != conns[j].uuid
  }

  /** A name stands for the first connection with that interface; only if there is none, with that id. */
  lemma ResolvesFirst(conns: seq<Connection>, name: string, n: nat)
    requires n < |conns|
    ensures conns[n].interface == Some(name) && (forall i | 0 <= i < n :: conns[i].interface != Some(name)) ==>
              Resolve(conns, name) == n
    ensures (forall c | c in conns :: c.interface != Some(name)) ==>
              conns[n].id == name && (forall i | 0 <= i < n :: conns[i].id != name) ==> Resolve(conns, name) == n
    ensures Resolve(conns, name) == |conns| <==> forall c | c in conns :: c.interface != Some(name) && c.id != name
  {
    if forall c | c in conns :: c.interface != Some(name) && c.id != name {
      assert FindInterface(conns, name) == |conns| && FindId(conns, name) == |conns|;
    } else {
      var c :| c in conns && (c.interface == Some(name) || c.id == name);
    }
  }

  /*** Setting the ports of one controller ***/

  /** Some port name of the list stands for the connection at position `x`. */
  predicate ClaimedAt(conns: seq<Connection>, ports: seq<string>, x: nat) {
    exists p | p in ports :: Resolve(conns, p) == x
  }

  lemma {:induction false} ControlledAre(conns: seq<Connection>, ports: seq<string>, x: nat)
    requires Distinct(conns) && x < |conns|
    requires forall p | p in ports :: Resolve(conns, p) < |conns|
    ensures conns[x].uuid in ControlledUuids(conns, ports) <==> ClaimedAt(conns, ports, x)
  {
    if ports != [] {
      ControlledAre(conns, ports[1..], x);
      if ClaimedAt(conns, ports[1..], x) {
        var p :| p in ports[1..] && Resolve(conns, p) == x;
        assert p in ports;
      }
    }
  }

  /**
   Exact and all or nothing: on error nothing changes; otherwise the controlled connections are
   exactly those the names stand for, the dropped ones are marked Removed, the others are untouched.
   */
  lemma SetPortsExact(conns: seq<Connection>, controller: Connection, ports: seq<string>)
    requires Distinct(conns)
    ensures var (after, error) := SetPorts(conns, controller, ports);
            && (error.None? <==>
                  IsController(controller.config) && forall p | p in ports :: Resolve(conns, p) < |conns|)
            && (error.Some? ==> after == conns)
            && |after| == |conns|
            && (error.None? ==> forall x | 0 <= x < |conns| ::
                  && (after[x].controller == Some(controller.uuid) <==> ClaimedAt(conns, ports, x))
                  && (ClaimedAt(conns, ports, x) ==>
                        after[x] == conns[x].(controller := Some(controller.uuid),
                                              interface := Some(conns[x].interface.GetOr(conns[x].id))))
                  && (!ClaimedAt(conns, ports, x) && conns[x].controller == Some(controller.uuid) ==>
                        after[x] == conns[x].(controller := None, status := Removed))
                  && (!ClaimedAt(conns, ports, x) && conns[x].controller != Some(controller.uuid) ==>
                        after[x] == conns[x]))
  {
    NoneUnknown(conns, ports);
    if SetPorts(conns, controller, ports).1.None? {
      forall x | 0 <= x < |conns|
        ensures conns[x].uuid in ControlledUuids(conns, ports) <==> ClaimedAt(conns, ports, x)
      {
        ControlledAre(conns, ports, x);
      }
    }
  }

  /** The error of setting ports: no controller, or else the first name that stands for nothing. */
  predicate PortsAnswered(conns: seq<Connection>, controller: Connection, ports: seq<string>, error: Option<Error>) {
    if !controller.config.Bond? && !controller.config.Bridge? then error == Some(NotControllerConnection(controller.id))
    else
      && (error.None? <==> forall p | p in ports :: Resolve(conns, p) < |conns|)
      && forall i | 0 <= i < |ports| && Resolve(conns, ports[i]) == |conns| &&
                    (forall j | 0 <= j < i :: Resolve(conns, ports[j]) < |conns|) ::
           error == Some(UnknownConnection(ports[i]))
  }

  lemma {:induction false} UnknownFirst(conns: seq<Connection>, ports: seq<string>, i: nat)
    requires i < |ports| && Resolve(conns, ports[i]) == |conns|
    requires forall j | 0 <= j < i :: Resolve(conns, ports[j]) < |conns|
    ensures FirstUnknown(conns, ports) == Some(ports[i])
  {
    if i > 0 {
      assert forall j | 0 <= j < i - 1 :: ports[1..][j] == ports[j + 1];
      UnknownFirst(conns, ports[1..], i - 1);
    }
  }

  lemma SetPortsAnswers(conns: seq<Connection>, controller: Connection, ports: seq<string>)
    ensures PortsAnswered(conns, controller, ports, SetPorts(conns, controller, ports).1)
  {
    NoneUnknown(conns, ports);
    forall i | 0 <= i < |ports| && Resolve(conns, ports[i]) == |conns| &&
               (forall j | 0 <= j < i :: Resolve(conns, ports[j]) < |conns|)
      ensures FirstUnknown(conns, ports) == Some(ports[i])
    {
      UnknownFirst(conns, ports, i);
    }
  }

  /** Ids, uuids and configurations stay, and every name stands for the same connection. */
  ghost predicate SamePlaces(a: seq<Connection>, b: seq<Connection>) {
    && |a| == |b|
    && (forall i | 0 <= i < |a| :: a[i].id == b[i].id && a[i].uuid == b[i].uuid && a[i].config == b[i].config)
    && (forall name :: Resolve(a, name) == Resolve(b, name))
  }

  lemma FindsId(conns: seq<Connection>, i: nat)
    requires Distinct(conns) && i < |conns|
    ensures FindId(conns, conns[i].id) == i && FindUuid(conns, conns[i].uuid) == i
  {
  }

  lemma FindIdAgrees(a: seq<Connection>, b: seq<Connection>, id: string)
    requires |a| == |b| && forall i | 0 <= i < |a| :: a[i].id == b[i].id
    ensures FindId(a, id) == FindId(b, id)
  {
    var m, n := FindId(a, id), FindId(b, id);
    assert m < |a| ==> b[m].id == id;
    assert n < |a| ==> a[n].id == id;
  }

  lemma FindInterfaceAgrees(a: seq<Connection>, b: seq<Connection>, name: string)
    requires |a| == |b| && forall i | 0 <= i < |a| :: a[i].interface == Some(name) <==> b[i].interface == Some(name)
    ensures FindInterface(a, name) == FindInterface(b, name)
  {
    var m, n := FindInterface(a, name), FindInterface(b, name);
    assert m < |a| ==> b[m].interface == Some(name);
    assert n < |a| ==> a[n].interface == Some(name);
  }

  /** What `SetPorts` does to the connection at position `x`; names are those of `conns`. */
  predicate StepAt(conns: seq<Connection>, before: seq<Connection>, after: seq<Connection>,
                   ports: seq<string>, controller: Uuid, x: nat)
    requires x < |conns| == |before| == |after|
  {
    after[x] ==
      if ClaimedAt(conns, ports, x) then
        before[x].(controller := Some(controller), interface := Some(before[x].interface.GetOr(before[x].id)))
      else if before[x].controller == Some(controller) then before[x].(controller := None, status := Removed)
      else before[x]
  }

  /** If an interface is filled in, then with the id, and only if no connection has it as interface. */
  lemma FilledIn(conns: seq<Connection>, after: seq<Connection>, ports: seq<string>, controller: Uuid, name: string,
                 x: nat)
    requires x < |conns| == |after| && StepAt(conns, conns, after, ports, controller, x)
    ensures after[x].id == conns[x].id && (conns[x].interface == Some(name) ==> after[x].interface == Some(name))
    ensures after[x].interface == Some(name) && conns[x].interface != Some(name) ==>
              conns[x].id == name && FindInterface(conns, name) == |conns|
  {
    if after[x].interface == Some(name) && conns[x].interface != Some(name) {
      var p :| p in ports && Resolve(conns, p) == x;
      assert p == name;
    }
  }

  lemma NameKept(conns: seq<Connection>, after: seq<Connection>, ports: seq<string>, controller: Uuid, name: string)
    requires Distinct(conns) && |after| == |conns|
    requires forall x: nat | x < |conns| :: StepAt(conns, conns, after, ports, controller, x)
    ensures Resolve(conns, name) == Resolve(after, name)
  {
    forall x: nat | x < |conns|
      ensures after[x].id == conns[x].id && (conns[x].interface == Some(name) ==> after[x].interface == Some(name))
      ensures after[x].interface == Some(name) && conns[x].interface != Some(name) ==>
                conns[x].id == name && FindInterface(conns, name) == |conns|
    {
      assert StepAt(conns, conns, after, ports, controller, x);
      FilledIn(conns, after, ports, controller, name, x);
    }
    FindIdAgrees(conns, after, name);
    NamesAgree(conns, after, name);
  }

  lemma NamesAgree(a: seq<Connection>, b: seq<Connection>, name: string)
    requires Distinct(a) && |a| == |b| && FindId(a, name) == FindId(b, name)
    requires forall x: nat | x < |a| :: a[x].interface == Some(name) ==> b[x].interface == Some(name)
    requires forall x: nat | x < |a| :: b[x].interface == Some(name) && a[x].interface != Some(name) ==>
               a[x].id == name && FindInterface(a, name) == |a|
    ensures Resolve(a, name) == Resolve(b, name)
  {
    if x: nat :| x < |a| && b[x].interface == Some(name) && a[x].interface != Some(name) {
      var y := FindInterface(b, name);
      assert y < |a| && a[y].interface != Some(name) && a[y].id == name;
    } else {
      FindInterfaceAgrees(a, b, name);
    }
  }

  /** Filling in the interface of a port never changes what any name stands for. */
  lemma SetPortsKeepsNames(conns: seq<Connection>, controller: Connection, ports: seq<string>)
    requires Distinct(conns) && SetPorts(conns, controller, ports).1.None?
    ensures SamePlaces(conns, SetPorts(conns, controller, ports).0)
  {
    var after := SetPorts(conns, controller, ports).0;
    SetPortsExact(conns, controller, ports);
    forall x: nat | x < |conns| ensures StepAt(conns, conns, after, ports, controller.uuid, x) {
    }
    forall name ensures Resolve(conns, name) == Resolve(after, name) {
      NameKept(conns, after, ports, controller.uuid, name);
    }
  }

  /*** Setting the ports of all changed controllers ***/

  predicate Claimer(conns: seq<Connection>, nc: NetworkConnection, x: nat) {
    UpdatePorts(nc).Some? && ClaimedAt(conns, UpdatePorts(nc).value, x)
  }

  /** If the connection is a controller, it exists and all its port names stand for something. */
  predicate Attachable(conns: seq<Connection>, nc: NetworkConnection) {
    UpdatePorts(nc).Some? ==>
      && FindId(conns, nc.id) < |conns|
      && IsController(conns[FindId(conns, nc.id)].config)
      && forall p | p in UpdatePorts(nc).value :: Resolve(conns, p) < |conns|
  }

  predicate Controls(conns: seq<Connection>, nc: NetworkConnection, uuid: Option<Uuid>) {
    var n := FindId(conns, nc.id);
    UpdatePorts(nc).Some? && n < |conns| && uuid == Some(conns[n].uuid)
  }

  lemma {:induction false} SetAllPortsStops(conns: seq<Connection>, list: seq<NetworkConnection>, n: nat)
    requires n <= |list| && SetAllPorts(conns, list[..n]).1.Some?
    ensures SetAllPorts(conns, list) == SetAllPorts(conns, list[..n])
  {
    if n < |list| {
      assert list[..|list| - 1][..n] == list[..n];
      SetAllPortsStops(conns, list[..|list| - 1], n);
    } else {
      assert list[..n] == list;
    }
  }

  /** The first controller that is refused decides the error, and what was set before it stays. */
  lemma RefusedStops(conns: seq<Connection>, list: seq<NetworkConnection>, n: nat)
    requires n < |list| && SetAllPorts(conns, list[..n]).1.None?
    requires SetPortsOf(SetAllPorts(conns, list[..n]).0, list[n]).1.Some?
    ensures SetAllPorts(conns, list) ==
              (SetAllPorts(conns, list[..n]).0, SetPortsOf(SetAllPorts(conns, list[..n]).0, list[n]).1)
  {
    assert list[..n + 1][..n] == list[..n];
    SetAllPortsStops(conns, list, n + 1);
  }

  predicate DistinctIds(list: seq<NetworkConnection>) {
    forall i, j | 0 <= i < j < |list| :: list[i].id != list[j].id
  }

  /**
   After the first `n` changed connections: a connection is controlled by the `i`-th exactly if its
   names claim it and those of no later one do.
   */
  predicate HasItsPorts(conns: seq<Connection>, after: seq<Connection>, list: seq<NetworkConnection>,
                        n: nat, i: nat, x: nat)
    requires i < n <= |list| && x < |conns| == |after|
  {
    UpdatePorts(list[i]).Some? ==>
      (Controls(conns, list[i], after[x].controller)
       <==> Claimer(conns, list[i], x) && forall j | i < j < n :: !Claimer(conns, list[j], x))
  }

  predicate WasControlled(conns: seq<Connection>, list: seq<NetworkConnection>, n: nat, x: nat)
    requires n <= |list| && x < |conns|
  {
    exists i | 0 <= i < n :: Controls(conns, list[i], conns[x].controller)
  }

  /** A connection that nobody claims is unchanged, or an orphan of a changed controller. */
  predicate UntouchedOrOrphan(conns: seq<Connection>, after: seq<Connection>, list: seq<NetworkConnection>, n: nat,
                              x: nat)
    requires n <= |list| && x < |conns| == |after|
  {
    (forall i | 0 <= i < n :: !Claimer(conns, list[i], x)) ==>
      after[x] == if WasControlled(conns, list, n, x) then conns[x].(controller := None, status := Removed)
                  else conns[x]
  }

  lemma {:induction false} SetPortsOfExact(conns: seq<Connection>, before: seq<Connection>, nc: NetworkConnection)
    requires Distinct(conns) && SamePlaces(conns, before) && Attachable(conns, nc)
    ensures var (after, error) := SetPortsOf(before, nc);
            && error.None? && SamePlaces(conns, after)
            && (UpdatePorts(nc).None? ==> after == before)
            && (UpdatePorts(nc).Some? ==> forall x: nat | x < |conns| ::
                  StepAt(conns, before, after, UpdatePorts(nc).value, conns[FindId(conns, nc.id)].uuid, x))
  {
    FindIdAgrees(conns, before, nc.id);
    if UpdatePorts(nc).Some? {
      var ports, c := UpdatePorts(nc).value, before[FindId(before, nc.id)];
      SetPortsExact(before, c, ports);
      SetPortsKeepsNames(before, c, ports);
      forall x: nat | x < |conns| ensures ClaimedAt(before, ports, x) <==> ClaimedAt(conns, ports, x) {
      }
    }
  }

  /** The step for the connection at `n`, seen at position `x`. */
  predicate LastStepAt(conns: seq<Connection>, before: seq<Connection>, after: seq<Connection>, nc: NetworkConnection,
                       x: nat)
    requires x < |conns| == |before| == |after|
  {
    if UpdatePorts(nc).None? then after[x] == before[x]
    else FindId(conns, nc.id) < |conns|
         && StepAt(conns, before, after, UpdatePorts(nc).value, conns[FindId(conns, nc.id)].uuid, x)
  }

  lemma ItsPortsAt(conns: seq<Connection>, before: seq<Connection>, after: seq<Connection>,
                   list: seq<NetworkConnection>, n: nat, i: nat, x: nat)
    requires Distinct(conns) && DistinctIds(list) && n < |list| && i <= n && x < |conns| == |before| == |after|
    requires LastStepAt(conns, before, after, list[n], x)
    requires i < n ==> HasItsPorts(conns, before, list, n, i, x)
    ensures HasItsPorts(conns, after, list, n + 1, i, x)
  {
    if i < n && UpdatePorts(list[i]).Some? {
      assert list[i].id != list[n].id;
      var later := forall j | i < j < n :: !Claimer(conns, list[j], x);
      assert (forall j | i < j < n + 1 :: !Claimer(conns, list[j], x)) <==> later && !Claimer(conns, list[n], x);
      if UpdatePorts(list[n]).Some? {
        OtherController(conns, list[i], list[n]);
      }
    }
  }

  lemma OtherController(conns: seq<Connection>, a: NetworkConnection, b: NetworkConnection)
    requires Distinct(conns) && a.id != b.id && FindId(conns, b.id) < |conns|
    ensures !Controls(conns, a, Some(conns[FindId(conns, b.id)].uuid)) && !Controls(conns, a, None)
  {
  }

  lemma UntouchedAt(conns: seq<Connection>, before: seq<Connection>, after: seq<Connection>,
                    list: seq<NetworkConnection>, n: nat, x: nat)
    requires n < |list| && x < |conns| == |before| == |after|
    requires LastStepAt(conns, before, after, list[n], x)
    requires UntouchedOrOrphan(conns, before, list, n, x)
    ensures UntouchedOrOrphan(conns, after, list, n + 1, x)
  {
    if forall i | 0 <= i < n + 1 :: !Claimer(conns, list[i], x) {
      assert !Claimer(conns, list[n], x);
      assert WasControlled(conns, list, n + 1, x)
        <==> WasControlled(conns, list, n, x) || Controls(conns, list[n], conns[x].controller);
    }
  }

  lemma {:induction false} SetAllPortsExact(conns: seq<Connection>, list: seq<NetworkConnection>, n: nat)
    requires Distinct(conns) && DistinctIds(list) && n <= |list|
    requires forall nc | nc in list :: Attachable(conns, nc)
    ensures var (after, error) := SetAllPorts(conns, list[..n]);
            && error.None? && SamePlaces(conns, after)
            && (forall i: nat, x: nat | i < n && x < |conns| :: HasItsPorts(conns, after, list, n, i, x))
            && (forall x: nat | x < |conns| :: UntouchedOrOrphan(conns, after, list, n, x))
  {
    if n > 0 {
      var m: nat := n - 1;
      assert list[..n][..m] == list[..m] && list[m] in list;
      SetAllPortsExact(conns, list, m);
      var before := SetAllPorts(conns, list[..m]).0;
      SetPortsOfExact(conns, before, list[m]);
      var after := SetPortsOf(before, list[m]).0;
      forall x: nat | x < |conns| ensures LastStepAt(conns, before, after, list[m], x) {
      }
      forall i: nat, x: nat | i < n && x < |conns| ensures HasItsPorts(conns, after, list, n, i, x) {
        ItsPortsAt(conns, before, after, list, m, i, x);
      }
      forall x: nat | x < |conns| ensures UntouchedOrOrphan(conns, after, list, n, x) {
        UntouchedAt(conns, before, after, list, m, x);
      }
    }
  }

  /*** Setting ports, whatever the list says ***/

  lemma SetPortsOfSame(conns: seq<Connection>, nc: NetworkConnection)
    requires Distinct(conns)
    ensures SamePlaces(conns, SetPortsOf(conns, nc).0)
    ensures SetPortsOf(conns, nc).1.Some? ==> SetPortsOf(conns, nc).0 == conns
  {
    var n := FindId(conns, nc.id);
    if UpdatePorts(nc).Some? && n < |conns| {
      SetPortsExact(conns, conns[n], UpdatePorts(nc).value);
      if SetPortsOf(conns, nc).1.None? {
        SetPortsKeepsNames(conns, conns[n], UpdatePorts(nc).value);
      }
    }
  }

  /** Even if it fails, setting ports keeps ids, uuids, configurations and what each name stands for. */
  lemma {:induction false} SetAllPortsSame(conns: seq<Connection>, list: seq<NetworkConnection>)
    requires Distinct(conns)
    ensures SamePlaces(conns, SetAllPorts(conns, list).0)
  {
    if list != [] {
      var last := |list| - 1;
      SetAllPortsSame(conns, list[..last]);
      SetPortsOfSame(SetAllPorts(conns, list[..last]).0, list[last]);
    }
  }

  lemma AttachableSame(conns: seq<Connection>, before: seq<Connection>, nc: NetworkConnection)
    requires SamePlaces(conns, before)
    ensures Attachable(conns, nc) <==> Attachable(before, nc)
    ensures FindId(conns, nc.id) == FindId(before, nc.id)
  {
    FindIdAgrees(conns, before, nc.id);
  }

  /** Setting the ports of connections that exist succeeds exactly if each controller can get its ports. */
  lemma {:induction false} SetAllPortsSucceeds(conns: seq<Connection>, list: seq<NetworkConnection>)
    requires Distinct(conns) && forall nc | nc in list :: FindId(conns, nc.id) < |conns|
    ensures SetAllPorts(conns, list).1.None? <==> forall nc | nc in list :: Attachable(conns, nc)
  {
    if list != [] {
      var last := |list| - 1;
      var before := SetAllPorts(conns, list[..last]).0;
      SetAllPortsSucceeds(conns, list[..last]);
      SetAllPortsSame(conns, list[..last]);
      AttachableSame(conns, before, list[last]);
      assert list == list[..last] + [list[last]];
      if UpdatePorts(list[last]).Some? {
        NoneUnknown(before, UpdatePorts(list[last]).value);
      }
    }
  }

  /** A connection that nobody claims or controls is as before. */
  lemma {:induction false} SetAllPortsFrame(conns: seq<Connection>, list: seq<NetworkConnection>, x: nat)
    requires Distinct(conns) && x < |conns|
    requires forall nc | nc in list :: !Claimer(conns, nc, x) && !Controls(conns, nc, conns[x].controller)
    ensures |SetAllPorts(conns, list).0| == |conns| && SetAllPorts(conns, list).0[x] == conns[x]
  {
    if list != [] {
      var last := |list| - 1;
      var before := SetAllPorts(conns, list[..last]).0;
      SetAllPortsFrame(conns, list[..last], x);
      SetAllPortsSame(conns, list[..last]);
      SetPortsOfFrame(conns, before, list[last], x);
    }
  }

  lemma SetPortsOfFrame(conns: seq<Connection>, before: seq<Connection>, nc: NetworkConnection, x: nat)
    requires Distinct(conns) && SamePlaces(conns, before) && x < |conns| && before[x] == conns[x]
    requires !Claimer(conns, nc, x) && !Controls(conns, nc, conns[x].controller)
    ensures |SetPortsOf(before, nc).0| == |conns| && SetPortsOf(before, nc).0[x] == conns[x]
  {
    AttachableSame(conns, before, nc);
    var n := FindId(before, nc.id);
    if UpdatePorts(nc).Some? && n < |before| {
      SetPortsExact(before, before[n], UpdatePorts(nc).value);
      assert ClaimedAt(before, UpdatePorts(nc).value, x) <==> ClaimedAt(conns, UpdatePorts(nc).value, x);
    }
  }
}
