/** From the declarative form to connections and back. */
module NetworkRoundTrip {
  import opened Events
  import opened Sequences
  import opened Text
  import opened Network
  import opened NetworkReconciliation
  import opened NetworkEntries

  function ModeText(mode: BondMode): string {
    match mode
    case RoundRobin => "balance-rr"
    case ActiveBackup => "active-backup"
    case BalanceXOR => "balance-xor"
    case Broadcast => "broadcast"
    case LACP => "802.3ad"
    case BalanceTLB => "balance-tlb"
    case BalanceALB => "balance-alb"
  }

  function NameOf(c: Connection): string {
    c.interface.GetOr(c.id)
  }

  /** The names of the connections that a controller has, in the order of the collection. */
  function PortsFor(conns: seq<Connection>, uuid: Uuid): seq<string> {
    if conns == [] then []
    else (if conns[0].controller == Some(uuid) then [NameOf(conns[0])] else []) + PortsFor(conns[1..], uuid)
  }

  /** The ports keep the order of the collection. */
  lemma {:induction false} PortsInOrder(a: seq<Connection>, b: seq<Connection>, uuid: Uuid)
    ensures PortsFor(a + b, uuid) == PortsFor(a, uuid) + PortsFor(b, uuid)
  {
    if a == [] {
      assert a + b == b;
    } else {
      assert (a + b)[1..] == a[1..] + b;
      PortsInOrder(a[1..], b, uuid);
      Regroup(if a[0].controller == Some(uuid) then [NameOf(a[0])] else [], PortsFor(a[1..], uuid), PortsFor(b, uuid));
    }
  }

  lemma PortOf(c: Connection, uuid: Uuid)
    ensures PortsFor([c], uuid) ==
              if c.controller == Some(uuid) then [if c.interface.Some? then c.interface.value else c.id] else []
  {
    assert PortsFor([c][1..], uuid) == [];
  }

  predicate HasPort(conns: seq<Connection>, uuid: Uuid, q: string, k: nat) {
    k < |conns| && conns[k].controller == Some(uuid) && NameOf(conns[k]) == q
  }

  lemma {:induction false} PortsForHas(conns: seq<Connection>, uuid: Uuid, q: string)
    ensures q in PortsFor(conns, uuid) <==> exists k: nat :: HasPort(conns, uuid, q, k)
  {
    if conns != [] {
      var rest := conns[1..];
      PortsForHas(rest, uuid, q);
      assert q in PortsFor(conns, uuid) <==> HasPort(conns, uuid, q, 0) || q in PortsFor(rest, uuid);
      if k: nat :| HasPort(rest, uuid, q, k) {
        assert HasPort(conns, uuid, q, k + 1);
      } else if k: nat :| HasPort(conns, uuid, q, k) {
        assert k == 0 || HasPort(rest, uuid, q, k - 1);
      }
    }
  }

  /** How the options of a bond are printed; the order of the printed options is not specified. */
  type Printer = BondOptions.Options -> string

  function DeclareBridge(b: BridgeConfig, ports: seq<string>): BridgeSettings {
    BridgeSettings(b.stp, b.priority, b.forwardDelay, b.helloTime, None, ports)
  }

  function DeclareOne(all: seq<Connection>, c: Connection, show: Printer): NetworkConnection {
    var ports := PortsFor(all, c.uuid);
    NetworkConnection(
      c.id, c.interface, Some(c.status),
      if c.config.Vlan? then Some(Links.ShowVlan(c.config.vlan)) else None,
      if c.config.Wireless? then Some(Links.ShowWireless(c.config.wireless)) else None,
      if c.config.Bond? then Some(BondSettings(ModeText(c.config.bond.mode), Some(show(c.config.bond.options)), ports))
      else None,
      if c.config.Bridge? then Some(DeclareBridge(c.config.bridge, ports)) else None,
      if c.ieee.Some? then Some(Links.ShowIeee(c.ieee.value)) else None,
      Links.ShowProfile(c.profile))
  }

  /** Connections with a controller are not declared: their controller lists them. */
  function Declare(all: seq<Connection>, conns: seq<Connection>, show: Printer): seq<NetworkConnection> {
    if conns == [] then []
    else (if conns[0].controller.None? then [DeclareOne(all, conns[0], show)] else [])
         + Declare(all, conns[1..], show)
  }

  lemma {:induction false} DeclareFree(all: seq<Connection>, conns: seq<Connection>, ports: seq<Connection>,
                                       show: Printer)
    requires forall c | c in conns :: c.controller.None?
    requires forall c | c in ports :: c.controller.Some?
    ensures var r := Declare(all, conns + ports, show);
            |r| == |conns| && forall i | 0 <= i < |r| :: r[i] == DeclareOne(all, conns[i], show)
  {
    if conns != [] {
      assert (conns + ports)[1..] == conns[1..] + ports;
      DeclareFree(all, conns[1..], ports, show);
    } else {
      DeclareNone(all, ports, show);
      assert conns + ports == ports;
    }
  }

  lemma {:induction false} DeclareNone(all: seq<Connection>, ports: seq<Connection>, show: Printer)
    requires forall c | c in ports :: c.controller.Some?
    ensures Declare(all, ports, show) == []
  {
    if ports != [] {
      DeclareNone(all, ports[1..], show);
    }
  }

  /** A port name belongs to the last listed connection that names it. */
  predicate Owns(list: seq<NetworkConnection>, i: nat, p: string) {
    i < |list| && p in PortsOf(list[i]) && forall j | i < j < |list| :: p !in PortsOf(list[j])
  }

  lemma OwnsStep(list: seq<NetworkConnection>, i: nat, p: string)
    requires list != []
    ensures var last: nat := |list| - 1;
            Owns(list, i, p) <==>
              if p in PortsOf(list[last]) then i == last else i < last && Owns(list[..last], i, p)
  {
    var last: nat := |list| - 1;
    var prefix := list[..last];
    if Owns(list, i, p) && i < last {
      assert p !in PortsOf(list[last]);
      assert forall j | i < j < |prefix| :: prefix[j] == list[j];
    }
  }

  lemma {:induction false} ClaimsGiveOwner(list: seq<NetworkConnection>, next: Uuid, p: string, i: nat)
    ensures p in Claims(list, next) && Claims(list, next)[p] == next + i <==> Owns(list, i, p)
  {
    if list != [] {
      var last := |list| - 1;
      OwnsStep(list, i, p);
      ClaimedPort(Claims(list[..last], next), PortsOf(list[last]), next + last, p);
      if p !in PortsOf(list[last]) {
        ClaimsGiveOwner(list[..last], next, p, i);
        ClaimsBelow(list[..last], next, p);
      }
    }
  }

  lemma {:induction false} ClaimsBelow(list: seq<NetworkConnection>, next: Uuid, p: string)
    ensures p in Claims(list, next) ==> next <= Claims(list, next)[p] < next + |list|
  {
    if list != [] {
      var last := |list| - 1;
      ClaimedPort(Claims(list[..last], next), PortsOf(list[last]), next + last, p);
      ClaimsBelow(list[..last], next, p);
    }
  }

  /** The name under which a port comes back: that of the first listed connection that answers to it. */
  function ReturnedName(listed: seq<Connection>, p: string): string {
    NameOf(FirstAnswering(listed, p).GetOr(NewPort(p, 0)))
  }

  predicate DeclaresPort(nc: NetworkConnection, q: string) {
    (nc.bond.Some? && q in nc.bond.value.ports) || (nc.bridge.Some? && q in nc.bridge.value.ports)
  }

  /** `conns` is what the conversion of the list gives for this order of the hash table. */
  ghost predicate IsCollected(list: seq<NetworkConnection>, next: Uuid, order: seq<string>,
                              listed: seq<Connection>, added: seq<Connection>) {
    && Convertible(list, next, order) && ConvertAll(list, next) == Ok(listed)
    && added == PortEntries(listed, Claims(list, next), order, next + |list|)
  }

  /** The `i`-th connection owns `p`, which comes back as `q`. */
  ghost predicate OwnsAs(list: seq<NetworkConnection>, next: Uuid, i: nat, p: string, q: string) {
    && Owns(list, i, p) && ConvertAll(list, next).Ok?
    && ReturnedName(ConvertAll(list, next).value, p) == q
  }

  /** Port `p` is claimed for the controller and comes back as `q`. */
  predicate ComesBack(listed: seq<Connection>, claims: map<string, Uuid>, uuid: Uuid, p: string, q: string) {
    p in claims && claims[p] == uuid && ReturnedName(listed, p) == q
  }

  lemma CollectedPort(listed: seq<Connection>, claims: map<string, Uuid>, order: seq<string>, base: Uuid,
                      added: seq<Connection>, uuid: Uuid, q: string) returns (p: string)
    requires NoRepeats(order) && (forall p | p in order :: p in claims) && forall c | c in listed :: c.controller.None?
    requires added == PortEntries(listed, claims, order, base) && q in PortsFor(listed + added, uuid)
    ensures ComesBack(listed, claims, uuid, p, q)
  {
    PortsForHas(listed + added, uuid, q);
    var k: nat :| HasPort(listed + added, uuid, q, k);
    var j := k - |listed|;
    p := order[j];
    assert p in order;
  }

  lemma PortIsCollected(listed: seq<Connection>, claims: map<string, Uuid>, order: seq<string>, base: Uuid,
                        added: seq<Connection>, uuid: Uuid, p: string, q: string)
    requires p in order && (forall p | p in order :: p in claims) && ComesBack(listed, claims, uuid, p, q)
    requires added == PortEntries(listed, claims, order, base)
    ensures q in PortsFor(listed + added, uuid)
  {
    var j: nat :| j < |order| && order[j] == p;
    assert HasPort(listed + added, uuid, q, |listed| + j);
    PortsForHas(listed + added, uuid, q);
  }

  /**
   Declaring what was converted gives the listed connections back in order. Each controller has the
   ports it owns, each under the name of the connection that answers to it.
   */
  lemma RoundTripExact(list: seq<NetworkConnection>, next: Uuid, order: seq<string>, show: Printer)
    requires ConvertAll(list, next).Ok? && Enumerates(order, Claims(list, next).Keys)
    ensures var conns := Collect(list, next, order).value;
            var back := Declare(conns, conns, show);
            && |back| == |list|
            && (forall i | 0 <= i < |list| :: back[i].id == list[i].id)
            && (forall i: nat, q: string | i < |list| ::
                  DeclaresPort(back[i], q) <==> exists p :: OwnsAs(list, next, i, p, q))
  {
    var listed := ConvertAll(list, next).value;
    EnumeratesKeys(order, Claims(list, next));
    var added := PortEntries(listed, Claims(list, next), order, next + |list|);
    var conns := listed + added;
    assert Collect(list, next, order).value == conns by {
      CollectedIs(list, next, order, listed, added);
    }
    var back := Declare(conns, conns, show);
    CollectedDeclares(list, next, order, listed, added, show);
    ListedAreConverted(list, next);
    forall i: nat, q: string | i < |list|
      ensures DeclaresPort(back[i], q) <==> exists p :: OwnsAs(list, next, i, p, q)
    {
      BackPorts(list, next, order, listed, added, i, q, show);
    }
  }

  lemma AddedIs(listed: seq<Connection>, claims: map<string, Uuid>, order: seq<string>, base: Uuid,
                added: seq<Connection>)
    requires NoRepeats(order) && (forall p | p in order :: p in claims)
    requires added == PortEntries(listed, claims, order, base)
    ensures AddPorts(listed, claims, order, base) == listed + added
  {
    AddPortsFacts(listed, claims, order, base);
  }

  lemma CollectedIs(list: seq<NetworkConnection>, next: Uuid, order: seq<string>,
                    listed: seq<Connection>, added: seq<Connection>)
    requires IsCollected(list, next, order, listed, added)
    ensures Collect(list, next, order) == Ok(listed + added)
  {
    AddedIs(listed, Claims(list, next), order, next + |list|, added);
  }

  lemma CollectedDeclares(list: seq<NetworkConnection>, next: Uuid, order: seq<string>,
                          listed: seq<Connection>, added: seq<Connection>, show: Printer)
    requires IsCollected(list, next, order, listed, added)
    ensures var back := Declare(listed + added, listed + added, show);
            && |back| == |list| == |listed|
            && forall i | 0 <= i < |list| :: back[i] == DeclareOne(listed + added, listed[i], show)
  {
    ConvertAllFacts(list, next);
    ListedAreFree(list, next);
    DeclareFree(listed + added, listed, added, show);
  }

  lemma BackPorts(list: seq<NetworkConnection>, next: Uuid, order: seq<string>,
                  listed: seq<Connection>, added: seq<Connection>, i: nat, q: string, show: Printer)
    requires IsCollected(list, next, order, listed, added) && (forall p | p in Claims(list, next) :: p in order)
    requires i < |listed| && listed[i].uuid == next + i
    ensures DeclaresPort(DeclareOne(listed + added, listed[i], show), q) <==> exists p :: OwnsAs(list, next, i, p, q)
  {
    var all := listed + added;
    assert q in PortsFor(all, listed[i].uuid) <==> exists p :: OwnsAs(list, next, i, p, q) by {
      PortsAreOwned(list, next, order, listed, added, i, q);
    }
    assert (exists p :: OwnsAs(list, next, i, p, q)) ==> IsController(listed[i].config) by {
      OwnersAreControllers(list, next, i, q);
    }
  }

  lemma OwnersAreControllers(list: seq<NetworkConnection>, next: Uuid, i: nat, q: string)
    ensures (exists p :: OwnsAs(list, next, i, p, q)) ==>
              ConvertAll(list, next).Ok? && i < |ConvertAll(list, next).value|
              && IsController(ConvertAll(list, next).value[i].config)
  {
    if p :| OwnsAs(list, next, i, p, q) {
      OwnerIsController(list, next, i, p);
    }
  }

  lemma PortsAreOwned(list: seq<NetworkConnection>, next: Uuid, order: seq<string>,
                      listed: seq<Connection>, added: seq<Connection>, i: nat, q: string)
    requires IsCollected(list, next, order, listed, added) && forall p | p in Claims(list, next) :: p in order
    ensures q in PortsFor(listed + added, next + i) <==> exists p :: OwnsAs(list, next, i, p, q)
  {
    if p :| OwnsAs(list, next, i, p, q) {
      OwnedIsBack(list, next, order, listed, added, i, p, q);
    } else if q in PortsFor(listed + added, next + i) {
      var p := BackIsOwned(list, next, order, listed, added, i, q);
    }
  }

  lemma OwnedComesBack(list: seq<NetworkConnection>, next: Uuid, i: nat, p: string, q: string)
    requires OwnsAs(list, next, i, p, q)
    ensures ComesBack(ConvertAll(list, next).value, Claims(list, next), next + i, p, q)
  {
    ClaimsGiveOwner(list, next, p, i);
  }

  lemma OwnedIsBack(list: seq<NetworkConnection>, next: Uuid, order: seq<string>,
                    listed: seq<Connection>, added: seq<Connection>, i: nat, p: string, q: string)
    requires IsCollected(list, next, order, listed, added) && (forall p | p in Claims(list, next) :: p in order)
    requires OwnsAs(list, next, i, p, q)
    ensures q in PortsFor(listed + added, next + i)
  {
    var claims := Claims(list, next);
    OwnedComesBack(list, next, i, p, q);
    PortIsCollected(listed, claims, order, next + |list|, added, next + i, p, q);
  }

  lemma BackIsOwned(list: seq<NetworkConnection>, next: Uuid, order: seq<string>,
                    listed: seq<Connection>, added: seq<Connection>, i: nat, q: string) returns (p: string)
    requires IsCollected(list, next, order, listed, added) && q in PortsFor(listed + added, next + i)
    ensures OwnsAs(list, next, i, p, q)
  {
    ListedAreFree(list, next);
    p := CollectedPort(listed, Claims(list, next), order, next + |list|, added, next + i, q);
    ClaimsGiveOwner(list, next, p, i);
  }

  lemma OwnerIsController(list: seq<NetworkConnection>, next: Uuid, i: nat, p: string)
    requires ConvertAll(list, next).Ok? && Owns(list, i, p)
    ensures |ConvertAll(list, next).value| == |list| && IsController(ConvertAll(list, next).value[i].config)
  {
    ConvertAllFacts(list, next);
    assert Convert(list[i], next + i) == Ok(ConvertAll(list, next).value[i]);
  }

  lemma ListedAreFree(list: seq<NetworkConnection>, next: Uuid)
    requires ConvertAll(list, next).Ok?
    ensures forall c | c in ConvertAll(list, next).value :: c.controller.None?
  {
    var listed := ConvertAll(list, next).value;
    ConvertAllFacts(list, next);
    forall c | c in listed ensures c.controller.None? {
      var i: nat :| i < |listed| && listed[i] == c;
      assert Convert(list[i], next + i) == Ok(listed[i]);
    }
  }
}
