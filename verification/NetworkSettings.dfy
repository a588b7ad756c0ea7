/** What becomes of the settings of a connection, and exactly when it keeps them. */
module NetworkSettings {
  import opened Network
  import opened NetworkReconciliation
  import opened NetworkEntries
  import opened NetworkInvariant
  import opened NetworkAcceptance

  /** What the user sets for a connection besides its id, interface and ports. */
  predicate SameSettings(a: Connection, b: Connection) {
    a.config == b.config && a.ieee == b.ieee && a.profile == b.profile
  }

  lemma SetPortsOfSettings(conns: seq<Connection>, nc: NetworkConnection, x: nat)
    requires x < |conns|
    ensures var after := SetPortsOf(conns, nc).0;
            |after| == |conns| && after[x].id == conns[x].id && after[x].uuid == conns[x].uuid
            && SameSettings(after[x], conns[x])
  {
  }

  /** Setting ports never touches settings, even if it fails. */
  lemma {:induction false} SetAllPortsSettings(conns: seq<Connection>, list: seq<NetworkConnection>, x: nat)
    requires x < |conns|
    ensures var after := SetAllPorts(conns, list).0;
            |after| == |conns| && after[x].id == conns[x].id && after[x].uuid == conns[x].uuid
            && SameSettings(after[x], conns[x])
  {
    if list != [] {
      var last := |list| - 1;
      SetAllPortsSettings(conns, list[..last], x);
      SetPortsOfSettings(SetAllPorts(conns, list[..last]).0, list[last], x);
    }
  }

  /** The settings of a connection after a change are those of its source, the default ones, or its own. */
  predicate HasSettings(conns: seq<Connection>, changed: seq<NetworkConnection>, listed: seq<Connection>,
                        order: seq<string>, c: Connection, x: nat) {
    if ListsId(changed, c.id) then
      var s := Source(changed, order, c.id);
      s < |listed| && SameSettings(c, listed[s])
    else if Rewritten(changed, c.id) then SameSettings(c, NewPort(c.id, c.uuid))
    else x < |conns| && SameSettings(c, conns[x])
  }

  lemma MergedSettings(conns: seq<Connection>, changed: seq<NetworkConnection>, next: Uuid, order: seq<string>, x: nat)
    requires Mergeable(conns, changed, next, order) && x < |MergedConns(conns, changed, next, order)|
    ensures HasSettings(conns, changed, ConvertAll(changed, next).value, order,
                        MergedConns(conns, changed, next, order)[x], x)
  {
    var id := MergedConns(conns, changed, next, order)[x].id;
    if ListsId(changed, id) {
      ListedPlace(conns, changed, next, order, x);
    } else if Rewritten(changed, id) {
      PortPlace(conns, changed, next, order, x);
    } else {
      KeptPlace(conns, changed, next, order, x);
    }
  }

  lemma MergedThenSet(conns: seq<Connection>, changed: seq<NetworkConnection>, next: Uuid, order: seq<string>)
    requires Mergeable(conns, changed, next, order)
    ensures var merged := MergedConns(conns, changed, next, order);
            Reconcile(conns, changed, next, order).0 == SetAllPorts(merged, changed).0 && Extends(conns, merged)
  {
    MergeWorks(conns, changed, next, order);
  }

  /**
   Every change that can be merged, even if ports are refused afterwards: a listed id has the settings
   of the connection they come from, one that is only named as a port has default settings, and any
   other connection keeps its own.
   */
  lemma SettingsAfter(conns: seq<Connection>, changed: seq<NetworkConnection>, next: Uuid, order: seq<string>, x: nat)
    requires Mergeable(conns, changed, next, order) && x < |Reconcile(conns, changed, next, order).0|
    ensures HasSettings(conns, changed, ConvertAll(changed, next).value, order,
                        Reconcile(conns, changed, next, order).0[x], x)
  {
    var merged := MergedConns(conns, changed, next, order);
    MergedThenSet(conns, changed, next, order);
    SetAllPortsKeeps(merged, changed);
    SetAllPortsSettings(merged, changed, x);
    MergedSettings(conns, changed, next, order, x);
  }

  /**
   A known connection that the change does not list keeps its settings exactly if a listed one has its
   id as interface, or no one names it as a port, or it had default settings already.
   */
  lemma SettingsKeptExactly(conns: seq<Connection>, changed: seq<NetworkConnection>, next: Uuid, order: seq<string>,
                            x: nat)
    requires Mergeable(conns, changed, next, order) && x < |conns| && !ListsId(changed, conns[x].id)
    ensures var after := Reconcile(conns, changed, next, order).0;
            && x < |after| && after[x].id == conns[x].id && after[x].uuid == conns[x].uuid
            && (SameSettings(after[x], conns[x])
                <==> ListsName(changed, conns[x].id)
                     || (forall nc | nc in changed :: conns[x].id !in PortsOf(nc))
                     || SameSettings(conns[x], NewPort(conns[x].id, conns[x].uuid)))
  {
    var merged := MergedConns(conns, changed, next, order);
    MergedThenSet(conns, changed, next, order);
    SetAllPortsSettings(merged, changed, x);
    SettingsAfter(conns, changed, next, order, x);
  }

  /** Otherwise it has default settings afterwards. */
  lemma NamedPortIsReset(conns: seq<Connection>, changed: seq<NetworkConnection>, next: Uuid, order: seq<string>,
                         x: nat)
    requires Mergeable(conns, changed, next, order) && x < |conns|
    requires !ListsName(changed, conns[x].id) && exists nc | nc in changed :: conns[x].id in PortsOf(nc)
    ensures var after := Reconcile(conns, changed, next, order).0;
            && x < |after| && after[x].id == conns[x].id && after[x].uuid == conns[x].uuid
            && SameSettings(after[x], NewPort(conns[x].id, conns[x].uuid))
  {
    var merged := MergedConns(conns, changed, next, order);
    MergedThenSet(conns, changed, next, order);
    SetAllPortsSettings(merged, changed, x);
    SettingsAfter(conns, changed, next, order, x);
  }
}
