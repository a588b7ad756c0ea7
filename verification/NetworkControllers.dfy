/** Ports belong to controllers that exist: the renaming of uuids never leaves a dangling one. */
module NetworkControllers {
  import opened Events
  import opened Sequences
  import opened Network
  import opened NetworkTheorems
  import opened NetworkReconciliation
  import opened NetworkEntries
  import opened NetworkRoundTrip

  predicate ControllersIn(conns: seq<Connection>, all: seq<Connection>) {
    forall c | c in conns && c.controller.Some? :: HasUuid(all, c.controller.value)
  }

  /*** The entries of a change ***/

  /** The renaming sends the uuid of a known controller to the one it is known by, and no other. */
  lemma {:induction false} RenamedIs(conns: seq<Connection>, entries: seq<Connection>, e: Connection)
    requires e in entries && forall f | f in entries && f.uuid == e.uuid :: f.id == e.id && f.config == e.config
    ensures var renamed, n := Renamed(conns, entries), FindId(conns, e.id);
            if n < |conns| && IsController(e.config) then e.uuid in renamed && renamed[e.uuid] == conns[n].uuid
            else e.uuid !in renamed
  {
    var front, last := entries[..|entries| - 1], entries[|entries| - 1];
    assert entries == front + [last];
    if e in front {
      RenamedIs(conns, front, e);
    } else if FindId(conns, e.id) == |conns| || !IsController(e.config) {
      RenamedOnly(conns, front, e.uuid);
    }
  }

  lemma {:induction false} RenamedOnly(conns: seq<Connection>, entries: seq<Connection>, uuid: Uuid)
    requires forall f | f in entries && f.uuid == uuid :: FindId(conns, f.id) == |conns| || !IsController(f.config)
    ensures uuid !in Renamed(conns, entries)
  {
    if entries != [] {
      RenamedOnly(conns, entries[..|entries| - 1], uuid);
      assert entries[|entries| - 1] in entries;
    }
  }

  /** Entries with the same uuid are the same connection, but for the controller. */
  lemma OneEach(listed: seq<Connection>, order: seq<string>, next: Uuid, base: Uuid, e: Connection, f: Connection)
    requires base == next + |listed| && forall i: nat | i < |listed| :: listed[i].uuid == next + i
    requires EntryOk(listed, order, base, e) && EntryOk(listed, order, base, f) && e.uuid == f.uuid
    ensures e.id == f.id && e.config == f.config
  {
    if i: nat :| IsListed(listed, e, i) {
      if !exists j: nat :: IsListed(listed, f, j) {
        assert false;
      }
    } else {
      var i: nat :| IsNewPort(listed, order, base, e, i);
      if j: nat :| IsListed(listed, f, j) {
        assert false;
      }
    }
  }

  /** The controller that a port is claimed for is listed, as a controller. */
  lemma ClaimedController(changed: seq<NetworkConnection>, next: Uuid, p: string) returns (i: nat)
    requires ConvertAll(changed, next).Ok? && p in Claims(changed, next)
    ensures var listed := ConvertAll(changed, next).value;
            i < |listed| && listed[i].uuid == Claims(changed, next)[p] && IsController(listed[i].config)
  {
    ClaimsBelow(changed, next, p);
    i := Claims(changed, next)[p] - next;
    ClaimsGiveOwner(changed, next, p, i);
    OwnerIsController(changed, next, i, p);
    ListedAreConverted(changed, next);
  }

  /** Each controller is known, or among the entries before. */
  predicate ControllerBefore(conns: seq<Connection>, entries: seq<Connection>, k: nat)
    requires k < |entries|
  {
    entries[k].controller.Some? ==>
      HasUuid(conns, entries[k].controller.value)
      || exists a | 0 <= a < k :: entries[a].uuid == entries[k].controller.value
  }

  lemma CleanController(conns: seq<Connection>, entries: seq<Connection>, k: nat, i: nat)
    requires i < k < |entries| && entries[k].controller == Some(entries[i].uuid) && IsController(entries[i].config)
    requires forall f | f in entries && f.uuid == entries[i].uuid ::
               f.id == entries[i].id && f.config == entries[i].config
    ensures var clean := Sanitize(conns, entries); clean[k].controller == Some(clean[i].uuid)
  {
    assert entries[i] in entries;
    RenamedIs(conns, entries, entries[i]);
  }

  lemma CollectedControllers(conns: seq<Connection>, changed: seq<NetworkConnection>, next: Uuid, order: seq<string>,
                             listed: seq<Connection>, added: seq<Connection>, k: nat)
    requires IsCollected(changed, next, order, listed, added) && k < |listed + added|
    requires EntriesOk(listed, order, next + |changed|, listed + added)
    ensures ControllerBefore(conns, Sanitize(conns, listed + added), k)
  {
    var entries := listed + added;
    ListedAreFree(changed, next);
    ListedAreConverted(changed, next);
    if entries[k].controller.Some? {
      var p := order[k - |listed|];
      assert p in order && entries[k].controller == Some(Claims(changed, next)[p]);
      var i := ClaimedController(changed, next, p);
      assert entries[i] == listed[i] && entries[i] in entries;
      forall f | f in entries && f.uuid == entries[i].uuid
        ensures f.id == entries[i].id && f.config == entries[i].config
      {
        OneEach(listed, order, next, next + |changed|, f, entries[i]);
      }
      CleanController(conns, entries, k, i);
    }
  }

  /*** Merging and setting ports ***/

  lemma MergeOneUuids(conns: seq<Connection>, e: Connection)
    ensures var (after, error) := MergeOne(conns, e);
            && (forall u :: HasUuid(conns, u) ==> HasUuid(after, u))
            && (error.None? ==> HasUuid(after, e.uuid) && forall c | c in after :: c == e || c in conns)
            && (error.Some? ==> after == conns)
  {
    var (after, error) := MergeOne(conns, e);
    var n := FindUuid(conns, e.uuid);
    if error.None? {
      assert after == conns + [e] || (n < |conns| && after == conns[n := e]);
      assert e in after by {
        assert after[if after == conns + [e] then |conns| else n] == e;
      }
      forall u | HasUuid(conns, u) ensures HasUuid(after, u) {
        var c :| c in conns && c.uuid == u;
        var i: nat :| i < |conns| && conns[i] == c;
        assert after[i] in after;
      }
    }
  }

  lemma {:induction false} MergeControllers(conns: seq<Connection>, entries: seq<Connection>)
    requires ControllersIn(conns, conns) && forall k: nat | k < |entries| :: ControllerBefore(conns, entries, k)
    ensures ControllersIn(Merge(conns, entries).0, Merge(conns, entries).0)
    decreases entries
  {
    if entries != [] {
      var e, rest := entries[0], entries[1..];
      var (after, error) := MergeOne(conns, e);
      MergeOneUuids(conns, e);
      assert ControllerBefore(conns, entries, 0);
      if error.None? {
        assert entries == [e] + rest;
        forall k: nat | k < |rest| ensures ControllerBefore(after, rest, k) {
          assert ControllerBefore(conns, entries, k + 1);
        }
        MergeControllers(after, rest);
      }
    }
  }

  lemma SameUuids(conns: seq<Connection>, after: seq<Connection>, uuid: Uuid)
    requires |after| == |conns| && HasUuid(conns, uuid)
    requires forall i: nat | i < |conns| :: after[i].uuid == conns[i].uuid
    ensures HasUuid(after, uuid)
  {
    var c :| c in conns && c.uuid == uuid;
    var i: nat :| i < |conns| && conns[i] == c;
    assert after[i] in after;
  }

  lemma {:induction false} ReassignedControllers(conns: seq<Connection>, uuid: Uuid, controlled: seq<Uuid>)
    requires ControllersIn(conns, conns) && HasUuid(conns, uuid)
    ensures var after := ReassignAll(conns, uuid, controlled); ControllersIn(after, after)
  {
    var after := ReassignAll(conns, uuid, controlled);
    forall c | c in after && c.controller.Some? ensures HasUuid(after, c.controller.value) {
      var i: nat :| i < |after| && after[i] == c;
      assert conns[i] in conns;
      assert after[i] == Reassign(conns[i], uuid, controlled);
      SameUuids(conns, after, c.controller.value);
    }
  }

  lemma SetPortsOfControllers(conns: seq<Connection>, nc: NetworkConnection)
    requires ControllersIn(conns, conns)
    ensures ControllersIn(SetPortsOf(conns, nc).0, SetPortsOf(conns, nc).0)
  {
    var n := FindId(conns, nc.id);
    if UpdatePorts(nc).Some? && n < |conns| && SetPortsOf(conns, nc).1.None? {
      NoneUnknown(conns, UpdatePorts(nc).value);
      assert conns[n] in conns;
      ReassignedControllers(conns, conns[n].uuid, ControlledUuids(conns, UpdatePorts(nc).value));
    }
  }

  lemma {:induction false} SetAllPortsControllers(conns: seq<Connection>, list: seq<NetworkConnection>)
    requires ControllersIn(conns, conns)
    ensures ControllersIn(SetAllPorts(conns, list).0, SetAllPorts(conns, list).0)
  {
    if list != [] {
      var last := |list| - 1;
      SetAllPortsControllers(conns, list[..last]);
      SetPortsOfControllers(SetAllPorts(conns, list[..last]).0, list[last]);
    }
  }

  /**
   If every controlled connection had an existing controller before an update, then so it is after it,
   for every configuration, accepted or refused.
   */
  lemma ControllersExist(conns: seq<Connection>, changed: seq<NetworkConnection>, next: Uuid, order: seq<string>)
    requires ControllersIn(conns, conns)
    requires NoRepeats(order) && forall p | p in order :: p in Claims(changed, next)
    ensures var after := Reconcile(conns, changed, next, order).0; ControllersIn(after, after)
  {
    if ConvertAll(changed, next).Ok? {
      var clean := CleanCollected(conns, changed, next, order);
      MergeControllers(conns, clean);
      SetAllPortsControllers(Merge(conns, clean).0, changed);
    }
  }

  lemma CleanCollected(conns: seq<Connection>, changed: seq<NetworkConnection>, next: Uuid, order: seq<string>)
    returns (clean: seq<Connection>)
    requires Convertible(changed, next, order)
    ensures clean == Sanitize(conns, Collect(changed, next, order).value)
    ensures forall k: nat | k < |clean| :: ControllerBefore(conns, clean, k)
  {
    var listed := ConvertAll(changed, next).value;
    var added := PortEntries(listed, Claims(changed, next), order, next + |changed|);
    CollectedIs(changed, next, order, listed, added);
    clean := Sanitize(conns, listed + added);
    CollectedIsOk(changed, next, order);
    forall k: nat | k < |clean| ensures ControllerBefore(conns, clean, k) {
      CollectedControllers(conns, changed, next, order, listed, added, k);
    }
  }

  /*** From the configuration to the change ***/

  /** What changed in a configuration with distinct ids has distinct ids. */
  lemma {:induction false} ChangedDistinct(user: Option<Config>, list: seq<NetworkConnection>)
    requires DistinctIds(list)
    ensures DistinctIds(Changed(user, list))
  {
    if list != [] {
      var rest := Changed(user, list[1..]);
      ChangedDistinct(user, list[1..]);
      forall nc | nc in rest ensures nc.id != list[0].id {
        var i: nat :| i < |list[1..]| && list[1..][i] == nc;
        assert list[i + 1] == nc;
      }
      assert forall i | 0 <= i < |rest| :: rest[i] in rest;
    }
  }
}
