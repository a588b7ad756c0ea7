/** What every update of the network state keeps, whatever the configuration says and even if it fails. */
module NetworkInvariant {
  import opened Sequences
  import opened Network
  import opened NetworkTheorems
  import opened NetworkReconciliation

  /** A uuid tells the id, among the entries and between entries and connections. */
  ghost predicate UuidTellsId(conns: seq<Connection>, entries: seq<Connection>) {
    && (forall e, i | e in entries && 0 <= i < |conns| && conns[i].uuid == e.uuid :: conns[i].id == e.id)
    && (forall e, f | e in entries && f in entries && e.uuid == f.uuid :: e.id == f.id)
  }

  predicate Below(conns: seq<Connection>, bound: Uuid) {
    forall c | c in conns :: c.uuid < bound
  }

  lemma MergeOneKeeps(conns: seq<Connection>, e: Connection, rest: seq<Connection>, bound: Uuid)
    requires Distinct(conns) && UuidTellsId(conns, [e] + rest) && Below(conns, bound) && e.uuid < bound
    ensures var after := MergeOne(conns, e).0;
            Distinct(after) && Extends(conns, after) && UuidTellsId(after, rest) && Below(after, bound)
  {
    assert forall f | f in rest :: f in [e] + rest;
    assert ([e] + rest)[0] == e && e in [e] + rest;
    var n := FindUuid(conns, e.uuid);
    var after := MergeOne(conns, e).0;
    assert after == conns || after == conns + [e] || (n < |conns| && after == conns[n := e]);
    forall c | c in after ensures c.uuid < bound {
      assert c == e || c in conns;
    }
  }

  lemma {:induction false} MergeKeeps(conns: seq<Connection>, entries: seq<Connection>, bound: Uuid)
    requires Distinct(conns) && UuidTellsId(conns, entries) && Below(conns, bound) && Below(entries, bound)
    ensures var after := Merge(conns, entries).0;
            Distinct(after) && Extends(conns, after) && Below(after, bound)
    decreases entries
  {
    if entries != [] {
      var e, rest := entries[0], entries[1..];
      assert entries == [e] + rest && e in entries;
      MergeOneKeeps(conns, e, rest, bound);
      if MergeOne(conns, e).1.None? {
        MergeKeeps(MergeOne(conns, e).0, rest, bound);
      }
    }
  }

  lemma {:induction false} SetAllPortsKeeps(conns: seq<Connection>, list: seq<NetworkConnection>)
    ensures var after := SetAllPorts(conns, list).0; |after| == |conns| && Extends(conns, after)
  {
    if list != [] {
      var last := |list| - 1;
      SetAllPortsKeeps(conns, list[..last]);
    }
  }

  /** An entry is a listed connection or a new port, each with a uuid of its own. */
  ghost predicate HasOwnUuid(listed: seq<Connection>, order: seq<string>, next: Uuid, base: Uuid, e: Connection) {
    || (exists i: nat :: i < |listed| && e.id == listed[i].id && e.uuid == listed[i].uuid)
    || (exists j: nat :: j < |order| && e.id == order[j] && e.uuid == base + j)
  }

  ghost predicate AllOwn(listed: seq<Connection>, order: seq<string>, next: Uuid, base: Uuid,
                         entries: seq<Connection>) {
    && base == next + |listed| && (forall i: nat | i < |listed| :: listed[i].uuid == next + i)
    && forall e | e in entries :: HasOwnUuid(listed, order, next, base, e)
  }

  lemma OwnUuids(list: seq<NetworkConnection>, next: Uuid, order: seq<string>)
    requires NoRepeats(order) && (forall p | p in order :: p in Claims(list, next)) && ConvertAll(list, next).Ok?
    ensures AllOwn(ConvertAll(list, next).value, order, next, next + |list|, Collect(list, next, order).value)
  {
    var listed, base := ConvertAll(list, next).value, next + |list|;
    ConvertAllFacts(list, next);
    forall i: nat | i < |listed| ensures listed[i].uuid == next + i {
      assert Convert(list[i], next + i) == Ok(listed[i]);
    }
    AddedEntriesOk(listed, Claims(list, next), order, base);
    forall e | e in Collect(list, next, order).value ensures HasOwnUuid(listed, order, next, base, e) {
      assert EntryOk(listed, order, base, e);
      if i: nat :| IsListed(listed, e, i) {
      } else {
        var j: nat :| IsNewPort(listed, order, base, e, j);
      }
    }
  }

  lemma SanitizedTellKnown(conns: seq<Connection>, next: Uuid, renamed: map<Uuid, Uuid>, e: Connection, i: nat)
    requires Distinct(conns) && Below(conns, next) && e.uuid >= next && i < |conns|
    ensures var a := SanitizeOne(conns, renamed, e); conns[i].uuid == a.uuid ==> conns[i].id == a.id
  {
    assert conns[i] in conns;
  }

  lemma CleanPair(conns: seq<Connection>, listed: seq<Connection>, order: seq<string>, next: Uuid, base: Uuid,
                  entries: seq<Connection>, i: nat, j: nat)
    requires Distinct(conns) && Below(conns, next) && AllOwn(listed, order, next, base, entries)
    requires i < |entries| && j < |entries|
    ensures var clean := Sanitize(conns, entries); clean[i].uuid == clean[j].uuid ==> clean[i].id == clean[j].id
  {
    assert entries[i] in entries && entries[j] in entries;
  }

  lemma CleanKnown(conns: seq<Connection>, listed: seq<Connection>, order: seq<string>, next: Uuid, base: Uuid,
                   entries: seq<Connection>, k: nat)
    requires Distinct(conns) && Below(conns, next) && AllOwn(listed, order, next, base, entries) && k < |entries|
    ensures var e := Sanitize(conns, entries)[k];
            e.uuid < base + |order| && forall i: nat | i < |conns| && conns[i].uuid == e.uuid :: conns[i].id == e.id
  {
    var e := Sanitize(conns, entries)[k];
    assert entries[k] in entries;
    forall i: nat | i < |conns| && conns[i].uuid == e.uuid ensures conns[i].id == e.id {
      SanitizedTellKnown(conns, next, Renamed(conns, entries), entries[k], i);
    }
    var n := FindId(conns, entries[k].id);
    assert n < |conns| ==> conns[n] in conns;
  }

  lemma SanitizedUuids(conns: seq<Connection>, listed: seq<Connection>, order: seq<string>, next: Uuid, base: Uuid,
                       entries: seq<Connection>)
    requires Distinct(conns) && Below(conns, next) && AllOwn(listed, order, next, base, entries)
    ensures UuidTellsId(conns, Sanitize(conns, entries)) && Below(Sanitize(conns, entries), base + |order|)
  {
    var clean := Sanitize(conns, entries);
    forall e, f | e in clean && f in clean ensures e.uuid == f.uuid ==> e.id == f.id {
      var i: nat :| i < |clean| && clean[i] == e;
      var j: nat :| j < |clean| && clean[j] == f;
      CleanPair(conns, listed, order, next, base, entries, i, j);
    }
    forall e | e in clean
      ensures e.uuid < base + |order| && forall i | 0 <= i < |conns| && conns[i].uuid == e.uuid :: conns[i].id == e.id
    {
      var k: nat :| k < |clean| && clean[k] == e;
      CleanKnown(conns, listed, order, next, base, entries, k);
    }
  }

  lemma MergeAndSetKeeps(conns: seq<Connection>, clean: seq<Connection>, list: seq<NetworkConnection>, bound: Uuid)
    requires Distinct(conns) && UuidTellsId(conns, clean) && Below(conns, bound) && Below(clean, bound)
    ensures var merged := Merge(conns, clean).0;
            var after := SetAllPorts(merged, list).0;
            && Distinct(merged) && Extends(conns, merged) && Below(merged, bound)
            && Distinct(after) && Extends(conns, after) && Below(after, bound)
  {
    MergeKeeps(conns, clean, bound);
    var merged := Merge(conns, clean).0;
    SetAllPortsKeeps(merged, list);
    var after := SetAllPorts(merged, list).0;
    forall c | c in after ensures c.uuid < bound {
      var i: nat :| i < |after| && after[i] == c;
      assert merged[i] in merged;
    }
  }

  /**
   For every configuration, accepted or not: ids and uuids stay unique, and no known connection is
   dropped, moved or renamed.
   */
  lemma {:induction false} ReconcileKeeps(conns: seq<Connection>, list: seq<NetworkConnection>, next: Uuid,
                                          order: seq<string>)
    requires Distinct(conns) && Below(conns, next)
    requires NoRepeats(order) && forall p | p in order :: p in Claims(list, next)
    ensures var after := Reconcile(conns, list, next, order).0;
            Distinct(after) && Extends(conns, after) && Below(after, next + |list| + |order|)
  {
    if ConvertAll(list, next).Ok? {
      var listed, entries := ConvertAll(list, next).value, Collect(list, next, order).value;
      assert AllOwn(listed, order, next, next + |list|, entries) by {
        OwnUuids(list, next, order);
      }
      CleanReconcileKeeps(conns, listed, list, order, next, next + |list|, entries);
    }
  }

  lemma CleanReconcileKeeps(conns: seq<Connection>, listed: seq<Connection>, list: seq<NetworkConnection>,
                            order: seq<string>, next: Uuid, base: Uuid, entries: seq<Connection>)
    requires Distinct(conns) && Below(conns, next) && AllOwn(listed, order, next, base, entries)
    ensures var (merged, error) := Merge(conns, Sanitize(conns, entries));
            var after := if error.Some? then merged else SetAllPorts(merged, list).0;
            Distinct(after) && Extends(conns, after) && Below(after, base + |order|)
  {
    SanitizedUuids(conns, listed, order, next, base, entries);
    assert Below(conns, base + |order|);
    MergeAndSetKeeps(conns, Sanitize(conns, entries), list, base + |order|);
  }
}
