/** Merging the entries of a change, whatever ids it lists: exactly when that succeeds, and what is there afterwards. */
module NetworkRepeats {
  import opened Events
  import opened Sequences
  import opened Network
  import opened NetworkTheorems
  import opened NetworkReconciliation
  import opened NetworkEntries
  import opened NetworkInvariant

  /*** Merging any entries ***/

  /** Entries with a new id have one uuid. */
  ghost predicate NewIdsAgree(conns: seq<Connection>, entries: seq<Connection>) {
    forall e, f | e in entries && f in entries && e.id == f.id :: HasId(conns, e.id) || e.uuid == f.uuid
  }

  /** Entries with a known id have a known uuid. */
  ghost predicate KnownIdsKnown(conns: seq<Connection>, entries: seq<Connection>) {
    forall e | e in entries :: HasId(conns, e.id) ==> HasUuid(conns, e.uuid)
  }

  /** One entry: it fails exactly if the id is known and the uuid is not; else ids and uuids grow by its own. */
  lemma MergeOneGrows(conns: seq<Connection>, e: Connection, rest: seq<Connection>)
    requires Distinct(conns) && UuidTellsId(conns, [e] + rest)
    ensures var (after, error) := MergeOne(conns, e);
            && (error.None? <==> (HasId(conns, e.id) ==> HasUuid(conns, e.uuid)))
            && (error.None? ==> forall id :: HasId(after, id) <==> HasId(conns, id) || id == e.id)
            && (error.None? ==> forall u :: HasUuid(after, u) <==> HasUuid(conns, u) || u == e.uuid)
            && (error.Some? ==> after == conns && error == Some(UnknownUuid(e.uuid)))
  {
    var (after, error) := MergeOne(conns, e);
    var n := FindUuid(conns, e.uuid);
    if error.None? {
      assert ([e] + rest)[0] == e && e in [e] + rest;
      var at := if HasId(conns, e.id) then n else |conns|;
      assert at < |after| && after[at] == e && forall i | 0 <= i < |conns| && i != at :: after[i] == conns[i];
      assert at < |conns| ==> conns[at].id == e.id && conns[at].uuid == e.uuid;
      assert |after| == if at < |conns| then |conns| else |conns| + 1;
    }
  }

  lemma RestAgrees(conns: seq<Connection>, e: Connection, rest: seq<Connection>, after: seq<Connection>)
    requires UuidTellsId(conns, [e] + rest) && (HasId(conns, e.id) ==> HasUuid(conns, e.uuid))
    requires forall id :: HasId(after, id) <==> HasId(conns, id) || id == e.id
    requires forall u :: HasUuid(after, u) <==> HasUuid(conns, u) || u == e.uuid
    ensures NewIdsAgree(conns, [e] + rest) && KnownIdsKnown(conns, [e] + rest)
            <==> NewIdsAgree(after, rest) && KnownIdsKnown(after, rest)
  {
    var all := [e] + rest;
    assert forall f :: f in all <==> f == e || f in rest;
    assert e in all;
    if NewIdsAgree(after, rest) && KnownIdsKnown(after, rest) {
      forall f | f in all ensures HasId(conns, f.id) ==> HasUuid(conns, f.uuid) {
      }
      forall f, g | f in all && g in all && f.id == g.id ensures HasId(conns, f.id) || f.uuid == g.uuid {
      }
    }
  }

  /** Merging succeeds exactly if new ids have one uuid each, and known ids known uuids. */
  lemma {:induction false} MergeSucceeds(conns: seq<Connection>, entries: seq<Connection>, bound: Uuid)
    requires Distinct(conns) && UuidTellsId(conns, entries) && Below(conns, bound) && Below(entries, bound)
    ensures Merge(conns, entries).1.None? <==> NewIdsAgree(conns, entries) && KnownIdsKnown(conns, entries)
    decreases entries
  {
    if entries != [] {
      var e, rest := entries[0], entries[1..];
      assert entries == [e] + rest && e in entries;
      MergeOneGrows(conns, e, rest);
      var (after, error) := MergeOne(conns, e);
      if error.None? {
        MergeOneKeeps(conns, e, rest, bound);
        RestAgrees(conns, e, rest, after);
        MergeSucceeds(after, rest, bound);
      }
    }
  }

  lemma MergeOneIs(conns: seq<Connection>, e: Connection, rest: seq<Connection>, bound: Uuid)
    requires Distinct(conns) && UuidTellsId(conns, [e] + rest) && Below(conns, bound) && e.uuid < bound
    requires MergeOne(conns, e).1.None?
    ensures Merged(conns, [e], MergeOne(conns, e).0)
  {
    var after := MergeOne(conns, e).0;
    MergeOneKeeps(conns, e, rest, bound);
    assert ([e] + rest)[0] == e && e in [e] + rest;
    var n := if HasId(conns, e.id) then FindUuid(conns, e.uuid) else |conns|;
    assert n < |after| && after[n] == e && after[n].id == e.id;
    forall i: nat | i < |after| ensures MergedAt(conns, [e], after, i) {
      assert after[i].id == e.id ==> i == n;
    }
  }

  /** Entries that are merged without error are all there: each place has the last one with its id, or is as before. */
  lemma {:induction false} MergedIs(conns: seq<Connection>, entries: seq<Connection>, bound: Uuid)
    requires Distinct(conns) && UuidTellsId(conns, entries) && Below(conns, bound) && Below(entries, bound)
    requires Merge(conns, entries).1.None?
    ensures Merged(conns, entries, Merge(conns, entries).0)
    decreases entries
  {
    if entries != [] {
      var e, rest := entries[0], entries[1..];
      assert entries == [e] + rest && e in entries;
      MergeOneIs(conns, e, rest, bound);
      MergeOneKeeps(conns, e, rest, bound);
      var mid := MergeOne(conns, e).0;
      MergedIs(mid, rest, bound);
      MergedTwice(conns, e, rest, mid, Merge(mid, rest).0);
    }
  }

  /**
   Where merging stops: at an entry whose id was new at the beginning and is there by then under the
   uuid of an earlier entry.
   */
  lemma {:induction false} MergeStops(conns: seq<Connection>, entries: seq<Connection>, bound: Uuid)
    returns (a: nat, b: nat)
    requires Distinct(conns) && UuidTellsId(conns, entries) && Below(conns, bound) && Below(entries, bound)
    requires Merge(conns, entries).1.Some? && KnownIdsKnown(conns, entries)
    ensures a < b < |entries| && entries[a].id == entries[b].id && entries[a].uuid != entries[b].uuid
    ensures !HasId(conns, entries[b].id) && HasId(Merge(conns, entries).0, entries[b].id)
    ensures Merge(conns, entries).1 == Some(UnknownUuid(entries[b].uuid))
  {
    b := StopsAt(conns, entries, bound);
    a :| 0 <= a < b && entries[a].id == entries[b].id && entries[a].uuid != entries[b].uuid;
  }

  /** An earlier entry has the id of the one at `b`, but another uuid. */
  ghost predicate RepeatsEarlier(entries: seq<Connection>, b: nat)
    requires b < |entries|
  {
    exists a | 0 <= a < b :: entries[a].id == entries[b].id && entries[a].uuid != entries[b].uuid
  }

  lemma RepeatsShifted(e: Connection, rest: seq<Connection>, c: nat)
    requires c < |rest|
    requires RepeatsEarlier(rest, c) || (e.id == rest[c].id && e.uuid != rest[c].uuid)
    ensures RepeatsEarlier([e] + rest, c + 1)
  {
    var entries := [e] + rest;
    assert entries[c + 1] == rest[c] && entries[0] == e;
    if RepeatsEarlier(rest, c) {
      var a :| 0 <= a < c && rest[a].id == rest[c].id && rest[a].uuid != rest[c].uuid;
      assert entries[a + 1] == rest[a];
    }
  }

  /** Where merging stops, if it does: at an entry whose id is there by then, and whose uuid was never there. */
  ghost predicate StoppedAt(conns: seq<Connection>, entries: seq<Connection>, after: seq<Connection>, b: nat)
    requires b < |entries|
  {
    && HasId(after, entries[b].id) && !HasUuid(conns, entries[b].uuid)
    && (!HasId(conns, entries[b].id) ==> RepeatsEarlier(entries, b))
  }

  lemma {:induction false} StopsAt(conns: seq<Connection>, entries: seq<Connection>, bound: Uuid) returns (b: nat)
    requires Distinct(conns) && UuidTellsId(conns, entries) && Below(conns, bound) && Below(entries, bound)
    requires Merge(conns, entries).1.Some?
    ensures b < |entries| && Merge(conns, entries).1 == Some(UnknownUuid(entries[b].uuid))
    ensures StoppedAt(conns, entries, Merge(conns, entries).0, b)
    decreases entries, 0
  {
    var e, rest := entries[0], entries[1..];
    assert entries == [e] + rest && e in entries;
    MergeOneGrows(conns, e, rest);
    var (after, error) := MergeOne(conns, e);
    if error.Some? {
      b := 0;
    } else {
      MergeOneKeeps(conns, e, rest, bound);
      assert Below(rest, bound);
      b := StopsLater(conns, e, rest, after, bound);
    }
  }

  lemma {:induction false} StopsLater(conns: seq<Connection>, e: Connection, rest: seq<Connection>,
                                      after: seq<Connection>,
                                      bound: Uuid)
    returns (b: nat)
    requires Distinct(after) && UuidTellsId(after, rest) && Below(after, bound) && Below(rest, bound)
    requires Merge(after, rest).1.Some?
    requires forall id :: HasId(after, id) <==> HasId(conns, id) || id == e.id
    requires forall u :: HasUuid(after, u) <==> HasUuid(conns, u) || u == e.uuid
    ensures b <= |rest| && Merge(after, rest).1 == Some(UnknownUuid(([e] + rest)[b].uuid))
    ensures StoppedAt(conns, [e] + rest, Merge(after, rest).0, b)
    decreases rest, 1
  {
    var c := StopsAt(after, rest, bound);
    b := c + 1;
    StoppedShifted(conns, e, rest, after, Merge(after, rest).0, c);
  }

  lemma StoppedShifted(conns: seq<Connection>, e: Connection, rest: seq<Connection>, after: seq<Connection>,
                       merged: seq<Connection>, c: nat)
    requires c < |rest| && StoppedAt(after, rest, merged, c)
    requires forall id :: HasId(after, id) <==> HasId(conns, id) || id == e.id
    requires forall u :: HasUuid(after, u) <==> HasUuid(conns, u) || u == e.uuid
    ensures StoppedAt(conns, [e] + rest, merged, c + 1)
  {
    assert ([e] + rest)[c + 1] == rest[c];
    if !HasId(conns, rest[c].id) {
      RepeatsShifted(e, rest, c);
    }
  }

  /*** The entries of a change ***/

  /** An id that is listed more than once is known already. */
  predicate NoNewIdTwice(conns: seq<Connection>, changed: seq<NetworkConnection>) {
    forall i, j | 0 <= i < j < |changed| && changed[i].id == changed[j].id :: HasId(conns, changed[i].id)
  }

  lemma CleanAgree(conns: seq<Connection>, entries: seq<Connection>)
    ensures KnownIdsKnown(conns, Sanitize(conns, entries))
    ensures NewIdsAgree(conns, Sanitize(conns, entries)) <==> NewIdsAgree(conns, entries)
  {
    var clean := Sanitize(conns, entries);
    forall c | c in clean ensures HasId(conns, c.id) ==> HasUuid(conns, c.uuid) {
      var e := CleanIs(conns, entries, c);
      CleanUuid(conns, entries, c);
    }
    if NewIdsAgree(conns, entries) {
      forall c, d | c in clean && d in clean && c.id == d.id ensures HasId(conns, c.id) || c.uuid == d.uuid {
        CleanUuid(conns, entries, c);
        CleanUuid(conns, entries, d);
      }
    }
    if NewIdsAgree(conns, clean) {
      forall e, f | e in entries && f in entries && e.id == f.id ensures HasId(conns, e.id) || e.uuid == f.uuid {
        NewUuidKept(conns, entries, e);
        NewUuidKept(conns, entries, f);
      }
    }
  }

  /** A clean entry with a known id has a known uuid; one with a new id has the uuid of an entry. */
  lemma CleanUuid(conns: seq<Connection>, entries: seq<Connection>, c: Connection)
    requires c in Sanitize(conns, entries)
    ensures HasId(conns, c.id) ==> HasUuid(conns, c.uuid)
    ensures !HasId(conns, c.id) ==> exists e | e in entries :: e.id == c.id && e.uuid == c.uuid
  {
    var clean := Sanitize(conns, entries);
    var k: nat :| k < |clean| && clean[k] == c;
    var n := FindId(conns, c.id);
    if n < |conns| {
      assert conns[n] in conns;
    } else {
      assert entries[k] in entries;
    }
  }

  lemma NewUuidKept(conns: seq<Connection>, entries: seq<Connection>, e: Connection)
    requires e in entries
    ensures !HasId(conns, e.id) ==> exists c | c in Sanitize(conns, entries) :: c.id == e.id && c.uuid == e.uuid
  {
    var clean := Sanitize(conns, entries);
    var k: nat :| k < |entries| && entries[k] == e;
    assert clean[k] in clean;
  }

  /** Two entries with one id and two uuids come from two listed connections. */
  lemma TwoUuids(changed: seq<NetworkConnection>, listed: seq<Connection>, order: seq<string>, next: Uuid, base: Uuid,
                 e: Connection, f: Connection)
    returns (i: nat, j: nat)
    requires NoRepeats(order) && EntryOk(listed, order, base, e) && EntryOk(listed, order, base, f)
    requires e.id == f.id && e.uuid != f.uuid && |listed| == |changed|
    requires forall k: nat | k < |changed| :: listed[k].id == changed[k].id && listed[k].uuid == next + k
    ensures i < |changed| && j < |changed| && i != j && changed[i].id == changed[j].id == e.id && f.uuid == next + j
  {
    if a: nat, b: nat :| IsListed(listed, e, a) && IsListed(listed, f, b) {
      i, j := a, b;
    } else if a: nat :| IsListed(listed, e, a) {
      var b: nat :| IsNewPort(listed, order, base, f, b);
      OtherId(listed, order, base, e, f, a, b);
    } else {
      var a: nat :| IsNewPort(listed, order, base, e, a);
      if b: nat :| IsListed(listed, f, b) {
        OtherId(listed, order, base, f, e, b, a);
      } else {
        assert false;
      }
    }
  }

  lemma EntriesAgree(conns: seq<Connection>, changed: seq<NetworkConnection>, next: Uuid, order: seq<string>)
    requires Convertible(changed, next, order)
    ensures NewIdsAgree(conns, Collect(changed, next, order).value) <==> NoNewIdTwice(conns, changed)
  {
    var listed, entries := ConvertAll(changed, next).value, Collect(changed, next, order).value;
    ListedAreConverted(changed, next);
    CollectedIsOk(changed, next, order);
    if NoNewIdTwice(conns, changed) {
      forall e, f | e in entries && f in entries && e.id == f.id ensures HasId(conns, e.id) || e.uuid == f.uuid {
        if e.uuid != f.uuid {
          var i, j := TwoUuids(changed, listed, order, next, next + |changed|, e, f);
          assert i < j ==> HasId(conns, changed[i].id);
          assert j < i ==> HasId(conns, changed[j].id);
        }
      }
    }
    if NewIdsAgree(conns, entries) {
      forall i, j | 0 <= i < j < |changed| && changed[i].id == changed[j].id ensures HasId(conns, changed[i].id) {
        var e := ListedEntry(changed, next, order, i);
        var f := ListedEntry(changed, next, order, j);
      }
    }
  }

  lemma EntriesTell(conns: seq<Connection>, changed: seq<NetworkConnection>, next: Uuid, order: seq<string>)
    requires Distinct(conns) && Below(conns, next) && Convertible(changed, next, order)
    ensures var clean, bound := Entries(conns, changed, next, order), next + |changed| + |order|;
            UuidTellsId(conns, clean) && Below(conns, bound) && Below(clean, bound)
  {
    OwnUuids(changed, next, order);
    SanitizedUuids(conns, ConvertAll(changed, next).value, order, next, next + |changed|,
                   Collect(changed, next, order).value);
  }

  /** The entries of a change can be merged exactly if no new id is listed twice. */
  lemma MergesUnlessRepeated(conns: seq<Connection>, changed: seq<NetworkConnection>, next: Uuid, order: seq<string>)
    requires Distinct(conns) && Below(conns, next) && Convertible(changed, next, order)
    ensures Merge(conns, Entries(conns, changed, next, order)).1.None? <==> NoNewIdTwice(conns, changed)
  {
    EntriesTell(conns, changed, next, order);
    CleanAgree(conns, Collect(changed, next, order).value);
    EntriesAgree(conns, changed, next, order);
    MergeSucceeds(conns, Entries(conns, changed, next, order), next + |changed| + |order|);
  }

  /** A new id that is listed twice is refused half-way: it is there afterwards, with the uuid of one entry. */
  lemma RepeatedIsHalfDone(conns: seq<Connection>, changed: seq<NetworkConnection>, next: Uuid, order: seq<string>)
    returns (i: nat, j: nat)
    requires Distinct(conns) && Below(conns, next) && Convertible(changed, next, order)
    requires !NoNewIdTwice(conns, changed)
    ensures var (after, error) := Reconcile(conns, changed, next, order);
            && i < |changed| && j < |changed| && i != j && changed[i].id == changed[j].id
            && !HasId(conns, changed[i].id) && HasId(after, changed[i].id)
            && error == Some(UnknownUuid(next + j))
  {
    var e, f := RepeatedEntries(conns, changed, next, order);
    i, j := RepeatedAt(changed, next, order, e, f);
  }

  lemma RepeatedEntries(conns: seq<Connection>, changed: seq<NetworkConnection>, next: Uuid, order: seq<string>)
    returns (e: Connection, f: Connection)
    requires Distinct(conns) && Below(conns, next) && Convertible(changed, next, order)
    requires !NoNewIdTwice(conns, changed)
    ensures var entries := Collect(changed, next, order).value; e in entries && f in entries
    ensures e.id == f.id && e.uuid != f.uuid && !HasId(conns, e.id)
    ensures var (after, error) := Reconcile(conns, changed, next, order);
            HasId(after, e.id) && error == Some(UnknownUuid(f.uuid))
  {
    MergesUnlessRepeated(conns, changed, next, order);
    EntriesTell(conns, changed, next, order);
    e, f := StoppingEntries(conns, Collect(changed, next, order).value, next + |changed| + |order|);
  }

  /** The entries of a new id at which merging stops, before cleaning. */
  lemma StoppingEntries(conns: seq<Connection>, entries: seq<Connection>, bound: Uuid) returns (e: Connection,
                        f: Connection)
    requires var clean := Sanitize(conns, entries);
             Distinct(conns) && UuidTellsId(conns, clean) && Below(conns, bound) && Below(clean, bound)
    requires Merge(conns, Sanitize(conns, entries)).1.Some?
    ensures e in entries && f in entries && e.id == f.id && e.uuid != f.uuid && !HasId(conns, e.id)
    ensures var (after, error) := Merge(conns, Sanitize(conns, entries));
            HasId(after, e.id) && error == Some(UnknownUuid(f.uuid))
  {
    CleanAgree(conns, entries);
    var clean := Sanitize(conns, entries);
    var a, b := MergeStops(conns, clean, bound);
    CleanUuid(conns, entries, clean[a]);
    CleanUuid(conns, entries, clean[b]);
    e :| e in entries && e.id == clean[a].id && e.uuid == clean[a].uuid;
    f :| f in entries && f.id == clean[b].id && f.uuid == clean[b].uuid;
  }

  lemma RepeatedAt(changed: seq<NetworkConnection>, next: Uuid, order: seq<string>, e: Connection, f: Connection)
    returns (i: nat, j: nat)
    requires Convertible(changed, next, order)
    requires e in Collect(changed, next, order).value && f in Collect(changed, next, order).value
    requires e.id == f.id && e.uuid != f.uuid
    ensures i < |changed| && j < |changed| && i != j && changed[i].id == changed[j].id == e.id && f.uuid == next + j
  {
    ListedAreConverted(changed, next);
    CollectedIsOk(changed, next, order);
    i, j := TwoUuids(changed, ConvertAll(changed, next).value, order, next, next + |changed|, e, f);
  }
}
