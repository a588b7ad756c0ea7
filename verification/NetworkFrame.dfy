/** What a change of the network configuration leaves alone, whether it is accepted or not. */
module NetworkFrame {
  import opened Sequences
  import opened Network
  import opened NetworkTheorems
  import opened NetworkReconciliation
  import opened NetworkEntries
  import opened NetworkInvariant

  /** What a change can affect: an entry has the id, or a changed controller names the connection or had it. */
  predicate Concerned(conns: seq<Connection>, after: seq<Connection>, changed: seq<NetworkConnection>, x: nat)
    requires x < |conns|
  {
    || Rewritten(changed, conns[x].id)
    || exists nc | nc in changed :: Claimer(after, nc, x) || Controls(after, nc, conns[x].controller)
  }

  /** Merging writes to the places of the entries' ids only. */
  lemma {:induction false} MergeFrame(conns: seq<Connection>, entries: seq<Connection>, bound: Uuid, x: nat)
    requires Distinct(conns) && UuidTellsId(conns, entries) && Below(conns, bound) && Below(entries, bound)
    requires x < |conns| && !HasId(entries, conns[x].id)
    ensures x < |Merge(conns, entries).0| && Merge(conns, entries).0[x] == conns[x]
    decreases entries
  {
    if entries != [] {
      var e, rest := entries[0], entries[1..];
      assert entries == [e] + rest && e in entries;
      MergeOneKeeps(conns, e, rest, bound);
      if MergeOne(conns, e).1.None? {
        HasIdCons(e, rest, conns[x].id);
        MergeFrame(MergeOne(conns, e).0, rest, bound, x);
      }
    }
  }

  lemma MergeThenSetFrame(conns: seq<Connection>, clean: seq<Connection>, changed: seq<NetworkConnection>,
                          bound: Uuid, x: nat)
    requires Distinct(conns) && UuidTellsId(conns, clean) && Below(conns, bound) && Below(clean, bound)
    requires x < |conns| && (HasId(clean, conns[x].id) ==> Rewritten(changed, conns[x].id))
    ensures var (merged, error) := Merge(conns, clean);
            var after := if error.Some? then merged else SetAllPorts(merged, changed).0;
            |conns| <= |after| && (!Concerned(conns, after, changed, x) ==> after[x] == conns[x])
  {
    MergeKeeps(conns, clean, bound);
    var (merged, error) := Merge(conns, clean);
    if !Rewritten(changed, conns[x].id) {
      MergeFrame(conns, clean, bound, x);
    }
    if error.None? {
      SetAllPortsSame(merged, changed);
      UnconcernedKept(conns, merged, changed, x);
    }
  }

  lemma UnconcernedKept(conns: seq<Connection>, merged: seq<Connection>, changed: seq<NetworkConnection>, x: nat)
    requires Distinct(merged) && x < |conns| <= |merged| && SamePlaces(merged, SetAllPorts(merged, changed).0)
    requires !Rewritten(changed, conns[x].id) ==> merged[x] == conns[x]
    ensures var after := SetAllPorts(merged, changed).0;
            !Concerned(conns, after, changed, x) ==> after[x] == conns[x]
  {
    var after := SetAllPorts(merged, changed).0;
    if !Concerned(conns, after, changed, x) {
      forall nc | nc in changed ensures !Claimer(merged, nc, x) && !Controls(merged, nc, merged[x].controller) {
        AttachableSame(merged, after, nc);
        assert Claimer(merged, nc, x) <==> Claimer(after, nc, x);
      }
      SetAllPortsFrame(merged, changed, x);
    }
  }

  lemma CleanNamesRewritten(conns: seq<Connection>, changed: seq<NetworkConnection>, next: Uuid, order: seq<string>,
                            id: string)
    requires Convertible(changed, next, order) && HasId(Sanitize(conns, Collect(changed, next, order).value), id)
    ensures Rewritten(changed, id)
  {
    var entries := Collect(changed, next, order).value;
    CleanNames(conns, entries, id);
    var e :| e in entries && e.id == id;
    EntryIs(changed, next, order, e);
  }

  /**
   The frame of every change, accepted or refused half-way: a connection changes only if the change
   has an entry with its id, if a port name of a changed controller stands for it, or if it belonged
   to a changed controller.
   */
  lemma ReconcileFrame(conns: seq<Connection>, changed: seq<NetworkConnection>, next: Uuid, order: seq<string>, x: nat)
    requires Distinct(conns) && Below(conns, next) && x < |conns|
    requires NoRepeats(order) && forall p | p in order :: p in Claims(changed, next)
    ensures var after := Reconcile(conns, changed, next, order).0;
            |conns| <= |after| && (!Concerned(conns, after, changed, x) ==> after[x] == conns[x])
  {
    if ConvertAll(changed, next).Ok? {
      var listed, entries := ConvertAll(changed, next).value, Collect(changed, next, order).value;
      var base := next + |changed|;
      assert AllOwn(listed, order, next, base, entries) by {
        OwnUuids(changed, next, order);
      }
      SanitizedUuids(conns, listed, order, next, base, entries);
      assert Below(conns, base + |order|);
      if HasId(Sanitize(conns, entries), conns[x].id) {
        CleanNamesRewritten(conns, changed, next, order, conns[x].id);
      }
      MergeThenSetFrame(conns, Sanitize(conns, entries), changed, base + |order|, x);
    }
  }
}
