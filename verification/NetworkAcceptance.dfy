/** What a change makes of each connection, and exactly which changes are accepted. */
module NetworkAcceptance {
  import opened Events
  import opened Sequences
  import opened Text
  import opened Network
  import opened NetworkTheorems
  import opened NetworkReconciliation
  import opened NetworkEntries
  import opened NetworkInvariant
  import opened NetworkRepeats

  /*** Where the settings of an id come from ***/

  function LastListed(changed: seq<NetworkConnection>, id: string): (n: nat)
    ensures n <= |changed| && (n < |changed| ==> changed[n].id == id)
    ensures forall i | 0 <= i < |changed| && (n < i || n == |changed|) :: changed[i].id != id
  {
    if changed == [] then 0
    else
      var last := |changed| - 1;
      var n := LastListed(changed[..last], id);
      if changed[last].id == id then last else if n == last then |changed| else n
  }

  /**
   The listed connection whose settings an id gets. A port is an entry with the settings of the first
   connection that answers to it, so the last port taken out of the hash table decides; without such a
   port, it is the last connection that has the id.
   */
  function Source(changed: seq<NetworkConnection>, order: seq<string>, id: string): (n: nat)
    ensures n <= |changed| && (n < |changed| ==> changed[n].id == id)
    ensures n == |changed| ==> forall i | 0 <= i < |changed| :: changed[i].id != id
    decreases order
  {
    if order == [] then LastListed(changed, id)
    else
      var n := FirstListed(changed, order[|order| - 1]);
      if n < |changed| && changed[n].id == id then n else Source(changed, order[..|order| - 1], id)
  }

  predicate ListsId(changed: seq<NetworkConnection>, id: string) {
    exists nc | nc in changed :: nc.id == id
  }

  /** With distinct ids there is no choice. */
  lemma SourceIsOnly(changed: seq<NetworkConnection>, order: seq<string>, i: nat)
    requires DistinctIds(changed) && i < |changed|
    ensures Source(changed, order, changed[i].id) == i
  {
    var n := Source(changed, order, changed[i].id);
    assert n < |changed| && changed[n].id == changed[i].id;
  }

  lemma LastWithLast(front: seq<Connection>, e: Connection, id: string)
    ensures LastWith(front + [e], id)
         == if e.id == id then |front| else if LastWith(front, id) < |front| then LastWith(front, id) else |front| + 1
  {
    assert (front + [e])[..|front|] == front;
  }

  /** An entry of the change that has the settings of the listed connection at `s`. */
  predicate IsCopy(listed: seq<Connection>, e: Connection, s: nat) {
    s < |listed| && e == listed[s].(controller := e.controller)
  }

  /** One more port: it decides if its name is answered by a connection with this id. */
  lemma SourceStep(changed: seq<NetworkConnection>, listed: seq<Connection>, p: string, controller: Uuid, spare: Uuid,
                   id: string)
    requires SameNames(changed, listed) && ListsId(changed, id)
    ensures var e, n := PortEntry(listed, p, controller, spare), FirstListed(changed, p);
            && (e.id == id <==> n < |changed| && changed[n].id == id)
            && (e.id == id ==> IsCopy(listed, e, n))
  {
    FirstAnsweringAt(listed, p, FirstListed(changed, p));
    var nc :| nc in changed && nc.id == id;
    assert Answers(nc, id);
  }

  predicate SameNames(changed: seq<NetworkConnection>, listed: seq<Connection>) {
    && |listed| == |changed|
    && forall i | 0 <= i < |changed| :: listed[i].id == changed[i].id && listed[i].interface == changed[i].interface
  }

  /** The last entry of a listed id, when the ports come after the listed connections. */
  ghost predicate HasSource(changed: seq<NetworkConnection>, listed: seq<Connection>, order: seq<string>,
                            entries: seq<Connection>, id: string) {
    var k := LastWith(entries, id);
    k < |entries| && IsCopy(listed, entries[k], Source(changed, order, id))
  }

  lemma {:induction false} SourceIsLast(changed: seq<NetworkConnection>, listed: seq<Connection>,
                                        claims: map<string, Uuid>,
                                        order: seq<string>, base: Uuid, ports: seq<Connection>, id: string)
    requires SameNames(changed, listed) && (forall p | p in order :: p in claims) && ListsId(changed, id)
    requires |ports| == |order|
    requires forall j | 0 <= j < |order| :: ports[j] == PortEntry(listed, order[j], claims[order[j]], base + j)
    ensures HasSource(changed, listed, order, listed + ports, id)
  {
    if order == [] {
      assert listed + ports == listed;
      LastIsLast(changed, listed, id);
    } else {
      var last := |order| - 1;
      var e := ports[last];
      SourceIsLast(changed, listed, claims, order[..last], base, ports[..last], id);
      SourceStep(changed, listed, order[last], claims[order[last]], base + last, id);
      SourceOfOneMore(changed, listed, order, listed + ports[..last], e, id);
      assert listed + ports == listed + ports[..last] + [e];
    }
  }

  lemma SourceOfOneMore(changed: seq<NetworkConnection>, listed: seq<Connection>, order: seq<string>,
                        front: seq<Connection>, e: Connection, id: string)
    requires order != [] && |listed| == |changed|
    requires HasSource(changed, listed, order[..|order| - 1], front, id)
    requires var n := FirstListed(changed, order[|order| - 1]);
             (e.id == id <==> n < |changed| && changed[n].id == id) && (e.id == id ==> IsCopy(listed, e, n))
    ensures HasSource(changed, listed, order, front + [e], id)
  {
    LastWithLast(front, e, id);
  }

  lemma {:induction false} LastIsLast(changed: seq<NetworkConnection>, listed: seq<Connection>, id: string)
    requires SameNames(changed, listed) && ListsId(changed, id)
    ensures var k := LastWith(listed, id); k < |listed| && k == LastListed(changed, id)
  {
    var nc :| nc in changed && nc.id == id;
    var i: nat :| i < |changed| && changed[i] == nc;
    assert listed[i].id == id;
    var k, n := LastWith(listed, id), LastListed(changed, id);
    assert changed[k].id == id && listed[n].id == id;
  }

  /*** What is at each place after merging ***/

  /** A change that can be converted and merged. */
  ghost predicate Mergeable(conns: seq<Connection>, changed: seq<NetworkConnection>, next: Uuid, order: seq<string>) {
    && Distinct(conns) && Below(conns, next) && NoNewIdTwice(conns, changed)
    && ConvertAll(changed, next).Ok? && Enumerates(order, Claims(changed, next).Keys)
  }

  lemma MergeWorks(conns: seq<Connection>, changed: seq<NetworkConnection>, next: Uuid, order: seq<string>)
    requires Mergeable(conns, changed, next, order)
    ensures Convertible(changed, next, order) && forall q | q in Claims(changed, next) :: q in order
    ensures Merge(conns, Entries(conns, changed, next, order)).1.None?
    ensures Merged(conns, Entries(conns, changed, next, order), MergedConns(conns, changed, next, order))
  {
    assert Convertible(changed, next, order);
    MergesUnlessRepeated(conns, changed, next, order);
    EntriesTell(conns, changed, next, order);
    MergedIs(conns, Entries(conns, changed, next, order), next + |changed| + |order|);
  }

  lemma CleanAt(conns: seq<Connection>, entries: seq<Connection>, k: nat)
    requires k < |entries|
    ensures var c := Sanitize(conns, entries)[k]; c == entries[k].(uuid := c.uuid, controller := c.controller)
  {
  }

  lemma SameLast(a: seq<Connection>, b: seq<Connection>, id: string)
    requires |a| == |b| && forall i | 0 <= i < |a| :: a[i].id == b[i].id
    ensures LastWith(a, id) == LastWith(b, id)
  {
    var m, n := LastWith(a, id), LastWith(b, id);
    assert m < |a| ==> b[m].id == id;
    assert n < |b| ==> a[n].id == id;
  }

  /** A place has what the last entry with its id says, or what was there. */
  predicate FromEntry(conns: seq<Connection>, entries: seq<Connection>, merged: seq<Connection>, x: nat)
    requires x < |merged|
  {
    var k := LastWith(entries, merged[x].id);
    if k < |entries| then merged[x] == entries[k].(uuid := merged[x].uuid, controller := merged[x].controller)
    else x < |conns| && merged[x] == conns[x]
  }

  lemma MergedEntry(conns: seq<Connection>, entries: seq<Connection>, clean: seq<Connection>, merged: seq<Connection>,
                    x: nat)
    requires |clean| == |entries| && x < |merged| && MergedAt(conns, clean, merged, x)
    requires forall k | 0 <= k < |entries| ::
               clean[k] == entries[k].(uuid := clean[k].uuid, controller := clean[k].controller)
    ensures FromEntry(conns, entries, merged, x)
  {
    SameLast(clean, entries, merged[x].id);
  }

  lemma PlaceIs(conns: seq<Connection>, changed: seq<NetworkConnection>, next: Uuid, order: seq<string>, x: nat)
    requires Mergeable(conns, changed, next, order) && x < |MergedConns(conns, changed, next, order)|
    ensures Convertible(changed, next, order) && forall q | q in Claims(changed, next) :: q in order
    ensures FromEntry(conns, Collect(changed, next, order).value, MergedConns(conns, changed, next, order), x)
  {
    var merged := MergedConns(conns, changed, next, order);
    MergeWorks(conns, changed, next, order);
    var entries, clean := Collect(changed, next, order).value, Entries(conns, changed, next, order);
    assert MergedAt(conns, clean, merged, x);
    forall k | 0 <= k < |entries|
      ensures clean[k] == entries[k].(uuid := clean[k].uuid, controller := clean[k].controller)
    {
      CleanAt(conns, entries, k);
    }
    MergedEntry(conns, entries, clean, merged, x);
  }

  /** A connection that no entry is for is as before. */
  lemma KeptPlace(conns: seq<Connection>, changed: seq<NetworkConnection>, next: Uuid, order: seq<string>, x: nat)
    requires Mergeable(conns, changed, next, order) && x < |MergedConns(conns, changed, next, order)|
    requires !Rewritten(changed, MergedConns(conns, changed, next, order)[x].id)
    ensures x < |conns| && MergedConns(conns, changed, next, order)[x] == conns[x]
  {
    var merged, entries := MergedConns(conns, changed, next, order), Collect(changed, next, order).value;
    PlaceIs(conns, changed, next, order, x);
    EntryIds(changed, next, order, merged[x].id);
    assert forall k | 0 <= k < |entries| :: entries[k] in entries;
  }

  /** One with a listed id has the settings of the connection they come from. */
  lemma {:induction false} ListedPlace(conns: seq<Connection>, changed: seq<NetworkConnection>, next: Uuid,
                                       order: seq<string>, x: nat)
    requires Mergeable(conns, changed, next, order) && x < |MergedConns(conns, changed, next, order)|
    requires ListsId(changed, MergedConns(conns, changed, next, order)[x].id)
    ensures IsSourced(changed, ConvertAll(changed, next).value, order, MergedConns(conns, changed, next, order)[x])
  {
    var listed, entries := ConvertAll(changed, next).value, Collect(changed, next, order).value;
    var merged := MergedConns(conns, changed, next, order);
    PlaceIs(conns, changed, next, order, x);
    CollectedSource(changed, next, order, listed, entries, merged[x].id);
  }

  /** The connection has the settings of the one they come from. */
  predicate IsSourced(changed: seq<NetworkConnection>, listed: seq<Connection>, order: seq<string>, c: Connection) {
    var s := Source(changed, order, c.id);
    s < |listed| && c == listed[s].(uuid := c.uuid, controller := c.controller)
  }

  lemma {:induction false} CollectedSource(changed: seq<NetworkConnection>, next: Uuid, order: seq<string>,
                                           listed: seq<Connection>, entries: seq<Connection>, id: string)
    requires NoRepeats(order) && (forall p | p in order :: p in Claims(changed, next)) && ListsId(changed, id)
    requires ConvertAll(changed, next) == Ok(listed) && Collect(changed, next, order) == Ok(entries)
    ensures HasSource(changed, listed, order, entries, id)
  {
    ListedSameNames(changed, next);
    SourceOfPorts(changed, listed, Claims(changed, next), order, next + |changed|, entries, id);
  }

  lemma ListedSameNames(changed: seq<NetworkConnection>, next: Uuid)
    requires ConvertAll(changed, next).Ok?
    ensures SameNames(changed, ConvertAll(changed, next).value)
  {
    ListedAreConverted(changed, next);
  }

  lemma {:induction false} SourceOfPorts(changed: seq<NetworkConnection>, listed: seq<Connection>,
                                         claims: map<string, Uuid>,
                                         order: seq<string>, base: Uuid, entries: seq<Connection>, id: string)
    requires SameNames(changed, listed) && ListsId(changed, id)
    requires NoRepeats(order) && forall p | p in order :: p in claims
    requires entries == AddPorts(listed, claims, order, base)
    ensures HasSource(changed, listed, order, entries, id)
  {
    AddPortsFacts(listed, claims, order, base);
    SourceIsLast(changed, listed, claims, order, base, PortEntries(listed, claims, order, base), id);
  }

  /** One that is only named as a port is a default connection. */
  lemma PortPlace(conns: seq<Connection>, changed: seq<NetworkConnection>, next: Uuid, order: seq<string>, x: nat)
    requires Mergeable(conns, changed, next, order) && x < |MergedConns(conns, changed, next, order)|
    requires var id := MergedConns(conns, changed, next, order)[x].id; Rewritten(changed, id) && !ListsId(changed, id)
    ensures var merged := MergedConns(conns, changed, next, order);
            merged[x] == NewPort(merged[x].id, merged[x].uuid).(controller := merged[x].controller)
  {
    var merged, entries := MergedConns(conns, changed, next, order), Collect(changed, next, order).value;
    PlaceIs(conns, changed, next, order, x);
    EntryIds(changed, next, order, merged[x].id);
    var e :| e in entries && e.id == merged[x].id;
    var k := LastWith(entries, merged[x].id);
    assert k < |entries| && entries[k] in entries;
    EntryIs(changed, next, order, entries[k]);
  }

  /*** Port names ***/

  /** A known connection with this interface that the change leaves alone. */
  predicate KeepsInterface(conns: seq<Connection>, changed: seq<NetworkConnection>, name: string) {
    exists c | c in conns :: c.interface == Some(name) && !Rewritten(changed, c.id)
  }

  /** The interface that a listed id gets. */
  function InterfaceFor(changed: seq<NetworkConnection>, order: seq<string>, id: string): Option<string> {
    var s := Source(changed, order, id);
    if s < |changed| then changed[s].interface else None
  }

  predicate GetsInterface(changed: seq<NetworkConnection>, order: seq<string>, name: string) {
    exists nc | nc in changed :: InterfaceFor(changed, order, nc.id) == Some(name)
  }

  /** A port name that will stand for something. */
  predicate Stands(conns: seq<Connection>, changed: seq<NetworkConnection>, order: seq<string>, name: string) {
    || HasId(conns, name) || Rewritten(changed, name)
    || KeepsInterface(conns, changed, name) || GetsInterface(changed, order, name)
  }

  lemma AnswerResolves(conns: seq<Connection>, x: nat, name: string)
    requires x < |conns| && AnswersTo(conns[x], name)
    ensures Resolve(conns, name) < |conns|
  {
  }

  lemma StandsForSome(conns: seq<Connection>, changed: seq<NetworkConnection>, next: Uuid, order: seq<string>,
                      name: string)
    requires Mergeable(conns, changed, next, order) && Stands(conns, changed, order, name)
    ensures var merged := MergedConns(conns, changed, next, order); Resolve(merged, name) < |merged|
  {
    var merged := MergedConns(conns, changed, next, order);
    var x: nat;
    if HasId(conns, name) {
      x := KnownStays(conns, changed, next, order, name);
    } else if KeepsInterface(conns, changed, name) {
      x := InterfaceStays(conns, changed, next, order, name);
    } else if nc :| nc in changed && InterfaceFor(changed, order, nc.id) == Some(name) {
      x := ListedIsMerged(conns, changed, next, order, nc.id);
    } else {
      x := RewrittenIsMerged(conns, changed, next, order, name);
    }
    AnswerResolves(merged, x, name);
  }

  lemma KnownStays(conns: seq<Connection>, changed: seq<NetworkConnection>, next: Uuid, order: seq<string>,
                   name: string)
    returns (x: nat)
    requires Mergeable(conns, changed, next, order) && HasId(conns, name)
    ensures var merged := MergedConns(conns, changed, next, order); x < |merged| && merged[x].id == name
  {
    MergeWorks(conns, changed, next, order);
    var c :| c in conns && c.id == name;
    x :| x < |conns| && conns[x] == c;
  }

  lemma InterfaceStays(conns: seq<Connection>, changed: seq<NetworkConnection>, next: Uuid, order: seq<string>,
                       name: string)
    returns (x: nat)
    requires Mergeable(conns, changed, next, order) && KeepsInterface(conns, changed, name)
    ensures var merged := MergedConns(conns, changed, next, order); x < |merged| && merged[x].interface == Some(name)
  {
    MergeWorks(conns, changed, next, order);
    var c :| c in conns && c.interface == Some(name) && !Rewritten(changed, c.id);
    x :| x < |conns| && conns[x] == c;
    KeptPlace(conns, changed, next, order, x);
  }

  lemma RewrittenIsMerged(conns: seq<Connection>, changed: seq<NetworkConnection>, next: Uuid, order: seq<string>,
                          id: string)
    returns (x: nat)
    requires Mergeable(conns, changed, next, order) && Rewritten(changed, id)
    ensures var merged := MergedConns(conns, changed, next, order);
            x < |merged| && x == FindId(merged, id) && merged[x].id == id
  {
    MergeWorks(conns, changed, next, order);
    EntryIds(changed, next, order, id);
    CleanNames(conns, Collect(changed, next, order).value, id);
    x := FindId(MergedConns(conns, changed, next, order), id);
  }

  lemma ListedIsMerged(conns: seq<Connection>, changed: seq<NetworkConnection>, next: Uuid, order: seq<string>,
                       id: string)
    returns (x: nat)
    requires Mergeable(conns, changed, next, order) && ListsId(changed, id)
    ensures var merged := MergedConns(conns, changed, next, order);
            && x < |merged| && x == FindId(merged, id) && merged[x].interface == InterfaceFor(changed, order, id)
            && (IsController(merged[x].config) <==> UpdatePorts(changed[Source(changed, order, id)]).Some?)
  {
    x := RewrittenIsMerged(conns, changed, next, order, id);
    ListedPlace(conns, changed, next, order, x);
    ListedAreConverted(changed, next);
  }

  lemma SomeStands(conns: seq<Connection>, changed: seq<NetworkConnection>, next: Uuid, order: seq<string>,
                   name: string)
    requires Mergeable(conns, changed, next, order)
    requires var merged := MergedConns(conns, changed, next, order); Resolve(merged, name) < |merged|
    ensures Stands(conns, changed, order, name)
  {
    var merged := MergedConns(conns, changed, next, order);
    var x := Resolve(merged, name);
    assert AnswersTo(merged[x], name);
    if !Rewritten(changed, merged[x].id) {
      KeptPlace(conns, changed, next, order, x);
      assert conns[x] in conns;
    } else if ListsId(changed, merged[x].id) {
      var y := ListedIsMerged(conns, changed, next, order, merged[x].id);
      MergeWorks(conns, changed, next, order);
      FindsId(merged, x);
    } else {
      PortPlace(conns, changed, next, order, x);
    }
  }

  /*** Acceptance ***/

  /** If a changed connection is a controller, it stays one and all of its ports will be there. */
  predicate CanAttach(conns: seq<Connection>, changed: seq<NetworkConnection>, order: seq<string>,
                      nc: NetworkConnection)
    requires nc in changed
  {
    UpdatePorts(nc).Some? ==>
      && UpdatePorts(changed[Source(changed, order, nc.id)]).Some?
      && forall p | p in UpdatePorts(nc).value :: Stands(conns, changed, order, p)
  }

  lemma AttachableExactly(conns: seq<Connection>, changed: seq<NetworkConnection>, next: Uuid, order: seq<string>,
                          nc: NetworkConnection)
    requires Mergeable(conns, changed, next, order) && nc in changed
    ensures var merged := MergedConns(conns, changed, next, order);
            FindId(merged, nc.id) < |merged| && (Attachable(merged, nc) <==> CanAttach(conns, changed, order, nc))
  {
    var merged := MergedConns(conns, changed, next, order);
    var x := ListedIsMerged(conns, changed, next, order, nc.id);
    if UpdatePorts(nc).Some? {
      forall p | p in UpdatePorts(nc).value
        ensures Resolve(merged, p) < |merged| <==> Stands(conns, changed, order, p)
      {
        if Stands(conns, changed, order, p) {
          StandsForSome(conns, changed, next, order, p);
        } else if Resolve(merged, p) < |merged| {
          SomeStands(conns, changed, next, order, p);
        }
      }
    }
  }

  /**
   Any convertible change, with whatever ids: it is accepted exactly if no new id is listed twice, each
   of its controllers stays one, and each of their port names will stand for something.
   */
  lemma AcceptedExactly(conns: seq<Connection>, changed: seq<NetworkConnection>, next: Uuid, order: seq<string>)
    requires Distinct(conns) && Below(conns, next)
    requires ConvertAll(changed, next).Ok? && Enumerates(order, Claims(changed, next).Keys)
    ensures Reconcile(conns, changed, next, order).1.None?
            <==> NoNewIdTwice(conns, changed) && forall nc | nc in changed :: CanAttach(conns, changed, order, nc)
  {
    assert Convertible(changed, next, order);
    MergesUnlessRepeated(conns, changed, next, order);
    if NoNewIdTwice(conns, changed) {
      var merged := MergedConns(conns, changed, next, order);
      MergeWorks(conns, changed, next, order);
      forall nc | nc in changed
        ensures FindId(merged, nc.id) < |merged| && (Attachable(merged, nc) <==> CanAttach(conns, changed, order, nc))
      {
        AttachableExactly(conns, changed, next, order, nc);
      }
      SetAllPortsSucceeds(merged, changed);
    }
  }
}
