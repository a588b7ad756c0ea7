/** From a changed configuration to the connections it asks for, step by step. */
module NetworkReconciliation {
  import opened Sequences
  import opened Text
  import opened Network
  import opened NetworkTheorems

  /*** The collection of entries ***/

  lemma {:induction false} FirstAnsweringFacts(conns: seq<Connection>, port: string)
    ensures var c := FirstAnswering(conns, port);
            && (c.Some? ==> c.value in conns && AnswersTo(c.value, port))
            && (c.None? ==> forall d | d in conns :: !AnswersTo(d, port))
  {
    if conns != [] {
      FirstAnsweringFacts(conns[1..], port);
    }
  }

  lemma {:induction false} FirstAnsweringAppend(a: seq<Connection>, b: seq<Connection>, port: string)
    ensures FirstAnswering(a + b, port)
         == if FirstAnswering(a, port).Some? then FirstAnswering(a, port) else FirstAnswering(b, port)
  {
    if a == [] {
      assert a + b == b;
    } else {
      assert (a + b)[1..] == a[1..] + b;
      FirstAnsweringAppend(a[1..], b, port);
    }
  }

  lemma EnumeratesKeys(order: seq<string>, claims: map<string, Uuid>)
    requires Enumerates(order, claims.Keys)
    ensures NoRepeats(order) && (forall p | p in order :: p in claims) && (forall p | p in claims :: p in order)
  {
  }

  /** The entries for the ports, each made from the listed connections only. */
  function PortEntries(listed: seq<Connection>, claims: map<string, Uuid>, order: seq<string>,
                       base: Uuid): (r: seq<Connection>)
    requires forall p | p in order :: p in claims
    ensures |r| == |order|
    ensures forall j | 0 <= j < |r| :: r[j] == PortEntry(listed, order[j], claims[order[j]], base + j)
  {
    seq(|order|, j requires 0 <= j < |order| => PortEntry(listed, order[j], claims[order[j]], base + j))
  }

  /** An entry for one port does not answer to another that no listed connection answers to. */
  lemma EntryAnswers(listed: seq<Connection>, port: string, controller: Uuid, spare: Uuid, other: string)
    requires port != other && FirstAnswering(listed, other).None?
    ensures !AnswersTo(PortEntry(listed, port, controller, spare), other)
  {
    FirstAnsweringFacts(listed, port);
    FirstAnsweringFacts(listed, other);
  }

  /** The entries for other ports do not answer to a port that no listed connection answers to. */
  lemma NothingAppendedAnswers(listed: seq<Connection>, claims: map<string, Uuid>, order: seq<string>, base: Uuid,
                               port: string)
    requires (forall p | p in order :: p in claims) && port !in order && FirstAnswering(listed, port).None?
    ensures FirstAnswering(PortEntries(listed, claims, order, base), port).None?
  {
    var done := PortEntries(listed, claims, order, base);
    FirstAnsweringFacts(done, port);
    if FirstAnswering(done, port).Some? {
      var j: nat :| j < |done| && done[j] == FirstAnswering(done, port).value;
      EntryAnswers(listed, order[j], claims[order[j]], base + j, port);
    }
  }

  /** Entries that were appended before never change what is found for the next port. */
  lemma NextPortEntry(listed: seq<Connection>, claims: map<string, Uuid>, order: seq<string>, base: Uuid,
                      port: string, controller: Uuid, spare: Uuid)
    requires (forall p | p in order :: p in claims) && port !in order
    ensures PortEntry(listed + PortEntries(listed, claims, order, base), port, controller, spare)
         == PortEntry(listed, port, controller, spare)
  {
    FirstAnsweringAppend(listed, PortEntries(listed, claims, order, base), port);
    if FirstAnswering(listed, port).None? {
      NothingAppendedAnswers(listed, claims, order, base, port);
    }
  }

  lemma PortEntriesStep(listed: seq<Connection>, claims: map<string, Uuid>, order: seq<string>, base: Uuid)
    requires order != [] && forall p | p in order :: p in claims
    ensures var last := |order| - 1;
            PortEntries(listed, claims, order, base)
            == PortEntries(listed, claims, order[..last], base)
               + [PortEntry(listed, order[last], claims[order[last]], base + last)]
  {
  }

  /** So the entries are made from the listed connections only. */
  lemma {:induction false} AddPortsFacts(listed: seq<Connection>, claims: map<string, Uuid>, order: seq<string>,
                                         base: Uuid)
    requires NoRepeats(order) && forall p | p in order :: p in claims
    ensures AddPorts(listed, claims, order, base) == listed + PortEntries(listed, claims, order, base)
  {
    if order != [] {
      var last := |order| - 1;
      var front, port := order[..last], order[last];
      var done, e := PortEntries(listed, claims, front, base), PortEntry(listed, port, claims[port], base + last);
      AddPortsFacts(listed, claims, front, base);
      NextPortEntry(listed, claims, front, base, port, claims[port], base + last);
      PortEntriesStep(listed, claims, order, base);
      assert listed + done + [e] == listed + (done + [e]);
    }
  }

  /** A list that can be converted, and an order in which its ports are taken out of the hash table. */
  ghost predicate Convertible(list: seq<NetworkConnection>, next: Uuid, order: seq<string>) {
    NoRepeats(order) && (forall p | p in order :: p in Claims(list, next)) && ConvertAll(list, next).Ok?
  }

  lemma {:induction false} ConvertAllFacts(list: seq<NetworkConnection>, next: Uuid)
    requires ConvertAll(list, next).Ok?
    ensures var r := ConvertAll(list, next).value;
            && |r| == |list|
            && forall i: nat | i < |list| :: Convert(list[i], next + i) == Ok(r[i])
  {
    if list != [] {
      ConvertAllFacts(list[..|list| - 1], next);
    }
  }

  /** An entry is a listed connection, but for the controller. */
  predicate IsListed(listed: seq<Connection>, e: Connection, i: nat) {
    i < |listed| && e == listed[i].(controller := e.controller)
  }

  /** An entry is a new port for a name that no listed connection answers to. */
  predicate IsNewPort(listed: seq<Connection>, order: seq<string>, base: Uuid, e: Connection, j: nat) {
    && j < |order| && e == NewPort(order[j], base + j).(controller := e.controller)
    && forall c | c in listed :: !AnswersTo(c, order[j])
  }

  ghost predicate EntriesOk(listed: seq<Connection>, order: seq<string>, base: Uuid, entries: seq<Connection>) {
    forall e | e in entries :: EntryOk(listed, order, base, e)
  }

  ghost predicate EntryOk(listed: seq<Connection>, order: seq<string>, base: Uuid, e: Connection) {
    (exists i: nat :: IsListed(listed, e, i)) || (exists j: nat :: IsNewPort(listed, order, base, e, j))
  }

  lemma PortEntryOk(listed: seq<Connection>, claims: map<string, Uuid>, order: seq<string>, base: Uuid, j: nat)
    requires j < |order| && order[j] in claims
    ensures var e := PortEntry(listed, order[j], claims[order[j]], base + j);
            AnswersTo(e, order[j]) && EntryOk(listed, order, base, e)
  {
    FirstAnsweringFacts(listed, order[j]);
    var e := PortEntry(listed, order[j], claims[order[j]], base + j);
    if FirstAnswering(listed, order[j]).Some? {
      var i :| 0 <= i < |listed| && listed[i] == FirstAnswering(listed, order[j]).value;
      assert IsListed(listed, e, i);
    } else {
      assert IsNewPort(listed, order, base, e, j);
    }
  }

  /** Every entry is a listed connection or a new port ... */
  lemma AddedEntriesOk(listed: seq<Connection>, claims: map<string, Uuid>, order: seq<string>, base: Uuid)
    requires NoRepeats(order) && forall p | p in order :: p in claims
    ensures EntriesOk(listed, order, base, AddPorts(listed, claims, order, base))
  {
    AddPortsFacts(listed, claims, order, base);
    var added := PortEntries(listed, claims, order, base);
    forall e | e in listed + added ensures EntryOk(listed, order, base, e) {
      if k :| 0 <= k < |listed| && listed[k] == e {
        assert IsListed(listed, e, k);
      } else {
        var j :| 0 <= j < |added| && added[j] == e;
        PortEntryOk(listed, claims, order, base, j);
      }
    }
  }

  /** ... every listed connection has one ... */
  lemma ListedAreEntries(listed: seq<Connection>, claims: map<string, Uuid>, order: seq<string>, base: Uuid)
    requires NoRepeats(order) && forall p | p in order :: p in claims
    ensures forall c | c in listed :: c in AddPorts(listed, claims, order, base)
  {
    AddPortsFacts(listed, claims, order, base);
  }

  /** ... and so has every claimed port. */
  lemma ClaimedHaveEntries(listed: seq<Connection>, claims: map<string, Uuid>, order: seq<string>, base: Uuid)
    requires NoRepeats(order) && forall p | p in order :: p in claims
    ensures var entries := AddPorts(listed, claims, order, base);
            forall p | p in order :: exists e | e in entries :: AnswersTo(e, p)
  {
    AddPortsFacts(listed, claims, order, base);
    var added := PortEntries(listed, claims, order, base);
    forall p | p in order ensures exists e | e in listed + added :: AnswersTo(e, p) {
      var j :| 0 <= j < |order| && order[j] == p;
      PortEntryOk(listed, claims, order, base, j);
      assert added[j] in listed + added;
    }
  }

  /** A new port has another id than every listed connection. */
  lemma OtherId(listed: seq<Connection>, order: seq<string>, base: Uuid, e: Connection, f: Connection, a: nat, b: nat)
    requires IsListed(listed, e, a) && IsNewPort(listed, order, base, f, b)
    ensures e.id != f.id
  {
    assert listed[a] in listed && !AnswersTo(listed[a], order[b]);
  }

  /*** Merging ***/

  predicate HasId(conns: seq<Connection>, id: string) {
    exists c | c in conns :: c.id == id
  }

  predicate HasUuid(conns: seq<Connection>, uuid: Uuid) {
    exists c | c in conns :: c.uuid == uuid
  }

  /** Known connections keep place, id and uuid. */
  predicate Extends(conns: seq<Connection>, after: seq<Connection>) {
    && |conns| <= |after|
    && forall i | 0 <= i < |conns| :: after[i].id == conns[i].id && after[i].uuid == conns[i].uuid
  }

  /** The place of the last entry with this id, or the length. */
  function LastWith(entries: seq<Connection>, id: string): (n: nat)
    ensures n <= |entries| && (n < |entries| ==> entries[n].id == id)
    ensures forall i | 0 <= i < |entries| && (n < i || n == |entries|) :: entries[i].id != id
  {
    if entries == [] then 0
    else
      var last := |entries| - 1;
      var n := LastWith(entries[..last], id);
      if entries[last].id == id then last else if n == last then |entries| else n
  }

  lemma LastWithCons(e: Connection, rest: seq<Connection>, id: string)
    ensures LastWith([e] + rest, id)
         == if LastWith(rest, id) < |rest| then 1 + LastWith(rest, id) else if e.id == id then 0 else 1 + |rest|
  {
    var all := [e] + rest;
    assert forall i | 0 <= i < |rest| :: all[i + 1] == rest[i];
    var n := LastWith(rest, id);
    assert n < |rest| ==> all[n + 1].id == id;
    assert all[0] == e;
  }

  /** What is at one place after merging: the last entry with this id if there is one, else what was there. */
  predicate MergedAt(conns: seq<Connection>, entries: seq<Connection>, after: seq<Connection>, i: nat)
    requires i < |after|
  {
    var n := LastWith(entries, after[i].id);
    if n < |entries| then after[i] == entries[n] else i < |conns| && after[i] == conns[i]
  }

  /** What merging does: known connections keep place, id and uuid; all ids of entries are there at the end. */
  ghost predicate Merged(conns: seq<Connection>, entries: seq<Connection>, after: seq<Connection>) {
    && Distinct(after) && Extends(conns, after)
    && (forall i: nat | i < |after| :: MergedAt(conns, entries, after, i))
    && (forall e | e in entries :: FindId(after, e.id) < |after|)
  }

  lemma HasIdCons(e: Connection, rest: seq<Connection>, id: string)
    ensures HasId([e] + rest, id) <==> e.id == id || HasId(rest, id)
  {
    assert forall f :: f in [e] + rest <==> f == e || f in rest;
    assert e in [e] + rest;
  }

  lemma MergedTwiceAt(conns: seq<Connection>, e: Connection, rest: seq<Connection>, mid: seq<Connection>,
                      after: seq<Connection>, i: nat)
    requires Merged(conns, [e], mid) && Merged(mid, rest, after) && i < |after|
    ensures MergedAt(conns, [e] + rest, after, i)
  {
    LastWithCons(e, rest, after[i].id);
    assert MergedAt(mid, rest, after, i);
    if LastWith(rest, after[i].id) == |rest| {
      assert MergedAt(conns, [e], mid, i);
    }
  }

  lemma MergedTwice(conns: seq<Connection>, e: Connection, rest: seq<Connection>, mid: seq<Connection>,
                    after: seq<Connection>)
    requires Merged(conns, [e], mid) && Merged(mid, rest, after)
    ensures Merged(conns, [e] + rest, after)
  {
    forall i: nat | i < |after| ensures MergedAt(conns, [e] + rest, after, i) {
      MergedTwiceAt(conns, e, rest, mid, after, i);
    }
    assert e in [e];
    var n := FindId(mid, e.id);
    FindsId(after, n);
  }
}
