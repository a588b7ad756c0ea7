/** What the entries of a change are, in terms of the changed configuration. */
module NetworkEntries {
  import opened Events
  import opened Network
  import opened NetworkReconciliation

  lemma {:induction false} PortsAreClaimed(list: seq<NetworkConnection>, next: Uuid, nc: NetworkConnection, p: string)
    requires nc in list && p in PortsOf(nc)
    ensures p in Claims(list, next)
  {
    var last := |list| - 1;
    ClaimedPort(Claims(list[..last], next), PortsOf(list[last]), next + last, p);
    if nc != list[last] {
      assert nc in list[..last];
      PortsAreClaimed(list[..last], next, nc, p);
    }
  }

  lemma {:induction false} ClaimedAreNamed(list: seq<NetworkConnection>, next: Uuid, p: string)
    requires p in Claims(list, next)
    ensures exists nc | nc in list :: p in PortsOf(nc)
  {
    var last := |list| - 1;
    ClaimedPort(Claims(list[..last], next), PortsOf(list[last]), next + last, p);
    if p in PortsOf(list[last]) {
      assert list[last] in list;
    } else {
      ClaimedAreNamed(list[..last], next, p);
    }
  }

  lemma ListedAreConverted(list: seq<NetworkConnection>, next: Uuid)
    requires ConvertAll(list, next).Ok?
    ensures var listed := ConvertAll(list, next).value;
            |listed| == |list|
            && forall i: nat | i < |list| ::
                 && listed[i].id == list[i].id && listed[i].interface == list[i].interface && listed[i].uuid == next + i
                 && (UpdatePorts(list[i]).Some? <==> IsController(listed[i].config))
  {
    var listed := ConvertAll(list, next).value;
    ConvertAllFacts(list, next);
    forall i: nat | i < |list|
      ensures listed[i].id == list[i].id && listed[i].interface == list[i].interface && listed[i].uuid == next + i
      ensures UpdatePorts(list[i]).Some? <==> IsController(listed[i].config)
    {
      assert Convert(list[i], next + i) == Ok(listed[i]);
    }
  }

  /*** Names ***/

  predicate Answers(nc: NetworkConnection, p: string) {
    nc.id == p || nc.interface == Some(p)
  }

  /** The place of the first listed connection that answers to the name. */
  function FirstListed(list: seq<NetworkConnection>, p: string): (n: nat)
    ensures n <= |list| && (forall i | 0 <= i < n :: !Answers(list[i], p)) && (n < |list| ==> Answers(list[n], p))
  {
    if list == [] || Answers(list[0], p) then 0 else 1 + FirstListed(list[1..], p)
  }

  lemma {:induction false} FirstAnsweringAt(conns: seq<Connection>, p: string, n: nat)
    requires n <= |conns| && (n < |conns| ==> AnswersTo(conns[n], p))
    requires forall i | 0 <= i < n :: !AnswersTo(conns[i], p)
    ensures FirstAnswering(conns, p) == if n < |conns| then Some(conns[n]) else None
  {
    if n > 0 {
      FirstAnsweringAt(conns[1..], p, n - 1);
    }
  }

  predicate ListsName(changed: seq<NetworkConnection>, name: string) {
    exists nc | nc in changed :: nc.id == name || nc.interface == Some(name)
  }

  /** The change has an entry with this id: a listed connection, or a port that no listed one answers to. */
  predicate Rewritten(changed: seq<NetworkConnection>, id: string) {
    || (exists nc | nc in changed :: nc.id == id)
    || (!ListsName(changed, id) && exists nc | nc in changed :: id in PortsOf(nc))
  }

  lemma ListedName(changed: seq<NetworkConnection>, next: Uuid, i: nat, name: string)
    requires i < |changed| && ConvertAll(changed, next).Ok?
    ensures |ConvertAll(changed, next).value| == |changed|
    ensures AnswersTo(ConvertAll(changed, next).value[i], name)
            <==> changed[i].id == name || changed[i].interface == Some(name)
  {
    ConvertAllFacts(changed, next);
    assert Convert(changed[i], next + i) == Ok(ConvertAll(changed, next).value[i]);
  }

  lemma ListedNames(changed: seq<NetworkConnection>, next: Uuid, name: string)
    requires ConvertAll(changed, next).Ok?
    ensures ListsName(changed, name) <==> exists c | c in ConvertAll(changed, next).value :: AnswersTo(c, name)
  {
    var listed := ConvertAll(changed, next).value;
    ConvertAllFacts(changed, next);
    forall i: nat | i < |changed|
      ensures AnswersTo(listed[i], name) <==> changed[i].id == name || changed[i].interface == Some(name)
    {
      ListedName(changed, next, i, name);
    }
  }

  /*** The entries of a change ***/

  function Entries(conns: seq<Connection>, changed: seq<NetworkConnection>, next: Uuid,
                   order: seq<string>): seq<Connection>
    requires ConvertAll(changed, next).Ok? && forall p | p in order :: p in Claims(changed, next)
  {
    Sanitize(conns, Collect(changed, next, order).value)
  }

  function MergedConns(conns: seq<Connection>, changed: seq<NetworkConnection>, next: Uuid,
                       order: seq<string>): seq<Connection>
    requires ConvertAll(changed, next).Ok? && forall p | p in order :: p in Claims(changed, next)
  {
    Merge(conns, Entries(conns, changed, next, order)).0
  }

  /** What an entry is. */
  lemma EntryIsFrom(changed: seq<NetworkConnection>, next: Uuid, order: seq<string>,
                    listed: seq<Connection>, base: Uuid, e: Connection)
    requires ConvertAll(changed, next) == Ok(listed) && (forall p | p in order :: p in Claims(changed, next))
    requires EntryOk(listed, order, base, e)
    ensures Rewritten(changed, e.id)
    ensures e.interface.Some? ==> ListsName(changed, e.interface.value)
    ensures !ListsName(changed, e.id) ==> e == NewPort(e.id, e.uuid).(controller := e.controller)
  {
    ListedAreConverted(changed, next);
    if i: nat :| IsListed(listed, e, i) {
      assert changed[i] in changed;
    } else {
      var j: nat :| IsNewPort(listed, order, base, e, j);
      assert order[j] in order;
      ClaimedAreNamed(changed, next, order[j]);
      ListedNames(changed, next, order[j]);
    }
  }

  lemma CollectedIsOk(changed: seq<NetworkConnection>, next: Uuid, order: seq<string>)
    requires Convertible(changed, next, order)
    ensures EntriesOk(ConvertAll(changed, next).value, order, next + |changed|, Collect(changed, next, order).value)
  {
    AddedEntriesOk(ConvertAll(changed, next).value, Claims(changed, next), order, next + |changed|);
  }

  lemma EntryIs(changed: seq<NetworkConnection>, next: Uuid, order: seq<string>, e: Connection)
    requires Convertible(changed, next, order) && e in Collect(changed, next, order).value
    ensures Rewritten(changed, e.id)
    ensures e.interface.Some? ==> ListsName(changed, e.interface.value)
    ensures !ListsName(changed, e.id) ==> e == NewPort(e.id, e.uuid).(controller := e.controller)
  {
    CollectedIsOk(changed, next, order);
    EntryIsFrom(changed, next, order, ConvertAll(changed, next).value, next + |changed|, e);
  }

  /** Each changed connection has an entry ... */
  lemma ListedEntry(changed: seq<NetworkConnection>, next: Uuid, order: seq<string>, i: nat) returns (e: Connection)
    requires Convertible(changed, next, order) && i < |changed|
    ensures e in Collect(changed, next, order).value
    ensures e.id == changed[i].id && e.interface == changed[i].interface && e.uuid == next + i
    ensures UpdatePorts(changed[i]).Some? ==> IsController(e.config)
  {
    ListedAreConverted(changed, next);
    e := ConvertAll(changed, next).value[i];
    ListedAreEntries(ConvertAll(changed, next).value, Claims(changed, next), order, next + |changed|);
  }

  /** ... and so has each of its ports. */
  lemma PortHasEntry(changed: seq<NetworkConnection>, next: Uuid, order: seq<string>, nc: NetworkConnection, p: string)
    returns (e: Connection)
    requires Convertible(changed, next, order) && (forall q | q in Claims(changed, next) :: q in order)
    requires nc in changed && p in PortsOf(nc)
    ensures e in Collect(changed, next, order).value && AnswersTo(e, p)
  {
    PortsAreClaimed(changed, next, nc, p);
    ClaimedHaveEntries(ConvertAll(changed, next).value, Claims(changed, next), order, next + |changed|);
    e :| e in Collect(changed, next, order).value && AnswersTo(e, p);
  }

  /** The ids of the entries are exactly those that the change rewrites. */
  lemma EntryIds(changed: seq<NetworkConnection>, next: Uuid, order: seq<string>, id: string)
    requires Convertible(changed, next, order) && (forall q | q in Claims(changed, next) :: q in order)
    ensures HasId(Collect(changed, next, order).value, id) <==> Rewritten(changed, id)
  {
    if HasId(Collect(changed, next, order).value, id) {
      var e :| e in Collect(changed, next, order).value && e.id == id;
      EntryIs(changed, next, order, e);
    } else if nc :| nc in changed && nc.id == id {
      var i: nat :| i < |changed| && changed[i] == nc;
      var e := ListedEntry(changed, next, order, i);
    } else if Rewritten(changed, id) {
      var nc :| nc in changed && id in PortsOf(nc);
      var e := PortHasEntry(changed, next, order, nc, id);
      EntryIs(changed, next, order, e);
    }
  }

  lemma CleanIs(conns: seq<Connection>, entries: seq<Connection>, c: Connection) returns (e: Connection)
    requires c in Sanitize(conns, entries)
    ensures e in entries && c == e.(uuid := c.uuid, controller := c.controller)
  {
    var clean := Sanitize(conns, entries);
    var k: nat :| k < |clean| && clean[k] == c;
    e := entries[k];
  }

  /** Cleaning keeps the ids of the entries. */
  lemma CleanNames(conns: seq<Connection>, entries: seq<Connection>, id: string)
    ensures HasId(Sanitize(conns, entries), id) <==> HasId(entries, id)
  {
    var clean := Sanitize(conns, entries);
    if c :| c in clean && c.id == id {
      var e := CleanIs(conns, entries, c);
    }
    if e :| e in entries && e.id == id {
      var k: nat :| k < |entries| && entries[k] == e;
      assert clean[k] in clean;
    }
  }
}
