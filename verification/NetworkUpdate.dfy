/** The main results about updating the network state. */
module NetworkUpdate {
  import opened Events
  import opened Text
  import opened Network
  import opened NetworkTheorems
  import opened NetworkReconciliation
  import opened NetworkEntries
  import opened NetworkInvariant
  import opened NetworkRepeats
  import opened NetworkAcceptance

  /** A changed configuration that can be converted, with one entry per id. */
  ghost predicate Acceptable(conns: seq<Connection>, changed: seq<NetworkConnection>, next: Uuid, order: seq<string>) {
    && Distinct(conns) && Below(conns, next)
    && DistinctIds(changed) && ConvertAll(changed, next).Ok?
    && Enumerates(order, Claims(changed, next).Keys)
  }

  /** A port name that will stand for something, as far as the state and the change tell. */
  predicate Provided(conns: seq<Connection>, changed: seq<NetworkConnection>, name: string) {
    || HasId(conns, name)
    || KeepsInterface(conns, changed, name)
    || ListsName(changed, name)
    || exists nc | nc in changed :: name in PortsOf(nc)
  }

  predicate PortsProvided(conns: seq<Connection>, changed: seq<NetworkConnection>) {
    forall nc | nc in changed && UpdatePorts(nc).Some? ::
      forall p | p in UpdatePorts(nc).value :: Provided(conns, changed, p)
  }

  /** The ports of a connection that is not both a bond and a bridge always are. */
  lemma OneKindProvided(conns: seq<Connection>, changed: seq<NetworkConnection>)
    requires forall nc | nc in changed :: !(nc.bond.Some? && nc.bridge.Some?)
    ensures PortsProvided(conns, changed)
  {
  }

  /**
   A convertible change with distinct ids is accepted exactly if every port name of its controllers
   will stand for something. Otherwise a connection is both a bond and a bridge: the ports of the bond
   are collected, those of the bridge are set.
   */
  lemma SucceedsIfProvided(conns: seq<Connection>, changed: seq<NetworkConnection>, next: Uuid, order: seq<string>)
    requires Acceptable(conns, changed, next, order)
    ensures Reconcile(conns, changed, next, order).1.None? <==> PortsProvided(conns, changed)
  {
    AcceptedExactly(conns, changed, next, order);
    forall nc | nc in changed
      ensures CanAttach(conns, changed, order, nc)
              <==> (UpdatePorts(nc).Some? ==> forall p | p in UpdatePorts(nc).value :: Provided(conns, changed, p))
    {
      ProvidedAttaches(conns, changed, order, nc);
    }
  }

  lemma ProvidedStands(conns: seq<Connection>, changed: seq<NetworkConnection>, order: seq<string>, name: string)
    requires DistinctIds(changed)
    ensures Provided(conns, changed, name) <==> Stands(conns, changed, order, name)
  {
    forall nc | nc in changed ensures InterfaceFor(changed, order, nc.id) == nc.interface {
      var i: nat :| i < |changed| && changed[i] == nc;
      SourceIsOnly(changed, order, i);
    }
  }

  lemma ProvidedAttaches(conns: seq<Connection>, changed: seq<NetworkConnection>, order: seq<string>,
                         nc: NetworkConnection)
    requires DistinctIds(changed) && nc in changed
    ensures CanAttach(conns, changed, order, nc)
            <==> (UpdatePorts(nc).Some? ==> forall p | p in UpdatePorts(nc).value :: Provided(conns, changed, p))
  {
    var i: nat :| i < |changed| && changed[i] == nc;
    SourceIsOnly(changed, order, i);
    forall p ensures Provided(conns, changed, p) <==> Stands(conns, changed, order, p) {
      ProvidedStands(conns, changed, order, p);
    }
  }

  /** What reconciliation does on top of merging. */
  ghost predicate Settled(merged: seq<Connection>, after: seq<Connection>, changed: seq<NetworkConnection>) {
    && SamePlaces(merged, after)
    && (forall i: nat, x: nat | i < |changed| && x < |merged| :: HasItsPorts(merged, after, changed, |changed|, i, x))
    && (forall x: nat | x < |merged| :: UntouchedOrOrphan(merged, after, changed, |changed|, x))
  }

  lemma ReconcileOutcome(conns: seq<Connection>, changed: seq<NetworkConnection>, next: Uuid, order: seq<string>)
    requires Acceptable(conns, changed, next, order) && PortsProvided(conns, changed)
    ensures Reconcile(conns, changed, next, order).1.None?
    ensures Settled(MergedConns(conns, changed, next, order), Reconcile(conns, changed, next, order).0, changed)
  {
    var merged := MergedConns(conns, changed, next, order);
    assert Merge(conns, Entries(conns, changed, next, order)).1.None? && Distinct(merged) by {
      MergeWorks(conns, changed, next, order);
    }
    forall nc | nc in changed ensures Attachable(merged, nc) {
      AttachableExactly(conns, changed, next, order, nc);
      ProvidedAttaches(conns, changed, order, nc);
    }
    SetAllPortsExact(merged, changed, |changed|);
    assert changed[..|changed|] == changed;
    assert Reconcile(conns, changed, next, order) == SetAllPorts(merged, changed);
  }

  lemma SettledPorts(merged: seq<Connection>, after: seq<Connection>, changed: seq<NetworkConnection>, i: nat, x: nat)
    requires Settled(merged, after, changed) && i < |changed| && x < |after|
    ensures HasItsPorts(after, after, changed, |changed|, i, x)
  {
    assert HasItsPorts(merged, after, changed, |changed|, i, x);
    forall j | 0 <= j < |changed| ensures Claimer(after, changed[j], x) <==> Claimer(merged, changed[j], x) {
    }
    FindIdAgrees(merged, after, changed[i].id);
  }

  /**
   Reconciliation succeeds for every order of the hash table. It keeps ids and uuids unique and known
   connections in their places, and it leaves each changed controller controlling exactly the
   connections that its port names stand for and that no later changed controller names.
   */
  lemma Reconciles(conns: seq<Connection>, changed: seq<NetworkConnection>, next: Uuid, order: seq<string>)
    requires Acceptable(conns, changed, next, order) && PortsProvided(conns, changed)
    ensures var (after, error) := Reconcile(conns, changed, next, order);
            && error.None? && Distinct(after) && |conns| <= |after|
            && (forall i | 0 <= i < |conns| :: after[i].id == conns[i].id && after[i].uuid == conns[i].uuid)
            && (forall nc | nc in changed :: FindId(after, nc.id) < |after|)
            && (forall i: nat, x: nat | i < |changed| && x < |after| ::
                  HasItsPorts(after, after, changed, |changed|, i, x))
  {
    var after, merged := Reconcile(conns, changed, next, order).0, MergedConns(conns, changed, next, order);
    assert Merged(conns, Entries(conns, changed, next, order), merged) by {
      MergeWorks(conns, changed, next, order);
    }
    ReconcileOutcome(conns, changed, next, order);
    forall nc | nc in changed ensures FindId(after, nc.id) < |after| {
      AttachableExactly(conns, changed, next, order, nc);
      FindIdAgrees(merged, after, nc.id);
    }
    forall i: nat, x: nat | i < |changed| && x < |after| ensures HasItsPorts(after, after, changed, |changed|, i, x) {
      SettledPorts(merged, after, changed, i, x);
    }
  }

  /** Both names belong to one connection, changed or left alone. */
  predicate MeanOne(conns: seq<Connection>, changed: seq<NetworkConnection>, p: string, q: string) {
    || p == q
    || (exists nc | nc in changed :: Answers(nc, p) && Answers(nc, q))
    || (exists c | c in conns :: AnswersTo(c, p) && AnswersTo(c, q) && !Rewritten(changed, c.id))
  }

  /** No two changed controllers name the same connection. */
  predicate NamedApart(conns: seq<Connection>, changed: seq<NetworkConnection>) {
    forall i, j | 0 <= i < j < |changed| && UpdatePorts(changed[i]).Some? && UpdatePorts(changed[j]).Some? ::
      forall p, q | p in UpdatePorts(changed[i]).value && q in UpdatePorts(changed[j]).value ::
        !MeanOne(conns, changed, p, q)
  }

  lemma TwoListedNames(conns: seq<Connection>, changed: seq<NetworkConnection>, next: Uuid, order: seq<string>,
                       x: nat, p: string, q: string)
    requires Acceptable(conns, changed, next, order)
    requires var merged := MergedConns(conns, changed, next, order);
             && x < |merged| && AnswersTo(merged[x], p) && AnswersTo(merged[x], q)
             && Rewritten(changed, merged[x].id) && ListsId(changed, merged[x].id)
    ensures MeanOne(conns, changed, p, q)
  {
    ListedPlace(conns, changed, next, order, x);
    ListedSameNames(changed, next);
    assert changed[Source(changed, order, MergedConns(conns, changed, next, order)[x].id)] in changed;
  }

  lemma TwoNames(conns: seq<Connection>, changed: seq<NetworkConnection>, next: Uuid, order: seq<string>,
                 x: nat, p: string, q: string)
    requires Acceptable(conns, changed, next, order)
    requires var merged := MergedConns(conns, changed, next, order);
             x < |merged| && AnswersTo(merged[x], p) && AnswersTo(merged[x], q)
    ensures MeanOne(conns, changed, p, q)
  {
    var merged := MergedConns(conns, changed, next, order);
    if !Rewritten(changed, merged[x].id) {
      KeptPlace(conns, changed, next, order, x);
      assert conns[x] in conns;
    } else if ListsId(changed, merged[x].id) {
      TwoListedNames(conns, changed, next, order, x, p, q);
    } else {
      PortPlace(conns, changed, next, order, x);
    }
  }

  lemma ClaimedOnce(conns: seq<Connection>, changed: seq<NetworkConnection>, next: Uuid, order: seq<string>,
                    after: seq<Connection>, x: nat, j: nat, k: nat)
    requires Acceptable(conns, changed, next, order) && NamedApart(conns, changed) && j < k < |changed|
    requires SamePlaces(MergedConns(conns, changed, next, order), after) && x < |after|
    ensures !(Claimer(after, changed[j], x) && Claimer(after, changed[k], x))
  {
    if Claimer(after, changed[j], x) && Claimer(after, changed[k], x) {
      var p :| p in UpdatePorts(changed[j]).value && Resolve(after, p) == x;
      var q :| q in UpdatePorts(changed[k]).value && Resolve(after, q) == x;
      ResolvedAnswers(MergedConns(conns, changed, next, order), p);
      ResolvedAnswers(MergedConns(conns, changed, next, order), q);
      TwoNames(conns, changed, next, order, x, p, q);
    }
  }

  lemma ResolvedAnswers(conns: seq<Connection>, name: string)
    ensures Resolve(conns, name) < |conns| ==> AnswersTo(conns[Resolve(conns, name)], name)
  {
  }

  /** If no two changed controllers name the same connection, each has exactly its own ports. */
  lemma DisjointPorts(conns: seq<Connection>, changed: seq<NetworkConnection>, next: Uuid, order: seq<string>,
                      i: nat, x: nat)
    requires Acceptable(conns, changed, next, order) && PortsProvided(conns, changed) && NamedApart(conns, changed)
    requires i < |changed| && UpdatePorts(changed[i]).Some? && x < |Reconcile(conns, changed, next, order).0|
    ensures var after := Reconcile(conns, changed, next, order).0;
            FindId(after, changed[i].id) < |after|
            && (after[x].controller == Some(after[FindId(after, changed[i].id)].uuid)
                <==> exists p | p in UpdatePorts(changed[i]).value :: Resolve(after, p) == x)
  {
    var after := Reconcile(conns, changed, next, order).0;
    ReconcileOutcome(conns, changed, next, order);
    Reconciles(conns, changed, next, order);
    forall j | i < j < |changed| ensures Claimer(after, changed[i], x) ==> !Claimer(after, changed[j], x) {
      ClaimedOnce(conns, changed, next, order, after, x, i, j);
    }
    assert changed[i] in changed && HasItsPorts(after, after, changed, |changed|, i, x);
  }

  /*** Inputs ***/

  function Plain(id: string): NetworkConnection {
    NetworkConnection(id, None, None, None, None, None, None, None,
                      Links.ProfileSettings(None, None, None, None, None, None, map[]))
  }

  lemma ConvertNext(list: seq<NetworkConnection>, nc: NetworkConnection, conns: seq<Connection>, c: Connection,
                    next: Uuid)
    requires ConvertAll(list, next) == Ok(conns) && Convert(nc, next + |list|) == Ok(c)
    ensures ConvertAll(list + [nc], next) == Ok(conns + [c])
  {
    assert (list + [nc])[..|list|] == list;
  }

  /** The second entry with a new id cannot be updated: the first one was added under another uuid. */
  lemma RepeatedIdIsHalfDone(id: string, next: Uuid)
    ensures var changed := [Plain(id), Plain(id)];
            Reconcile([], changed, next, []) == ([NewPort(id, next)], Some(UnknownUuid(next + 1)))
  {
    var a, b := NewPort(id, next), NewPort(id, next + 1);
    PlainTwice(id, next);
    assert Sanitize([], [a, b]) == [a, b];
    MergeTwice(a, b);
  }

  lemma PlainTwice(id: string, next: Uuid)
    ensures Collect([Plain(id), Plain(id)], next, []) == Ok([NewPort(id, next), NewPort(id, next + 1)])
  {
    var a, b := NewPort(id, next), NewPort(id, next + 1);
    ConvertNext([], Plain(id), [], a, next);
    assert [] + [Plain(id)] == [Plain(id)] && [] + [a] == [a];
    ConvertNext([Plain(id)], Plain(id), [a], b, next);
    assert [Plain(id)] + [Plain(id)] == [Plain(id), Plain(id)] && [a] + [b] == [a, b];
  }

  lemma MergeTwice(a: Connection, b: Connection)
    requires a.id == b.id && a.uuid != b.uuid
    ensures Merge([], [a, b]) == ([a], Some(UnknownUuid(b.uuid)))
  {
    assert [a, b][1..] == [b];
    assert [] + [a] == [a] && MergeOne([], a) == ([a], None);
    assert MergeOne([a], b) == ([a], Some(UnknownUuid(b.uuid)));
    assert Merge([], [a, b]) == Merge([a], [b]);
  }

  function BondAndBridge(id: string, port: string): NetworkConnection {
    Plain(id).(bond := Some(BondSettings("802.3ad", None, [])),
               bridge := Some(BridgeSettings(None, None, None, None, None, [port])))
  }

  /** A bond that is also a bridge, with an unknown bridge port: it is added, then its ports are refused. */
  lemma BondAndBridgeIsHalfDone(id: string, port: string, next: Uuid)
    requires id != port
    ensures var nc := BondAndBridge(id, port);
            && Claims([nc], next) == map[]
            && Reconcile([], [nc], next, []).1.Some? && HasId(Reconcile([], [nc], next, []).0, id)
  {
    var nc := BondAndBridge(id, port);
    assert nc in [nc] && port in UpdatePorts(nc).value && !Provided([], [nc], port);
    assert Claims([nc], next).Keys == {};
    SucceedsIfProvided([], [nc], next, []);
    OnlyMerged([], nc, next, []);
  }

  lemma SetOnePorts(conns: seq<Connection>, nc: NetworkConnection)
    ensures SetAllPorts(conns, [nc]) == SetPortsOf(conns, nc)
    ensures SetPortsOf(conns, nc).1.Some? ==> SetPortsOf(conns, nc).0 == conns
  {
    assert [nc][..|[nc]| - 1] == [];
    assert SetAllPorts(conns, []) == (conns, None);
  }

  /** With one changed connection whose ports are refused, the state is the merged one. */
  lemma OnlyMerged(conns: seq<Connection>, nc: NetworkConnection, next: Uuid, order: seq<string>)
    requires Acceptable(conns, [nc], next, order) && Reconcile(conns, [nc], next, order).1.Some?
    ensures HasId(Reconcile(conns, [nc], next, order).0, nc.id)
  {
    var merged := MergedConns(conns, [nc], next, order);
    assert Reconcile(conns, [nc], next, order).0 == merged by {
      MergeWorks(conns, [nc], next, order);
      SetOnePorts(merged, nc);
    }
    AttachableExactly(conns, [nc], next, order, nc);
    assert merged[FindId(merged, nc.id)] in merged;
  }

  /** A known connection that is listed twice, as a bond and with an interface that is used as a port. */
  function ListedTwice(): seq<NetworkConnection> {
    [ Plain("c").(bond := Some(BondSettings("802.3ad", None, []))),
      Plain("c").(interface := Some("d")),
      Plain("b").(bond := Some(BondSettings("802.3ad", None, ["c", "d"]))) ]
  }

  lemma ListedTwiceConverts(next: Uuid)
    ensures ConvertAll(ListedTwice(), next).Ok?
    ensures forall p :: p in Claims(ListedTwice(), next) <==> p == "c" || p == "d"
  {
    var list := ListedTwice();
    var (c1, c2, b) := (list[0], list[1], list[2]);
    assert ModeOf("802.3ad") == Some(LACP);
    ConvertNext([], c1, [], Convert(c1, next).value, next);
    assert [] + [c1] == [c1] && [c1] + [c2] == [c1, c2] && [c1, c2] + [b] == list;
    ConvertNext([c1], c2, ConvertAll([c1], next).value, Convert(c2, next + 1).value, next);
    ConvertNext([c1, c2], b, ConvertAll([c1, c2], next).value, Convert(b, next + 2).value, next);
    forall p ensures p in Claims(list, next) <==> p == "c" || p == "d" {
      if p in Claims(list, next) {
        ClaimedAreNamed(list, next, p);
      } else if p == "c" || p == "d" {
        PortsAreClaimed(list, next, b, p);
      }
    }
  }

  /** Whether such a change is accepted depends on the order in which the hash table is taken apart. */
  lemma OrderDecides()
    ensures var conns, changed := [NewPort("c", 0), NewPort("d", 1)], ListedTwice();
            && Enumerates(["c", "d"], Claims(changed, 2).Keys) && Enumerates(["d", "c"], Claims(changed, 2).Keys)
            && Reconcile(conns, changed, 2, ["c", "d"]).1.Some?
            && Reconcile(conns, changed, 2, ["d", "c"]).1.None?
  {
    var conns, changed := [NewPort("c", 0), NewPort("d", 1)], ListedTwice();
    assert conns[0] in conns && conns[1] in conns;
    ListedTwiceConverts(2);
    EnumeratesTwo("c", "d", Claims(changed, 2).Keys);
    AcceptedExactly(conns, changed, 2, ["c", "d"]);
    AcceptedExactly(conns, changed, 2, ["d", "c"]);
    LastDecides(conns);
  }

  lemma EnumeratesTwo(p: string, q: string, keys: set<string>)
    requires p != q && forall k :: k in keys <==> k == p || k == q
    ensures Enumerates([p, q], keys) && Enumerates([q, p], keys)
  {
  }

  lemma LastDecides(conns: seq<Connection>)
    requires HasId(conns, "c") && HasId(conns, "d")
    ensures var changed := ListedTwice();
            && NoNewIdTwice(conns, changed)
            && (exists nc | nc in changed :: !CanAttach(conns, changed, ["c", "d"], nc))
            && (forall nc | nc in changed :: CanAttach(conns, changed, ["d", "c"], nc))
  {
    var changed := ListedTwice();
    SourcesOfTwice();
    assert changed[0] in changed && !CanAttach(conns, changed, ["c", "d"], changed[0]);
    forall nc | nc in changed ensures CanAttach(conns, changed, ["d", "c"], nc) {
      assert nc == changed[0] || nc == changed[1] || nc == changed[2];
    }
  }

  lemma SourcesOfTwice()
    ensures var changed := ListedTwice();
            && Source(changed, ["c", "d"], "c") == 1
            && Source(changed, ["d", "c"], "c") == 0 && Source(changed, ["d", "c"], "b") == 2
  {
    var changed := ListedTwice();
    assert FirstListed(changed, "c") == 0 && FirstListed(changed, "d") == 1;
    assert ["d", "c"][..1] == ["d"] && ["d"][..0] == [] && ["c", "d"][1] == "d";
  }
}
