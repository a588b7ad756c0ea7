/** Exactly when the port sets of a configuration survive the conversion to connections and back. */
module NetworkPortSets {
  import opened Events
  import opened Text
  import opened Network
  import opened NetworkEntries
  import opened NetworkRoundTrip

  /** The name under which a port comes back. */
  function Shown(list: seq<NetworkConnection>, p: string): string {
    var n := FirstListed(list, p);
    if n == |list| then p else list[n].interface.GetOr(list[n].id)
  }

  lemma ReturnedIsShown(list: seq<NetworkConnection>, next: Uuid, p: string)
    requires ConvertAll(list, next).Ok?
    ensures ReturnedName(ConvertAll(list, next).value, p) == Shown(list, p)
  {
    ListedAreConverted(list, next);
    FirstAnsweringAt(ConvertAll(list, next).value, p, FirstListed(list, p));
  }

  /*** Counting names ***/

  predicate Reaches(list: seq<NetworkConnection>, from: set<string>, q: string) {
    exists p | p in from :: Shown(list, p) == q
  }

  ghost predicate Covers(list: seq<NetworkConnection>, from: set<string>, names: set<string>) {
    forall q {:trigger Reaches(list, from, q)} | q in names :: Reaches(list, from, q)
  }

  predicate Apart(list: seq<NetworkConnection>, p: string, o: string) {
    p != o ==> Shown(list, p) != Shown(list, o)
  }

  ghost predicate AllApart(list: seq<NetworkConnection>, names: set<string>) {
    forall p, o {:trigger Apart(list, p, o)} | p in names && o in names :: Apart(list, p, o)
  }

  /** Without one name, the others still cover all but what this one gives. */
  lemma CoversWithout(list: seq<NetworkConnection>, from: set<string>, names: set<string>, p: string)
    requires p in from && Covers(list, from, names)
    ensures Covers(list, from - {p}, names - {Shown(list, p)})
  {
    forall r | r in names - {Shown(list, p)} ensures Reaches(list, from - {p}, r) {
      assert Reaches(list, from, r);
      var o :| o in from && Shown(list, o) == r;
      assert o in from - {p};
    }
  }

  /** Names that come back from `from` are not more than these. */
  lemma {:induction false} NotMore(list: seq<NetworkConnection>, from: set<string>, names: set<string>)
    requires Covers(list, from, names)
    ensures |names| <= |from|
    decreases |from|
  {
    if names != {} {
      var q :| q in names;
      assert Reaches(list, from, q);
      var p :| p in from && Shown(list, p) == q;
      CoversWithout(list, from, names, p);
      NotMore(list, from - {p}, names - {q});
    }
  }

  lemma {:induction false} Smaller(from: set<string>, names: set<string>)
    requires from <= names
    ensures |from| <= |names| && (|from| == |names| ==> from == names)
    decreases from
  {
    if from != {} {
      var x :| x in from;
      Smaller(from - {x}, names - {x});
    }
  }

  /** If some of the names give all of them back, they are all of them ... */
  lemma AllAreNeeded(list: seq<NetworkConnection>, from: set<string>, names: set<string>)
    requires from <= names && Covers(list, from, names)
    ensures from == names
  {
    NotMore(list, from, names);
    Smaller(from, names);
  }

  /** ... and no two give the same. */
  lemma NoneIsShared(list: seq<NetworkConnection>, names: set<string>, p: string, o: string)
    requires Covers(list, names, names) && p in names && o in names && p != o
    ensures Shown(list, p) != Shown(list, o)
  {
    if Shown(list, p) == Shown(list, o) {
      CoversWithoutShared(list, names, p, o);
      NotMore(list, names - {p}, names);
      assert false;
    }
  }

  lemma CoversWithoutShared(list: seq<NetworkConnection>, names: set<string>, p: string, o: string)
    requires Covers(list, names, names) && o in names && p != o && Shown(list, p) == Shown(list, o)
    ensures Covers(list, names - {p}, names)
  {
    forall q | q in names ensures Reaches(list, names - {p}, q) {
      assert Reaches(list, names, q);
      var r :| r in names && Shown(list, r) == q;
      if r == p {
        assert o in names - {p};
      } else {
        assert r in names - {p};
      }
    }
  }

  predicate StaysIn(list: seq<NetworkConnection>, names: set<string>, p: string) {
    Shown(list, p) in names
  }

  ghost predicate Closed(list: seq<NetworkConnection>, names: set<string>) {
    forall p {:trigger StaysIn(list, names, p)} | p in names :: StaysIn(list, names, p)
  }

  /** Names that are only exchanged among each other stay: each exchange goes to an earlier connection. */
  lemma {:induction false} NothingIsExchanged(list: seq<NetworkConnection>, names: set<string>, p: string)
    requires p in names && Closed(list, names) && AllApart(list, names)
    ensures Shown(list, p) == p
    decreases FirstListed(list, p)
  {
    var q := Shown(list, p);
    if q != p {
      assert StaysIn(list, names, p) && Apart(list, p, q);
      NothingIsExchanged(list, names, q);
    }
  }

  /*** The exact condition ***/

  predicate NamedOnce(list: seq<NetworkConnection>) {
    forall i, j, p | 0 <= i < j < |list| && p in PortsOf(list[i]) :: p !in PortsOf(list[j])
  }

  /** The first connection that answers to a port has no interface, or the one that the port is called by. */
  predicate KeepsName(list: seq<NetworkConnection>, p: string) {
    var n := FirstListed(list, p);
    n < |list| ==> list[n].interface.None? || list[n].interface == Some(p)
  }

  predicate KeepsNames(list: seq<NetworkConnection>) {
    forall i, p | 0 <= i < |list| && p in PortsOf(list[i]) :: KeepsName(list, p)
  }

  ghost predicate SamePortSets(list: seq<NetworkConnection>, back: seq<NetworkConnection>) {
    && |back| == |list|
    && forall i: nat, q: string | i < |list| :: DeclaresPort(back[i], q) <==> q in PortsOf(list[i])
  }

  /** The names that come back for the connection at `i`. */
  ghost predicate ComesFrom(list: seq<NetworkConnection>, i: nat, q: string) {
    exists p :: Owns(list, i, p) && Shown(list, p) == q
  }

  ghost predicate AllComeBack(list: seq<NetworkConnection>) {
    forall i: nat, q: string {:trigger ComesFrom(list, i, q)} | i < |list| ::
      ComesFrom(list, i, q) <==> q in PortsOf(list[i])
  }

  lemma PortsKeptAt(list: seq<NetworkConnection>, i: nat, p: string)
    requires AllComeBack(list) && i < |list| && p in PortsOf(list[i])
    ensures Owns(list, i, p) && Shown(list, p) == p
  {
    var names := set q | q in PortsOf(list[i]);
    var from := set q | q in PortsOf(list[i]) && Owns(list, i, q);
    forall q | q in names ensures Reaches(list, from, q) {
      assert ComesFrom(list, i, q);
      var o :| Owns(list, i, o) && Shown(list, o) == q;
      assert o in from;
    }
    AllAreNeeded(list, from, names);
    assert p in from;
    forall o, r | o in names && r in names ensures Apart(list, o, r) {
      if o != r {
        NoneIsShared(list, names, o, r);
      }
    }
    forall o | o in names ensures StaysIn(list, names, o) {
      assert o in from;
      assert ComesFrom(list, i, Shown(list, o));
    }
    NothingIsExchanged(list, names, p);
  }

  lemma AllComeBackExactly(list: seq<NetworkConnection>)
    ensures AllComeBack(list) <==> NamedOnce(list) && KeepsNames(list)
  {
    if AllComeBack(list) {
      forall i: nat, p | i < |list| && p in PortsOf(list[i]) ensures Owns(list, i, p) && KeepsName(list, p) {
        PortsKeptAt(list, i, p);
      }
      forall i, j, p | 0 <= i < j < |list| && p in PortsOf(list[i]) ensures p !in PortsOf(list[j]) {
        assert Owns(list, i, p);
      }
    }
    if NamedOnce(list) && KeepsNames(list) {
      forall i: nat, q: string | i < |list| ensures ComesFrom(list, i, q) <==> q in PortsOf(list[i]) {
        OnceComesBack(list, i, q);
      }
    }
  }

  lemma OnceComesBack(list: seq<NetworkConnection>, i: nat, q: string)
    requires NamedOnce(list) && KeepsNames(list) && i < |list|
    ensures ComesFrom(list, i, q) <==> q in PortsOf(list[i])
  {
    if q in PortsOf(list[i]) {
      assert KeepsName(list, q);
      assert Owns(list, i, q);
    }
    if p :| Owns(list, i, p) && Shown(list, p) == q {
      assert KeepsName(list, p);
    }
  }

  /**
   Ids are kept, and the port sets are exactly if no port is named by two controllers and no listed
   connection that is used as a port has an interface of another name.
   */
  lemma RoundTripExactly(list: seq<NetworkConnection>, next: Uuid, order: seq<string>, show: Printer)
    requires ConvertAll(list, next).Ok? && Enumerates(order, Claims(list, next).Keys)
    ensures var conns := Collect(list, next, order).value;
            var back := Declare(conns, conns, show);
            && |back| == |list| && (forall i | 0 <= i < |list| :: back[i].id == list[i].id)
            && (SamePortSets(list, back) <==> NamedOnce(list) && KeepsNames(list))
  {
    RoundTripExact(list, next, order, show);
    var conns := Collect(list, next, order).value;
    var back := Declare(conns, conns, show);
    forall i: nat, q: string | i < |list| ensures DeclaresPort(back[i], q) <==> ComesFrom(list, i, q) {
      OwnsAsShown(list, next, i, q);
    }
    SameIfAllComeBack(list, back);
    AllComeBackExactly(list);
  }

  lemma SameIfAllComeBack(list: seq<NetworkConnection>, back: seq<NetworkConnection>)
    requires |back| == |list|
    requires forall i: nat, q: string | i < |list| :: DeclaresPort(back[i], q) <==> ComesFrom(list, i, q)
    ensures SamePortSets(list, back) <==> AllComeBack(list)
  {
    if SamePortSets(list, back) {
      forall i: nat, q: string | i < |list| ensures ComesFrom(list, i, q) <==> q in PortsOf(list[i]) {
        assert DeclaresPort(back[i], q) <==> ComesFrom(list, i, q);
      }
    }
    if AllComeBack(list) {
      forall i: nat, q: string | i < |list| ensures DeclaresPort(back[i], q) <==> q in PortsOf(list[i]) {
        assert DeclaresPort(back[i], q) <==> ComesFrom(list, i, q);
      }
    }
  }

  lemma OwnsAsShown(list: seq<NetworkConnection>, next: Uuid, i: nat, q: string)
    requires ConvertAll(list, next).Ok?
    ensures (exists p :: OwnsAs(list, next, i, p, q)) <==> ComesFrom(list, i, q)
  {
    if p :| OwnsAs(list, next, i, p, q) {
      ReturnedIsShown(list, next, p);
    }
    if p :| Owns(list, i, p) && Shown(list, p) == q {
      ReturnedIsShown(list, next, p);
      assert OwnsAs(list, next, i, p, q);
    }
  }
}
