/** Which declared connections count as changed, and what an update leaves alone because of it. */
module NetworkChanges {
  import opened Events
  import opened Sequences
  import opened Network
  import opened NetworkTheorems
  import opened NetworkInvariant
  import opened NetworkFrame

  /** The declaration stands at this place, and no earlier one has its id. */
  predicate FirstAt(list: seq<NetworkConnection>, nc: NetworkConnection, i: nat) {
    i < |list| && list[i] == nc && forall j | 0 <= j < i :: list[j].id != nc.id
  }

  /** The declaration is the first one with its id in the last accepted list. */
  ghost predicate Unaltered(user: Option<Config>, nc: NetworkConnection) {
    user.Some? && user.value.connections.Some? && exists i: nat :: FirstAt(user.value.connections.value, nc, i)
  }

  lemma {:induction false} FirstWithIdIs(list: seq<NetworkConnection>, nc: NetworkConnection)
    ensures FirstWithId(list, nc.id) == Some(nc) <==> exists i: nat :: FirstAt(list, nc, i)
  {
    if list != [] && list[0].id != nc.id {
      FirstWithIdIs(list[1..], nc);
      if i: nat :| FirstAt(list[1..], nc, i) {
        assert FirstAt(list, nc, i + 1);
      }
      if i: nat :| FirstAt(list, nc, i) {
        assert i > 0 && FirstAt(list[1..], nc, i - 1);
      }
    } else if list != [] && list[0] == nc {
      assert FirstAt(list, nc, 0);
    }
  }

  lemma KnownIs(user: Option<Config>, nc: NetworkConnection)
    ensures Known(user, nc.id) == Some(nc) <==> Unaltered(user, nc)
  {
    if user.Some? && user.value.connections.Some? {
      FirstWithIdIs(user.value.connections.value, nc);
    }
  }

  /** A declaration counts as changed exactly if it is not the one that was accepted last for its id. */
  lemma ChangedExactly(user: Option<Config>, list: seq<NetworkConnection>, nc: NetworkConnection)
    ensures nc in Changed(user, list) <==> nc in list && !Unaltered(user, nc)
  {
    KnownIs(user, nc);
  }

  /** The changed declarations keep their order and their number. */
  lemma {:induction false} ChangedInOrder(user: Option<Config>, a: seq<NetworkConnection>, b: seq<NetworkConnection>)
    ensures Changed(user, a + b) == Changed(user, a) + Changed(user, b)
  {
    if a == [] {
      assert a + b == b;
    } else {
      assert (a + b)[1..] == a[1..] + b;
      ChangedInOrder(user, a[1..], b);
    }
  }

  lemma ChangedOne(user: Option<Config>, nc: NetworkConnection)
    ensures Changed(user, [nc]) == if Unaltered(user, nc) then [] else [nc]
  {
    KnownIs(user, nc);
    assert Changed(user, [nc][1..]) == [];
  }

  lemma {:induction false} NothingAccepted(user: Option<Config>, list: seq<NetworkConnection>)
    requires user.None? || user.value.connections.None?
    ensures Changed(user, list) == list
  {
    if list != [] {
      NothingAccepted(user, list[1..]);
    }
  }

  /** An entry for the connection, or a controller that names it or had it. */
  predicate Touches(conns: seq<Connection>, after: seq<Connection>, nc: NetworkConnection, x: nat)
    requires x < |conns|
  {
    || nc.id == conns[x].id || conns[x].id in PortsOf(nc)
    || Claimer(after, nc, x) || Controls(after, nc, conns[x].controller)
  }

  /** No declaration that was altered since the last accepted list touches the connection. */
  ghost predicate Untouched(user: Option<Config>, list: seq<NetworkConnection>, conns: seq<Connection>,
                      after: seq<Connection>, x: nat)
    requires x < |conns|
  {
    forall nc | nc in list && Touches(conns, after, nc, x) :: Unaltered(user, nc)
  }

  lemma UntouchedUnconcerned(user: Option<Config>, list: seq<NetworkConnection>, conns: seq<Connection>,
                             after: seq<Connection>, x: nat)
    requires x < |conns| && Untouched(user, list, conns, after, x)
    ensures !Concerned(conns, after, Changed(user, list), x)
  {
    forall nc | nc in Changed(user, list) ensures !Touches(conns, after, nc, x) {
      ChangedExactly(user, list, nc);
    }
  }

  /** What was not altered is not applied again, whatever became of the connection meanwhile. */
  lemma UnalteredKept(conns: seq<Connection>, user: Option<Config>, list: seq<NetworkConnection>, next: Uuid,
                      order: seq<string>, x: nat)
    requires Distinct(conns) && Below(conns, next) && x < |conns|
    requires NoRepeats(order) && forall p | p in order :: p in Claims(Changed(user, list), next)
    ensures var after := Reconcile(conns, Changed(user, list), next, order).0;
            |conns| <= |after| && (Untouched(user, list, conns, after, x) ==> after[x] == conns[x])
  {
    ReconcileFrame(conns, Changed(user, list), next, order, x);
    var after := Reconcile(conns, Changed(user, list), next, order).0;
    if Untouched(user, list, conns, after, x) {
      UntouchedUnconcerned(user, list, conns, after, x);
    }
  }

  ghost predicate KeepsUntouched(user: Option<Config>, list: seq<NetworkConnection>, conns: seq<Connection>,
                                 after: seq<Connection>) {
    && |conns| <= |after|
    && forall x: nat | x < |conns| && Untouched(user, list, conns, after, x) :: after[x] == conns[x]
  }

  lemma AllUntouchedKept(conns: seq<Connection>, user: Option<Config>, list: seq<NetworkConnection>, next: Uuid,
                         order: seq<string>)
    requires Distinct(conns) && Below(conns, next)
    requires NoRepeats(order) && forall p | p in order :: p in Claims(Changed(user, list), next)
    ensures KeepsUntouched(user, list, conns, Reconcile(conns, Changed(user, list), next, order).0)
  {
    var after := Reconcile(conns, Changed(user, list), next, order).0;
    assert |conns| <= |after| by {
      if conns != [] {
        UnalteredKept(conns, user, list, next, order, 0);
      }
    }
    forall x: nat | x < |conns| && Untouched(user, list, conns, after, x) ensures after[x] == conns[x] {
      UnalteredKept(conns, user, list, next, order, x);
    }
  }
}
