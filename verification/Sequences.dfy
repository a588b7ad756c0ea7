/** Sequences without repetition. */
module Sequences {
  ghost predicate NoRepeats<T>(s: seq<T>) {
    forall i, j | 0 <= i < j < |s| :: s[i] != s[j]
  }

  lemma NoRepeatsFirst<T>(x: T, rest: seq<T>)
    ensures NoRepeats([x] + rest) <==> x !in rest && NoRepeats(rest)
  {
    var all := [x] + rest;
    assert forall i | 0 <= i < |rest| :: rest[i] == all[i + 1];
    if i: nat :| i < |rest| && rest[i] == x {
      assert all[0] == all[i + 1];
    }
  }

  lemma Regroup<T>(a: seq<T>, b: seq<T>, c: seq<T>)
    ensures (a + b) + c == a + (b + c)
  {
  }
}
