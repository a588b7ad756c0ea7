/**
 Joining lists of records by key (web/src/utils.ts). A JavaScript `Map` is a list of pairs: setting a
 key that is there keeps its place, a new key goes to the end.
 */
module Collections {
  import opened Sequences

  type Pairs<V> = seq<(string, V)>

  /** The position of the first pair with this key, or the length. */
  function Index<V>(m: Pairs<V>, key: string): (n: nat)
    ensures n <= |m| && (forall i | 0 <= i < n :: m[i].0 != key) && (n < |m| ==> m[n].0 == key)
  {
    if m == [] || m[0].0 == key then 0 else 1 + Index(m[1..], key)
  }

  predicate Has<V>(m: Pairs<V>, key: string) {
    Index(m, key) < |m|
  }

  function Put<V>(m: Pairs<V>, key: string, value: V): Pairs<V> {
    if Has(m, key) then m[Index(m, key) := (key, value)] else m + [(key, value)]
  }

  function Remove<V>(m: Pairs<V>, key: string): Pairs<V> {
    if m == [] then []
    else if m[0].0 == key then m[1..]
    else [m[0]] + Remove(m[1..], key)
  }

  predicate Unique<V>(m: Pairs<V>) {
    forall i, j | 0 <= i < j < |m| :: m[i].0 != m[j].0
  }

  lemma HasIff<V>(m: Pairs<V>, key: string)
    ensures Has(m, key) <==> exists i | 0 <= i < |m| :: m[i].0 == key
  {
  }

  lemma HasAppend<V>(a: Pairs<V>, b: Pairs<V>, key: string)
    ensures Has(a + b, key) <==> Has(a, key) || Has(b, key)
  {
    HasIff(a, key);
    HasIff(b, key);
    HasIff(a + b, key);
    if i :| 0 <= i < |a| && a[i].0 == key {
      assert (a + b)[i].0 == key;
    }
    if i :| 0 <= i < |b| && b[i].0 == key {
      assert (a + b)[|a| + i].0 == key;
    }
  }

  lemma HasStep<V>(m: Pairs<V>, i: nat, key: string)
    requires i < |m|
    ensures Has(m[..i + 1], key) <==> Has(m[..i], key) || m[i].0 == key
  {
    assert m[..i + 1] == m[..i] + [m[i]];
    HasAppend(m[..i], [m[i]], key);
  }

  /*** What the joins are meant to be, as scans of the lists ***/

  /** The distinct keys, in the order of their first occurrence. */
  function FirstKeys<V>(entries: Pairs<V>): (r: seq<string>)
    ensures forall k :: k in r <==> Has(entries, k)
    ensures NoRepeats(r)
  {
    if entries == [] then []
    else
      var last := |entries| - 1;
      var front := FirstKeys(entries[..last]);
      assert forall k :: Has(entries, k) <==> Has(entries[..last], k) || entries[last].0 == k by {
        forall k ensures Has(entries, k) <==> Has(entries[..last], k) || entries[last].0 == k {
          HasStep(entries, last, k);
          assert entries[..last + 1] == entries;
        }
      }
      if entries[last].0 in front then front else front + [entries[last].0]
  }

  lemma {:induction false} FirstKeysInOrder<V>(entries: Pairs<V>, a: nat, b: nat)
    requires a < b < |FirstKeys(entries)|
    ensures Index(entries, FirstKeys(entries)[a]) < Index(entries, FirstKeys(entries)[b])
  {
    var last := |entries| - 1;
    var front := entries[..last];
    var k, l := FirstKeys(entries)[a], FirstKeys(entries)[b];
    assert k in FirstKeys(front) && k == FirstKeys(front)[a];
    IndexInFront(entries, k);
    if b < |FirstKeys(front)| {
      FirstKeysInOrder(front, a, b);
      assert l in FirstKeys(front);
      IndexInFront(entries, l);
    } else {
      assert l == entries[last].0 && l !in FirstKeys(front);
      assert !Has(front, l);
    }
  }

  lemma IndexInFront<V>(entries: Pairs<V>, key: string)
    requires entries != [] && Has(entries[..|entries| - 1], key)
    ensures Index(entries, key) == Index(entries[..|entries| - 1], key)
  {
    var n := Index(entries[..|entries| - 1], key);
    assert entries[n] == entries[..|entries| - 1][n];
    assert forall i | 0 <= i < n :: entries[i] == entries[..|entries| - 1][i];
  }

  /** The value of the last entry with the key. */
  function LastValue<V>(entries: Pairs<V>, key: string): V
    requires Has(entries, key)
  {
    var last := |entries| - 1;
    if entries[last].0 == key then entries[last].1
    else
      assert Has(entries[..last], key) by {
        HasStep(entries, last, key);
        assert entries[..last + 1] == entries;
      }
      LastValue(entries[..last], key)
  }

  lemma {:induction false} LastValueIsLast<V>(entries: Pairs<V>, i: nat)
    requires i < |entries| && forall j | i < j < |entries| :: entries[j].0 != entries[i].0
    ensures Has(entries, entries[i].0) && LastValue(entries, entries[i].0) == entries[i].1
  {
    HasIff(entries, entries[i].0);
    var last := |entries| - 1;
    if i < last {
      assert entries[..last][i] == entries[i];
      LastValueIsLast(entries[..last], i);
    }
  }

  /*** Building a map from entries ***/

  /** `new Map(entries)` */
  function FromEntries<V>(entries: Pairs<V>): Pairs<V> {
    if entries == [] then []
    else Put(FromEntries(entries[..|entries| - 1]), entries[|entries| - 1].0, entries[|entries| - 1].1)
  }

  /** The distinct keys with the last value of each: the map agrees with scanning the entries. */
  lemma {:induction false} FromEntriesIs<V>(entries: Pairs<V>)
    ensures var m, keys := FromEntries(entries), FirstKeys(entries);
            |m| == |keys| && forall j | 0 <= j < |m| :: m[j] == (keys[j], LastValue(entries, keys[j]))
  {
    if entries != [] {
      var last := |entries| - 1;
      var front := entries[..last];
      var m, keys := FromEntries(front), FirstKeys(front);
      FromEntriesIs(front);
      var key, value := entries[last].0, entries[last].1;
      assert Index(m, key) < |m| ==> keys[Index(m, key)] == key;
      assert key in keys ==> Has(m, key);
      forall k | k in keys && k != key ensures LastValue(entries, k) == LastValue(front, k) {
      }
    }
  }
}
