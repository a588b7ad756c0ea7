/** `extendCollection` and `mergeSources` (web/src/utils.ts). */
module Joins {
  import opened Collections
  import opened Sequences

  datatype Value = Text(text: string) | List(elements: seq<string>)

  type Item = map<string, Value>

  function JoinWith(parts: seq<string>, separator: string): string {
    if parts == [] then ""
    else if |parts| == 1 then parts[0]
    else parts[0] + separator + JoinWith(parts[1..], separator)
  }

  /** `String(item[field])` */
  function FieldText(item: Item, field: string): string {
    if field !in item then "undefined"
    else
      match item[field]
      case Text(text) => text
      case List(elements) => JoinWith(elements, ",")
  }

  function FieldTexts(item: Item, fields: seq<string>): seq<string> {
    if fields == [] then [] else [FieldText(item, fields[0])] + FieldTexts(item, fields[1..])
  }

  function GetKey(item: Item, fields: seq<string>): string {
    JoinWith(FieldTexts(item, fields), "|")
  }

  function Keyed(items: seq<Item>, fields: seq<string>): (r: Pairs<Item>)
    ensures |r| == |items| && forall i | 0 <= i < |r| :: r[i] == (GetKey(items[i], fields), items[i])
  {
    if items == [] then []
    else Keyed(items[..|items| - 1], fields) + [(GetKey(items[|items| - 1], fields), items[|items| - 1])]
  }

  /*** What a key tells ***/

  predicate NoBar(text: string) {
    '|' !in text
  }

  /** The text of a field: that of the value, a list with commas in between, or "undefined". */
  lemma FieldTextIs(item: Item, field: string)
    ensures field !in item ==> FieldText(item, field) == "undefined"
    ensures field in item && item[field].Text? ==> FieldText(item, field) == item[field].text
    ensures field in item && item[field] == List([]) ==> FieldText(item, field) == ""
    ensures field in item && item[field].List? && |item[field].elements| == 2 ==>
              FieldText(item, field) == item[field].elements[0] + "," + item[field].elements[1]
  {
    if field in item && item[field].List? && |item[field].elements| == 2 {
      assert JoinWith(item[field].elements[1..], ",") == item[field].elements[1];
    }
  }

  lemma {:induction false} BarSplits(a: string, b: string, x: string, y: string)
    requires NoBar(a) && NoBar(b)
    ensures a + "|" + x == b + "|" + y <==> a == b && x == y
  {
    var s, t := a + "|" + x, b + "|" + y;
    assert s[|a|] == t[|b|] == '|';
    assert forall i | 0 <= i < |a| :: s[i] == a[i] && a[i] in a;
    assert forall i | 0 <= i < |b| :: t[i] == b[i] && b[i] in b;
    if s == t {
      assert |a| == |b|;
      assert a == s[..|a|] && b == t[..|b|];
      assert x == s[|a| + 1..] && y == t[|b| + 1..];
    }
  }

  lemma {:induction false} JoinedSame(a: seq<string>, b: seq<string>)
    requires |a| == |b| && forall i | 0 <= i < |a| :: NoBar(a[i]) && NoBar(b[i])
    ensures JoinWith(a, "|") == JoinWith(b, "|") <==> a == b
  {
    if |a| == 1 {
      assert a == [a[0]] && b == [b[0]];
    } else if |a| > 1 {
      BarSplits(a[0], b[0], JoinWith(a[1..], "|"), JoinWith(b[1..], "|"));
      JoinedSame(a[1..], b[1..]);
      assert a == [a[0]] + a[1..] && b == [b[0]] + b[1..];
    }
  }

  lemma {:induction false} FieldTextsAt(item: Item, fields: seq<string>)
    ensures |FieldTexts(item, fields)| == |fields|
    ensures forall i | 0 <= i < |fields| :: FieldTexts(item, fields)[i] == FieldText(item, fields[i])
  {
    if fields != [] {
      FieldTextsAt(item, fields[1..]);
    }
  }

  /** Items have one key exactly if all fields of the key agree, as long as no field holds a bar. */
  lemma {:induction false} SameKeyExactly(a: Item, b: Item, fields: seq<string>)
    requires forall f | f in fields :: NoBar(FieldText(a, f)) && NoBar(FieldText(b, f))
    ensures GetKey(a, fields) == GetKey(b, fields) <==> forall f | f in fields :: FieldText(a, f) == FieldText(b, f)
  {
    FieldTextsAt(a, fields);
    FieldTextsAt(b, fields);
    var x, y := FieldTexts(a, fields), FieldTexts(b, fields);
    JoinedSame(x, y);
    if forall f | f in fields :: FieldText(a, f) == FieldText(b, f) {
      assert forall i | 0 <= i < |fields| :: x[i] == y[i];
    } else {
      var f :| f in fields && FieldText(a, f) != FieldText(b, f);
      var i :| 0 <= i < |fields| && fields[i] == f;
      assert x[i] != y[i];
    }
  }

  lemma KeyOfTwo(item: Item, f: string, g: string)
    ensures GetKey(item, [f, g]) == FieldText(item, f) + "|" + FieldText(item, g)
  {
    FieldTextsAt(item, [f, g]);
    var texts := [FieldText(item, f), FieldText(item, g)];
    assert FieldTexts(item, [f, g]) == texts && texts[1..] == [FieldText(item, g)];
    assert JoinWith(texts[1..], "|") == FieldText(item, g);
  }

  /** With a bar in a field, items that differ can have one key. */
  lemma BarsCollide(f: string, g: string, x: string, y: string)
    requires f != g
    ensures var a: Item, b: Item := map[f := Text(x + "|"), g := Text(y)], map[f := Text(x), g := Text("|" + y)];
            a != b && GetKey(a, [f, g]) == GetKey(b, [f, g])
  {
    var a: Item, b: Item := map[f := Text(x + "|"), g := Text(y)], map[f := Text(x), g := Text("|" + y)];
    assert a[g] != b[g] by {
      assert |"|" + y| != |y|;
    }
    KeyOfTwo(a, f, g);
    KeyOfTwo(b, f, g);
    assert x + "|" + "|" + y == x + "|" + ("|" + y);
  }

  /*** Merging two items ***/

  datatype ArrayMerge = NoArrays | AllArrays | Fields(names: seq<string>)

  datatype Options = Options(baseWins: bool, arrays: ArrayMerge)

  /** `Array.from(new Set(elements))`: the first occurrence of each stays. */
  function Dedup(elements: seq<string>): (r: seq<string>)
    ensures forall e :: e in r <==> e in elements
    ensures NoRepeats(r)
  {
    if elements == [] then []
    else
      var last := |elements| - 1;
      assert elements == elements[..last] + [elements[last]];
      var front := Dedup(elements[..last]);
      if elements[last] in front then front else front + [elements[last]]
  }

  predicate MergesArray(arrays: ArrayMerge, field: string) {
    match arrays
    case NoArrays => false
    case AllArrays => true
    case Fields(names) => field in names
  }

  /** `{ ...ext, ...base }` or `{ ...base, ...ext }` */
  function Spread(base: Item, ext: Item, baseWins: bool): Item {
    if baseWins then ext + base else base + ext
  }

  predicate BothLists(base: Item, ext: Item, field: string) {
    field in base && field in ext && base[field].List? && ext[field].List?
  }

  function MergedField(base: Item, ext: Item, field: string, options: Options): Value
    requires field in base || field in ext
  {
    if MergesArray(options.arrays, field) && BothLists(base, ext, field)
    then List(Dedup(base[field].elements + ext[field].elements))
    else Spread(base, ext, options.baseWins)[field]
  }

  /** Every field of either item, each as the options say. */
  function Merged(base: Item, ext: Item, options: Options): Item {
    map field | field in base.Keys + ext.Keys :: MergedField(base, ext, field, options)
  }

  /*** What merging means, field by field ***/

  /** The position of the first occurrence, or the length. */
  function FirstAt(elements: seq<string>, e: string): (n: nat)
    ensures n <= |elements| && (forall i | 0 <= i < n :: elements[i] != e) && (n < |elements| ==> elements[n] == e)
  {
    if elements == [] || elements[0] == e then 0 else 1 + FirstAt(elements[1..], e)
  }

  /** Each element once, in the order of the first occurrences. */
  ghost predicate OnceInOrder(r: seq<string>, elements: seq<string>) {
    && NoRepeats(r) && (forall e :: e in r <==> e in elements)
    && forall i, j | 0 <= i < j < |r| :: FirstAt(elements, r[i]) < FirstAt(elements, r[j])
  }

  lemma {:induction false} DedupIsOnce(elements: seq<string>)
    ensures OnceInOrder(Dedup(elements), elements)
  {
    if elements != [] {
      var last := |elements| - 1;
      var front, r := elements[..last], Dedup(elements);
      DedupIsOnce(front);
      forall e | e in front ensures FirstAt(elements, e) == FirstAt(front, e) {
        assert elements[FirstAt(front, e)] == e;
      }
      assert elements[last] !in front ==> FirstAt(elements, elements[last]) == last;
      forall i, j | 0 <= i < j < |r| ensures FirstAt(elements, r[i]) < FirstAt(elements, r[j]) {
        assert r[i] in front;
      }
    }
  }

  /** The lists of both items are to be merged in this field. */
  predicate ListsMeet(base: Item, ext: Item, arrays: ArrayMerge, f: string) {
    && f in base && f in ext && base[f].List? && ext[f].List?
    && (arrays == AllArrays || (arrays.Fields? && f in arrays.names))
  }

  /** The fields of both; the preferred item decides, but lists that meet are joined, the base first. */
  ghost predicate FieldsMerged(base: Item, ext: Item, options: Options, merged: Item) {
    && (forall f :: f in merged <==> f in base || f in ext)
    && (forall f | f in base && f !in ext :: merged[f] == base[f])
    && (forall f | f in ext && f !in base :: merged[f] == ext[f])
    && (forall f | f in base && f in ext && !ListsMeet(base, ext, options.arrays, f) ::
          merged[f] == if options.baseWins then base[f] else ext[f])
    && (forall f | ListsMeet(base, ext, options.arrays, f) ::
          merged[f].List? && OnceInOrder(merged[f].elements, base[f].elements + ext[f].elements))
  }

  lemma MergedFields(base: Item, ext: Item, options: Options)
    ensures FieldsMerged(base, ext, options, Merged(base, ext, options))
  {
    forall f | ListsMeet(base, ext, options.arrays, f) {
      DedupIsOnce(base[f].elements + ext[f].elements);
    }
  }

  /** Without options the base wins and lists are not merged. */
  const DEFAULTS := Options(true, NoArrays)

  lemma BaseWinsByDefault(base: Item, ext: Item, f: string)
    requires f in base || f in ext
    ensures f in Merged(base, ext, DEFAULTS)
    ensures Merged(base, ext, DEFAULTS)[f] == if f in base then base[f] else ext[f]
  {
    MergedFields(base, ext, DEFAULTS);
  }

  method MergeArrays(base: Item, ext: Item, options: Options) returns (merged: Item)
    ensures merged.Keys == base.Keys + ext.Keys
    ensures forall f | f in merged :: merged[f] == MergedField(base, ext, f, options)
  {
    merged := Spread(base, ext, options.baseWins);
    var left := merged.Keys;
    while left != {}
      invariant left <= merged.Keys == base.Keys + ext.Keys
      invariant forall f | f in merged ::
                  merged[f] == if f in left then Spread(base, ext, options.baseWins)[f]
                               else MergedField(base, ext, f, options)
      decreases |left|
    {
      var field: string :| field in left;
      if MergesArray(options.arrays, field) && BothLists(base, ext, field) {
        merged := merged[field := List(Dedup(base[field].elements + ext[field].elements))];
      }
      left := left - {field};
    }
  }

  method MergeItems(base: Item, ext: Item, options: Options) returns (merged: Item)
    ensures merged == Merged(base, ext, options)
    ensures FieldsMerged(base, ext, options, merged)
  {
    MergedFields(base, ext, options);
    if options.arrays.NoArrays? {
      merged := Spread(base, ext, options.baseWins);
    } else {
      merged := MergeArrays(base, ext, options);
    }
  }

  /*** Extending a collection ***/

  /** The first base item with a key gets the last extension item with that key. */
  function Resolved(base: Pairs<Item>, ext: Pairs<Item>, i: nat, options: Options): Item
    requires i < |base|
  {
    if Has(ext, base[i].0) && !Has(base[..i], base[i].0)
    then Merged(base[i].1, LastValue(ext, base[i].0), options) else base[i].1
  }

  /** The first `n` extended items are as they should be. */
  ghost predicate AllResolved(base: Pairs<Item>, ext: Pairs<Item>, extended: seq<Item>, n: nat, options: Options) {
    && |extended| == n <= |base|
    && forall i: nat | i < n :: extended[i] == Resolved(base, ext, i, options)
  }

  /** The keys that no base item has. */
  function Leftover(keys: seq<string>, base: Pairs<Item>): (r: seq<string>)
    ensures forall k :: k in r <==> k in keys && !Has(base, k)
  {
    if keys == [] then [] else (if Has(base, keys[0]) then [] else [keys[0]]) + Leftover(keys[1..], base)
  }

  /** The pairs whose key no base item has. */
  function Without(m: Pairs<Item>, base: Pairs<Item>): Pairs<Item> {
    if m == [] then [] else (if Has(base, m[0].0) then [] else [m[0]]) + Without(m[1..], base)
  }

  lemma WithoutCons(m: Pairs<Item>, base: Pairs<Item>)
    requires m != []
    ensures Without(m, base) == if Has(base, m[0].0) then Without(m[1..], base) else [m[0]] + Without(m[1..], base)
  {
  }

  lemma {:induction false} WithoutHas(m: Pairs<Item>, base: Pairs<Item>, key: string)
    ensures Has(Without(m, base), key) <==> Has(m, key) && !Has(base, key)
    ensures Has(Without(m, base), key) ==> Without(m, base)[Index(Without(m, base), key)] == m[Index(m, key)]
  {
    if m != [] {
      WithoutHas(m[1..], base, key);
      WithoutCons(m, base);
    }
  }

  lemma {:induction false} RemoveAbsent(m: Pairs<Item>, base: Pairs<Item>, i: nat)
    requires i < |base| && !Has(m, base[i].0)
    ensures Without(m, base[..i + 1]) == Without(m, base[..i])
  {
    if m != [] {
      HasIff(m, base[i].0);
      HasIff(m[1..], base[i].0);
      RemoveAbsent(m[1..], base, i);
      HasStep(base, i, m[0].0);
    }
  }

  lemma {:induction false} RemoveOther(m: Pairs<Item>, key: string)
    requires !Has(m, key)
    ensures Remove(m, key) == m
  {
    if m != [] {
      RemoveOther(m[1..], key);
    }
  }

  /** Deleting a key from the map is taking one more base item into account. */
  lemma {:induction false} WithoutStep(m: Pairs<Item>, base: Pairs<Item>, i: nat)
    requires i < |base| && Unique(m)
    ensures Without(m, base[..i + 1]) == Remove(Without(m, base[..i]), base[i].0)
  {
    if m != [] {
      var key, rest := base[i].0, m[1..];
      HasStep(base, i, m[0].0);
      WithoutCons(m, base[..i]);
      WithoutCons(m, base[..i + 1]);
      if m[0].0 == key {
        HasIff(rest, key);
        RemoveAbsent(rest, base, i);
        WithoutHas(rest, base[..i], key);
        RemoveOther(Without(rest, base[..i]), key);
      } else {
        WithoutStep(rest, base, i);
      }
    }
  }

  lemma {:induction false} WithoutNothing(m: Pairs<Item>)
    ensures Without(m, []) == m
  {
    if m != [] {
      WithoutNothing(m[1..]);
    }
  }

  lemma {:induction false} LeftoverValues(m: Pairs<Item>, keys: seq<string>, base: Pairs<Item>)
    requires |m| == |keys| && forall j | 0 <= j < |m| :: m[j].0 == keys[j]
    ensures var r := Without(m, base);
            |r| == |Leftover(keys, base)| && forall j | 0 <= j < |r| :: r[j].0 == Leftover(keys, base)[j]
    ensures forall p | p in Without(m, base) :: p in m
  {
    if m != [] {
      LeftoverValues(m[1..], keys[1..], base);
    }
  }

  /** What is left in the map at the end: the last extension item for each key that no base item has. */
  lemma LeftoverItems(base: Pairs<Item>, ext: Pairs<Item>)
    ensures var r, keys := Without(FromEntries(ext), base), Leftover(FirstKeys(ext), base);
            |r| == |keys| && forall j | 0 <= j < |r| :: r[j] == (keys[j], LastValue(ext, keys[j]))
  {
    var m := FromEntries(ext);
    var r := Without(m, base);
    FromEntriesIs(ext);
    LeftoverValues(m, FirstKeys(ext), base);
    forall j | 0 <= j < |r| ensures r[j] == (Leftover(FirstKeys(ext), base)[j], LastValue(ext, r[j].0)) {
      assert r[j] in r;
      var i :| 0 <= i < |m| && m[i] == r[j];
    }
  }

  lemma LookupFinds(base: Pairs<Item>, ext: Pairs<Item>, i: nat)
    requires i < |base|
    ensures var m := Without(FromEntries(ext), base[..i]);
            && (Has(m, base[i].0) <==> Has(ext, base[i].0) && !Has(base[..i], base[i].0))
            && (Has(m, base[i].0) ==> m[Index(m, base[i].0)].1 == LastValue(ext, base[i].0))
  {
    var key, all, keys := base[i].0, FromEntries(ext), FirstKeys(ext);
    FromEntriesIs(ext);
    WithoutHas(all, base[..i], key);
    HasIff(all, key);
    assert Has(ext, key) <==> key in keys;
    if key in keys {
      var j :| 0 <= j < |keys| && keys[j] == key;
      assert all[j].0 == key;
    }
  }

  method Lookup(extension: seq<Item>, fields: seq<string>) returns (m: Pairs<Item>)
    ensures m == FromEntries(Keyed(extension, fields)) && Unique(m)
  {
    ghost var ext := Keyed(extension, fields);
    m := [];
    var i := 0;
    while i < |extension|
      invariant i <= |extension| == |ext| && m == FromEntries(ext[..i])
    {
      assert ext[..i + 1][..i] == ext[..i];
      m := Put(m, GetKey(extension[i], fields), extension[i]);
      i := i + 1;
    }
    assert ext[..i] == ext;
    FromEntriesIs(ext);
  }

  method ExtendItem(item: Item, key: string, lookup: Pairs<Item>, options: Options) returns (resolved: Item,
                    left: Pairs<Item>)
    ensures resolved == if Has(lookup, key) then Merged(item, lookup[Index(lookup, key)].1, options) else item
    ensures left == Remove(lookup, key)
  {
    if Has(lookup, key) {
      left := Remove(lookup, key);
      resolved := MergeItems(item, lookup[Index(lookup, key)].1, options);
    } else {
      RemoveOther(lookup, key);
      resolved, left := item, lookup;
    }
  }

  lemma ResolvedNext(base: Pairs<Item>, ext: Pairs<Item>, extended: seq<Item>, item: Item, options: Options)
    requires AllResolved(base, ext, extended, |extended|, options) && |extended| < |base|
    requires item == Resolved(base, ext, |extended|, options)
    ensures AllResolved(base, ext, extended + [item], |extended| + 1, options)
  {
  }

  method ExtendBase(collection: seq<Item>, start: Pairs<Item>, ghost ext: Pairs<Item>, fields: seq<string>,
                    options: Options)
    returns (extended: seq<Item>, lookup: Pairs<Item>)
    requires start == FromEntries(ext) && Unique(start)
    ensures AllResolved(Keyed(collection, fields), ext, extended, |collection|, options)
    ensures lookup == Without(start, Keyed(collection, fields))
  {
    ghost var base := Keyed(collection, fields);
    lookup, extended := start, [];
    WithoutNothing(start);
    var i := 0;
    while i < |collection|
      invariant i <= |collection| == |base| && lookup == Without(start, base[..i])
      invariant AllResolved(base, ext, extended, i, options)
    {
      LookupFinds(base, ext, i);
      WithoutStep(start, base, i);
      var resolved;
      resolved, lookup := ExtendItem(collection[i], GetKey(collection[i], fields), lookup, options);
      ResolvedNext(base, ext, extended, resolved, options);
      extended := extended + [resolved];
      i := i + 1;
    }
    assert base[..i] == base;
  }

  method AppendLeft(lookup: Pairs<Item>, extended: seq<Item>) returns (all: seq<Item>, unmatched: seq<Item>)
    ensures |unmatched| == |lookup| && (forall j | 0 <= j < |lookup| :: unmatched[j] == lookup[j].1)
    ensures all == extended + unmatched
  {
    all, unmatched := extended, [];
    var j := 0;
    while j < |lookup|
      invariant j <= |lookup| && all == extended + unmatched
      invariant |unmatched| == j && forall k | 0 <= k < j :: unmatched[k] == lookup[k].1
    {
      unmatched, all := unmatched + [lookup[j].1], all + [lookup[j].1];
      j := j + 1;
    }
  }

  /** No earlier item has the key of this one. */
  predicate IsFirst(items: seq<Item>, fields: seq<string>, i: nat)
    requires i < |items|
  {
    forall j | 0 <= j < i :: GetKey(items[j], fields) != GetKey(items[i], fields)
  }

  /** No later item has the key of this one. */
  predicate IsLast(items: seq<Item>, fields: seq<string>, i: nat)
    requires i < |items|
  {
    forall j | i < j < |items| :: GetKey(items[j], fields) != GetKey(items[i], fields)
  }

  predicate Matches(collection: seq<Item>, extension: seq<Item>, fields: seq<string>, i: nat, k: nat) {
    && i < |collection| && k < |extension| && GetKey(collection[i], fields) == GetKey(extension[k], fields)
    && IsFirst(collection, fields, i) && IsLast(extension, fields, k)
  }

  predicate Unmatched(collection: seq<Item>, extension: seq<Item>, fields: seq<string>, i: nat)
    requires i < |collection|
  {
    || !IsFirst(collection, fields, i)
    || forall k | 0 <= k < |extension| :: GetKey(extension[k], fields) != GetKey(collection[i], fields)
  }

  lemma ExtendedItem(collection: seq<Item>, extension: seq<Item>, fields: seq<string>, options: Options, i: nat,
                     k: nat)
    requires Matches(collection, extension, fields, i, k)
    ensures FieldsMerged(collection[i], extension[k], options,
                         Resolved(Keyed(collection, fields), Keyed(extension, fields), i, options))
  {
    var base, ext := Keyed(collection, fields), Keyed(extension, fields);
    LastValueIsLast(ext, k);
    HasIff(base[..i], base[i].0);
    MergedFields(collection[i], extension[k], options);
  }

  lemma KeptItem(collection: seq<Item>, extension: seq<Item>, fields: seq<string>, options: Options, i: nat)
    requires i < |collection| && Unmatched(collection, extension, fields, i)
    ensures Resolved(Keyed(collection, fields), Keyed(extension, fields), i, options) == collection[i]
  {
    var base, ext := Keyed(collection, fields), Keyed(extension, fields);
    HasIff(ext, base[i].0);
    HasIff(base[..i], base[i].0);
    if j :| 0 <= j < i && GetKey(collection[j], fields) == GetKey(collection[i], fields) {
      assert base[..i][j].0 == base[i].0;
    }
  }

  /** The first base item of a key is merged with the last extension item of that key; the others are kept. */
  ghost predicate Extends(collection: seq<Item>, extension: seq<Item>, fields: seq<string>, options: Options,
                          extended: seq<Item>) {
    && |extended| == |collection|
    && (forall i: nat, k: nat | Matches(collection, extension, fields, i, k) ::
          FieldsMerged(collection[i], extension[k], options, extended[i]))
    && (forall i: nat | i < |collection| && Unmatched(collection, extension, fields, i) ::
          extended[i] == collection[i])
  }

  lemma ExtendedMeans(collection: seq<Item>, extension: seq<Item>, fields: seq<string>, options: Options,
                      extended: seq<Item>)
    requires AllResolved(Keyed(collection, fields), Keyed(extension, fields), extended, |collection|, options)
    ensures Extends(collection, extension, fields, options, extended)
  {
    forall i: nat, k: nat | Matches(collection, extension, fields, i, k)
      ensures FieldsMerged(collection[i], extension[k], options, extended[i])
    {
      ExtendedItem(collection, extension, fields, options, i, k);
    }
    forall i: nat | i < |collection| && Unmatched(collection, extension, fields, i)
      ensures extended[i] == collection[i]
    {
      KeptItem(collection, extension, fields, options, i);
    }
  }

  method ExtendCollection(collection: seq<Item>, extension: seq<Item>, fields: seq<string>, options: Options)
    returns (all: seq<Item>, extended: seq<Item>, unmatched: seq<Item>)
    ensures AllResolved(Keyed(collection, fields), Keyed(extension, fields), extended, |collection|, options)
    ensures Extends(collection, extension, fields, options, extended)
    ensures var keys := Leftover(FirstKeys(Keyed(extension, fields)), Keyed(collection, fields));
            && |unmatched| == |keys|
            && forall j | 0 <= j < |keys| :: unmatched[j] == LastValue(Keyed(extension, fields), keys[j])
    ensures all == extended + unmatched
  {
    var lookup := Lookup(extension, fields);
    extended, lookup := ExtendBase(collection, lookup, Keyed(extension, fields), fields, options);
    LeftoverItems(Keyed(collection, fields), Keyed(extension, fields));
    all, unmatched := AppendLeft(lookup, extended);
    ExtendedMeans(collection, extension, fields, options, extended);
  }

  lemma {:induction false} LeftoverOnce(keys: seq<string>, base: Pairs<Item>)
    requires NoRepeats(keys)
    ensures NoRepeats(Leftover(keys, base))
  {
    if keys != [] {
      var rest := Leftover(keys[1..], base);
      assert keys == [keys[0]] + keys[1..];
      NoRepeatsFirst(keys[0], keys[1..]);
      LeftoverOnce(keys[1..], base);
      NoRepeatsFirst(keys[0], rest);
      assert Leftover(keys, base) == if Has(base, keys[0]) then rest else [keys[0]] + rest;
    }
  }

  /** An extension item whose key some base item has extends the first such item ... */
  lemma MatchedKey(base: Pairs<Item>, ext: Pairs<Item>, key: string, options: Options)
    requires Has(ext, key) && Has(base, key)
    ensures key !in Leftover(FirstKeys(ext), base)
    ensures var n := Index(base, key);
            Resolved(base, ext, n, options) == Merged(base[n].1, LastValue(ext, key), options)
  {
    HasIff(base[..Index(base, key)], key);
  }

  /** ... and any other is left over exactly once. */
  lemma UnmatchedKey(base: Pairs<Item>, ext: Pairs<Item>, key: string) returns (j: nat)
    requires Has(ext, key) && !Has(base, key)
    ensures var keys := Leftover(FirstKeys(ext), base);
            j < |keys| && keys[j] == key && forall i | 0 <= i < |keys| && keys[i] == key :: i == j
  {
    var keys := Leftover(FirstKeys(ext), base);
    assert key in FirstKeys(ext);
    LeftoverOnce(FirstKeys(ext), base);
    j :| j < |keys| && keys[j] == key;
  }

  ghost predicate InOrder(entries: Pairs<Item>, keys: seq<string>) {
    forall i, j | 0 <= i < j < |keys| :: Index(entries, keys[i]) < Index(entries, keys[j])
  }

  lemma {:induction false} InOrderFirst(entries: Pairs<Item>, key: string, rest: seq<string>)
    requires InOrder(entries, rest) && forall k | k in rest :: Index(entries, key) < Index(entries, k)
    ensures InOrder(entries, [key] + rest)
  {
    var all := [key] + rest;
    forall i, j | 0 <= i < j < |all| ensures Index(entries, all[i]) < Index(entries, all[j]) {
      assert all[j] == rest[j - 1] && all[j] in rest;
      assert i > 0 ==> all[i] == rest[i - 1];
    }
  }

  lemma {:induction false} InOrderRest(entries: Pairs<Item>, keys: seq<string>)
    requires keys != [] && InOrder(entries, keys)
    ensures InOrder(entries, keys[1..]) && forall k | k in keys[1..] :: Index(entries, keys[0]) < Index(entries, k)
  {
    forall k | k in keys[1..] ensures Index(entries, keys[0]) < Index(entries, k) {
      var j :| 0 <= j < |keys[1..]| && keys[1..][j] == k;
      assert keys[j + 1] == k;
    }
  }

  lemma {:induction false} LeftoverInOrder(entries: Pairs<Item>, keys: seq<string>, base: Pairs<Item>)
    requires InOrder(entries, keys)
    ensures InOrder(entries, Leftover(keys, base))
  {
    if keys != [] {
      var rest := Leftover(keys[1..], base);
      InOrderRest(entries, keys);
      LeftoverInOrder(entries, keys[1..], base);
      InOrderFirst(entries, keys[0], rest);
      assert Leftover(keys, base) == if Has(base, keys[0]) then rest else [keys[0]] + rest;
    }
  }

  /** What is left over comes in the order of the first occurrences of the keys. */
  lemma UnmatchedInOrder(base: Pairs<Item>, ext: Pairs<Item>)
    ensures InOrder(ext, Leftover(FirstKeys(ext), base))
  {
    var keys := FirstKeys(ext);
    forall a, b | 0 <= a < b < |keys| ensures Index(ext, keys[a]) < Index(ext, keys[b]) {
      FirstKeysInOrder(ext, a, b);
    }
    LeftoverInOrder(ext, keys, base);
  }

  /** A base item that is not the first one with its key, or whose key the extension lacks, is unchanged. */
  lemma OthersUnchanged(base: Pairs<Item>, ext: Pairs<Item>, i: nat, options: Options)
    requires i < |base|
    ensures i != Index(base, base[i].0) || !Has(ext, base[i].0) ==> Resolved(base, ext, i, options) == base[i].1
  {
    var n := Index(base, base[i].0);
    if n < i {
      HasIff(base[..i], base[i].0);
      assert base[..i][n].0 == base[i].0;
    }
  }

  /*** Merging sources ***/

  datatype Sourced = Sourced(item: Item, sources: seq<string>)

  type Entries = Pairs<(string, Item)>

  /** The items of one collection, each with its key and the name of the collection. */
  function Named(name: string, items: seq<Item>, fields: seq<string>): Entries {
    if items == [] then []
    else
      var last := items[|items| - 1];
      Named(name, items[..|items| - 1], fields) + [(GetKey(last, fields), (name, last))]
  }

  function Flat(collections: map<string, seq<Item>>, precedence: seq<string>, fields: seq<string>): Entries
    requires forall n | n in precedence :: n in collections
  {
    if precedence == [] then []
    else
      var last := precedence[|precedence| - 1];
      Flat(collections, precedence[..|precedence| - 1], fields) + Named(last, collections[last], fields)
  }

  /** The collections that have the key, one for each occurrence. */
  function SourcesOf(entries: Entries, key: string): seq<string> {
    if entries == [] then []
    else
      var last := entries[|entries| - 1];
      SourcesOf(entries[..|entries| - 1], key) + (if last.0 == key then [last.1.0] else [])
  }

  /** The first item with the key; a field called `sources` is replaced. */
  function Collected(entries: Entries, key: string): Sourced
    requires Has(entries, key)
  {
    Sourced(entries[Index(entries, key)].1.1 - {"sources"}, SourcesOf(entries, key))
  }

  lemma {:induction false} NamedItems(name: string, items: seq<Item>, fields: seq<string>)
    ensures |Named(name, items, fields)| == |items|
    ensures forall i | 0 <= i < |items| :: Named(name, items, fields)[i] == (GetKey(items[i], fields), (name, items[i]))
  {
    if items != [] {
      NamedItems(name, items[..|items| - 1], fields);
    }
  }

  /** The collections follow each other as the precedence says. */
  lemma {:induction false} FlatInOrder(collections: map<string, seq<Item>>, a: seq<string>, b: seq<string>,
                                       fields: seq<string>)
    requires forall n | n in a + b :: n in collections
    ensures Flat(collections, a + b, fields) == Flat(collections, a, fields) + Flat(collections, b, fields)
  {
    if b == [] {
      assert a + b == a;
    } else {
      assert (a + b)[..|a + b| - 1] == a + b[..|b| - 1];
      FlatInOrder(collections, a, b[..|b| - 1], fields);
    }
  }

  lemma FlatOne(collections: map<string, seq<Item>>, name: string, fields: seq<string>)
    requires name in collections
    ensures Flat(collections, [name], fields) == Named(name, collections[name], fields)
  {
    assert [name][..0] == [];
  }

  /** The name of every entry with the key, in the order of the entries. */
  lemma {:induction false} SourcesInOrder(a: Entries, b: Entries, key: string)
    ensures SourcesOf(a + b, key) == SourcesOf(a, key) + SourcesOf(b, key)
  {
    if b == [] {
      assert a + b == a;
    } else {
      assert (a + b)[..|a + b| - 1] == a + b[..|b| - 1];
      SourcesInOrder(a, b[..|b| - 1], key);
    }
  }

  lemma SourceOne(key: string, name: string, item: Item, other: string)
    ensures SourcesOf([(key, (name, item))], other) == if key == other then [name] else []
  {
    assert SourcesOf([(key, (name, item))][..0], other) == [];
  }

  /** The item is the first one with its key, up to a field called `sources`. */
  lemma CollectedItem(entries: Entries, i: nat, f: string)
    requires i < |entries| && forall j | 0 <= j < i :: entries[j].0 != entries[i].0
    ensures Has(entries, entries[i].0)
    ensures var item := Collected(entries, entries[i].0).item;
            && (f in item <==> f in entries[i].1.1 && f != "sources")
            && (f in item ==> item[f] == entries[i].1.1[f])
  {
    HasIff(entries, entries[i].0);
  }

  function AddSource(m: Pairs<Sourced>, key: string, name: string, item: Item): Pairs<Sourced> {
    var n := Index(m, key);
    if n < |m| then m[n := (key, m[n].1.(sources := m[n].1.sources + [name]))]
    else m + [(key, Sourced(item - {"sources"}, [name]))]
  }

  function AddAll(m: Pairs<Sourced>, entries: Entries): Pairs<Sourced> {
    if entries == [] then m
    else
      var last := entries[|entries| - 1];
      AddSource(AddAll(m, entries[..|entries| - 1]), last.0, last.1.0, last.1.1)
  }

  lemma {:induction false} SourcesOfAbsent(entries: Entries, key: string)
    requires !Has(entries, key)
    ensures SourcesOf(entries, key) == []
  {
    if entries != [] {
      var last: nat := |entries| - 1;
      HasStep(entries, last, key);
      assert entries[..last + 1] == entries;
      SourcesOfAbsent(entries[..last], key);
    }
  }

  lemma CollectedStep(entries: Entries, key: string)
    requires entries != [] && Has(entries[..|entries| - 1], key)
    ensures Has(entries, key)
    ensures var last, before := entries[|entries| - 1], Collected(entries[..|entries| - 1], key);
            Collected(entries, key) == if last.0 == key then before.(sources := before.sources + [last.1.0]) else before
  {
    IndexInFront(entries, key);
  }

  lemma CollectedNew(entries: Entries)
    requires entries != [] && !Has(entries[..|entries| - 1], entries[|entries| - 1].0)
    ensures var last := entries[|entries| - 1];
            Has(entries, last.0) && Collected(entries, last.0) == Sourced(last.1.1 - {"sources"}, [last.1.0])
  {
    var last := entries[|entries| - 1];
    HasIff(entries, last.0);
    SourcesOfAbsent(entries[..|entries| - 1], last.0);
  }

  /** One pair for each distinct key in the order of the first occurrences, agreeing with a scan. */
  ghost predicate Agrees(m: Pairs<Sourced>, entries: Entries) {
    var keys := FirstKeys(entries);
    |m| == |keys| && forall j | 0 <= j < |m| :: m[j] == (keys[j], Collected(entries, keys[j]))
  }

  lemma {:induction false} AddAllAgrees(entries: Entries)
    ensures Agrees(AddAll([], entries), entries)
  {
    if entries != [] {
      var front, last := entries[..|entries| - 1], entries[|entries| - 1];
      AddAllAgrees(front);
      var m, keys := AddAll([], front), FirstKeys(front);
      HasIff(m, last.0);
      assert Has(m, last.0) <==> last.0 in keys;
      forall k | k in keys ensures Has(entries, k) {
        CollectedStep(entries, k);
      }
      forall j | 0 <= j < |keys|
        ensures AddSource(m, last.0, last.1.0, last.1.1)[j] == (keys[j], Collected(entries, keys[j]))
      {
        assert keys[j] in keys;
        CollectedStep(entries, keys[j]);
      }
      if last.0 !in keys {
        CollectedNew(entries);
      }
    }
  }

  lemma {:induction false} AddAllAppend(m: Pairs<Sourced>, a: Entries, b: Entries)
    ensures AddAll(m, a + b) == AddAll(AddAll(m, a), b)
  {
    if b == [] {
      assert a + b == a;
    } else {
      assert (a + b)[..|a + b| - 1] == a + b[..|b| - 1];
      AddAllAppend(m, a, b[..|b| - 1]);
    }
  }

  method AddItems(start: Pairs<Sourced>, name: string, items: seq<Item>,
                  fields: seq<string>) returns (m: Pairs<Sourced>)
    ensures m == AddAll(start, Named(name, items, fields))
  {
    m := start;
    var i := 0;
    while i < |items|
      invariant i <= |items| && m == AddAll(start, Named(name, items[..i], fields))
    {
      assert items[..i + 1][..i] == items[..i];
      var key := GetKey(items[i], fields);
      ghost var entries := Named(name, items[..i], fields);
      assert (entries + [(key, (name, items[i]))])[..|entries|] == entries;
      var n := Index(m, key);
      if n < |m| {
        m := m[n := (key, m[n].1.(sources := m[n].1.sources + [name]))];
      } else {
        m := m + [(key, Sourced(items[i] - {"sources"}, [name]))];
      }
      i := i + 1;
    }
    assert items[..i] == items;
  }

  function Seconds(m: Pairs<Sourced>): (r: seq<Sourced>)
    ensures |r| == |m| && forall i | 0 <= i < |r| :: r[i] == m[i].1
  {
    seq(|m|, i requires 0 <= i < |m| => m[i].1)
  }

  method AddCollections(collections: map<string, seq<Item>>, precedence: seq<string>, fields: seq<string>)
    returns (m: Pairs<Sourced>)
    requires forall n | n in precedence :: n in collections
    ensures m == AddAll([], Flat(collections, precedence, fields))
  {
    m := [];
    var i := 0;
    while i < |precedence|
      invariant i <= |precedence| && m == AddAll([], Flat(collections, precedence[..i], fields))
    {
      assert precedence[..i + 1][..i] == precedence[..i];
      AddAllAppend([], Flat(collections, precedence[..i], fields),
                   Named(precedence[i], collections[precedence[i]], fields));
      m := AddItems(m, precedence[i], collections[precedence[i]], fields);
      i := i + 1;
    }
    assert precedence[..i] == precedence;
  }

  method MergeSources(collections: map<string, seq<Item>>, precedence: seq<string>, fields: seq<string>)
    returns (r: seq<Sourced>)
    requires forall n | n in precedence :: n in collections
    ensures var flat := Flat(collections, precedence, fields);
            var keys := FirstKeys(flat);
            |r| == |keys| && forall j | 0 <= j < |keys| :: r[j] == Collected(flat, keys[j])
    ensures TotalSources(r) == |Flat(collections, precedence, fields)|
  {
    var m := AddCollections(collections, precedence, fields);
    AddAllAgrees(Flat(collections, precedence, fields));
    SourcesCountAll(Flat(collections, precedence, fields));
    r := Seconds(m);
  }

  function TotalSources(r: seq<Sourced>): nat {
    if r == [] then 0 else TotalSources(r[..|r| - 1]) + |r[|r| - 1].sources|
  }

  lemma {:induction false} TotalUpdate(r: seq<Sourced>, n: nat, s: Sourced)
    requires n < |r|
    ensures TotalSources(r[n := s]) + |r[n].sources| == TotalSources(r) + |s.sources|
  {
    var last := |r| - 1;
    if n == last {
      assert r[n := s][..last] == r[..last];
    } else {
      assert r[n := s][..last] == r[..last][n := s];
      TotalUpdate(r[..last], n, s);
    }
  }

  /** Every occurrence in the input is counted once among the sources. */
  lemma {:induction false} SourcesCountAll(entries: Entries)
    ensures TotalSources(Seconds(AddAll([], entries))) == |entries|
  {
    if entries != [] {
      var front, last := entries[..|entries| - 1], entries[|entries| - 1];
      SourcesCountAll(front);
      var m := AddAll([], front);
      var n := Index(m, last.0);
      var after := AddSource(m, last.0, last.1.0, last.1.1);
      if n < |m| {
        TotalUpdate(Seconds(m), n, after[n].1);
        assert Seconds(after) == Seconds(m)[n := after[n].1];
      } else {
        assert Seconds(after)[..|m|] == Seconds(m);
      }
    }
  }
}
