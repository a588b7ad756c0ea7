/** Editing the proxy file: what stays, what is added, and what is read afterwards. */
module ProxyEditing {
  import opened Events
  import opened Sequences
  import opened Text
  import opened ProxyFile
  import opened ProxyLines

  ghost predicate OfSlots(settings: Settings) {
    forall k | k in settings :: exists slot :: k == Key(slot)
  }

  /*** Which lines change ***/

  lemma {:induction false} EditAt(lines: seq<string>, settings: Settings, i: nat)
    requires i < |lines|
    ensures Edit(lines, settings)[i] == EditLine(lines[i], settings)
  {
    var last := |lines| - 1;
    if i < last {
      EditAt(lines[..last], settings, i);
      assert lines[..last][i] == lines[i];
    }
  }

  /** The lines that are added: one for each key that no line begins with, in the order of the hash table. */
  lemma {:induction false} MissingAre(lines: seq<string>, settings: Settings, order: seq<string>, line: string)
    requires forall k | k in order :: k in settings
    ensures line in Missing(lines, settings, order)
            <==> exists k | k in order :: !HasKeyLine(lines, k) && line == Written(k, settings[k])
  {
    if order != [] {
      var last := |order| - 1;
      MissingAre(lines, settings, order[..last], line);
      assert order == order[..last] + [order[last]];
    }
  }

  lemma {:induction false} MissingOnce(lines: seq<string>, settings: Settings, order: seq<string>)
    requires OfSlots(settings) && (forall k | k in order :: k in settings) && NoRepeats(order)
    ensures NoRepeats(Missing(lines, settings, order))
  {
    if order != [] {
      var last := |order| - 1;
      var front, key := Missing(lines, settings, order[..last]), order[last];
      MissingOnce(lines, settings, order[..last]);
      if Written(key, settings[key]) in front {
        MissingAre(lines, settings, order[..last], Written(key, settings[key]));
        var i: nat :| i < last && Written(key, settings[key]) == Written(order[i], settings[order[i]]);
        assert key in order && order[i] in order;
        WrittenBegins(key, settings[key], settings);
        WrittenBegins(order[i], settings[order[i]], settings);
        assert false;
      }
    }
  }

  /** Every line stays at its place; those that begin with a key of the configuration are rewritten ... */
  lemma WriteKeepsLines(lines: seq<string>, settings: Settings, order: seq<string>, i: nat)
    requires Enumerates(order, settings.Keys) && i < |lines|
    ensures var r := WriteLines(lines, settings, order);
            && |lines| <= |r|
            && (forall k | k in settings && KeyOf(lines[i]) == Some(k) :: r[i] == Written(k, settings[k]))
            && ((forall k | k in settings :: KeyOf(lines[i]) != Some(k)) ==> r[i] == lines[i])
  {
    EditAt(lines, settings, i);
  }

  function Appended(lines: seq<string>, settings: Settings, order: seq<string>): seq<string>
    requires forall k | k in order :: k in settings
  {
    WriteLines(lines, settings, order)[|lines|..]
  }

  /** ... and exactly the missing keys are appended, each once. */
  lemma WriteAppends(lines: seq<string>, settings: Settings, order: seq<string>)
    requires OfSlots(settings) && Enumerates(order, settings.Keys)
    ensures NoRepeats(Appended(lines, settings, order))
    ensures forall line :: line in Appended(lines, settings, order)
              <==> exists k | k in settings :: !HasKeyLine(lines, k) && line == Written(k, settings[k])
  {
    assert Appended(lines, settings, order) == Missing(lines, settings, order);
    MissingOnce(lines, settings, order);
    forall line ensures line in Missing(lines, settings, order)
                        <==> exists k | k in settings :: !HasKeyLine(lines, k) && line == Written(k, settings[k])
    {
      MissingAre(lines, settings, order, line);
    }
  }

  /** The order of the hash table only decides the order of the appended lines. */
  lemma OrderMovesAppended(lines: seq<string>, settings: Settings, order: seq<string>, other: seq<string>)
    requires OfSlots(settings) && Enumerates(order, settings.Keys) && Enumerates(other, settings.Keys)
    ensures WriteLines(lines, settings, order)[..|lines|] == WriteLines(lines, settings, other)[..|lines|]
    ensures forall line :: line in Appended(lines, settings, order) <==> line in Appended(lines, settings, other)
  {
    WriteAppends(lines, settings, order);
    WriteAppends(lines, settings, other);
  }

  lemma WrittenBegins(key: string, value: string, settings: Settings)
    requires OfSlots(settings) && key in settings
    ensures KeyOf(Written(key, value)) == Some(key)
  {
    var slot :| key == Key(slot);
    WrittenMeans(slot, value);
  }

  lemma EditedTwice(line: string, settings: Settings)
    requires OfSlots(settings)
    ensures EditLine(EditLine(line, settings), settings) == EditLine(line, settings)
  {
    if KeyOf(line).Some? && KeyOf(line).value in settings {
      WrittenBegins(KeyOf(line).value, settings[KeyOf(line).value], settings);
    }
  }

  lemma EditNothing(lines: seq<string>, settings: Settings)
    requires forall i: nat | i < |lines| :: EditLine(lines[i], settings) == lines[i]
    ensures Edit(lines, settings) == lines
  {
    forall i: nat | i < |lines| ensures Edit(lines, settings)[i] == lines[i] {
      EditAt(lines, settings, i);
    }
  }

  lemma {:induction false} MissingNothing(lines: seq<string>, settings: Settings, order: seq<string>)
    requires forall k | k in order :: k in settings && HasKeyLine(lines, k)
    ensures Missing(lines, settings, order) == []
  {
    if order != [] {
      MissingNothing(lines, settings, order[..|order| - 1]);
      assert order[|order| - 1] in order;
    }
  }

  lemma KeyStays(lines: seq<string>, settings: Settings, k: string)
    requires OfSlots(settings) && k in settings && HasKeyLine(lines, k)
    ensures HasKeyLine(Edit(lines, settings), k)
  {
    var i: nat :| i < |lines| && BeginsWithKey(lines, i, k);
    EditAt(lines, settings, i);
    WrittenBegins(k, settings[k], settings);
    assert BeginsWithKey(Edit(lines, settings), i, k);
  }

  lemma KeyIsAdded(lines: seq<string>, settings: Settings, order: seq<string>, k: string)
    requires OfSlots(settings) && Enumerates(order, settings.Keys) && k in settings && !HasKeyLine(lines, k)
    ensures HasKeyLine(Missing(lines, settings, order), k)
  {
    var missing := Missing(lines, settings, order);
    assert k in order;
    MissingAre(lines, settings, order, Written(k, settings[k]));
    var i: nat :| i < |missing| && missing[i] == Written(k, settings[k]);
    WrittenBegins(k, settings[k], settings);
    assert BeginsWithKey(missing, i, k);
  }

  lemma KeyIsThere(lines: seq<string>, settings: Settings, order: seq<string>, k: string)
    requires OfSlots(settings) && Enumerates(order, settings.Keys) && k in settings
    ensures HasKeyLine(WriteLines(lines, settings, order), k)
  {
    HasKeyLineAppend(Edit(lines, settings), Missing(lines, settings, order), k);
    if HasKeyLine(lines, k) {
      KeyStays(lines, settings, k);
    } else {
      KeyIsAdded(lines, settings, order, k);
    }
  }

  lemma {:induction false} MissingIsFinal(lines: seq<string>, settings: Settings, order: seq<string>, line: string)
    requires OfSlots(settings) && Enumerates(order, settings.Keys) && line in Missing(lines, settings, order)
    ensures EditLine(line, settings) == line
  {
    MissingAre(lines, settings, order, line);
    var k :| k in order && line == Written(k, settings[k]);
    WrittenBegins(k, settings[k], settings);
  }

  lemma {:induction false} OnceIsFinal(lines: seq<string>, settings: Settings, order: seq<string>, i: nat)
    requires OfSlots(settings) && Enumerates(order, settings.Keys) && i < |WriteLines(lines, settings, order)|
    ensures var line := WriteLines(lines, settings, order)[i]; EditLine(line, settings) == line
  {
    if i < |lines| {
      EditAt(lines, settings, i);
      EditedTwice(lines[i], settings);
    } else {
      MissingIsFinal(lines, settings, order, Missing(lines, settings, order)[i - |lines|]);
    }
  }

  /** Writing the same configuration again changes nothing, whatever the order of the hash table. */
  lemma SecondWriteSame(lines: seq<string>, settings: Settings, order: seq<string>, other: seq<string>)
    requires OfSlots(settings) && Enumerates(order, settings.Keys) && Enumerates(other, settings.Keys)
    ensures var once := WriteLines(lines, settings, order); WriteLines(once, settings, other) == once
  {
    var once := WriteLines(lines, settings, order);
    forall i: nat | i < |once| ensures EditLine(once[i], settings) == once[i] {
      OnceIsFinal(lines, settings, order, i);
    }
    EditNothing(once, settings);
    forall k | k in other ensures HasKeyLine(once, k) {
      KeyIsThere(lines, settings, order, k);
    }
    MissingNothing(once, settings, other);
  }
}
