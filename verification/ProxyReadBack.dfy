/** What is read from the proxy file after it was edited. */
module ProxyReadBack {
  import opened Events
  import opened Text
  import opened ProxyFile
  import opened ProxyLines
  import opened ProxyEditing

  /** What a slot is read as after writing this value for it: quotes at either end are lost. */
  function ReadBack(slot: Slot, value: string): Option<string> {
    Meaning(slot, TrimQuotes(value))
  }

  lemma EditedSlot(line: string, settings: Settings, slot: Slot)
    requires OfSlots(settings)
    ensures SlotOf(EditLine(line, settings), slot)
         == if KeyOf(line) == Some(Key(slot)) && Key(slot) in settings then ReadBack(slot, settings[Key(slot)])
            else SlotOf(line, slot)
  {
    if KeyOf(line).Some? && KeyOf(line).value in settings {
      var other :| KeyOf(line).value == Key(other);
      WrittenMeans(other, settings[Key(other)]);
      KeyLineSets(line, other);
      if other != slot {
        KeysDiffer(other, slot);
      }
    }
  }

  lemma {:induction false} LastAppend(a: seq<string>, b: seq<string>, slot: Slot)
    ensures Last(a + b, slot) == if Last(b, slot).Some? then Last(b, slot) else Last(a, slot)
  {
    if b == [] {
      assert a + b == a;
    } else {
      assert (a + b)[..|a + b| - 1] == a + b[..|b| - 1];
      LastAppend(a, b[..|b| - 1], slot);
    }
  }

  lemma WrittenSlot(other: Slot, value: string, slot: Slot)
    ensures SlotOf(Written(Key(other), value), slot) == if other == slot then ReadBack(slot, value) else None
    ensures Key(other) == Key(slot) <==> other == slot
  {
    WrittenMeans(other, value);
    if other != slot {
      KeysDiffer(other, slot);
    }
  }

  /** One more missing key, that of `other`. */
  lemma LastMissingStep(lines: seq<string>, settings: Settings, order: seq<string>, other: Slot, slot: Slot)
    requires order != [] && order[|order| - 1] == Key(other) && forall k | k in order :: k in settings
    ensures var before := Last(Missing(lines, settings, order[..|order| - 1]), slot);
            Last(Missing(lines, settings, order), slot)
            == if other == slot && !HasKeyLine(lines, Key(slot)) && ReadBack(slot, settings[Key(slot)]).Some?
               then ReadBack(slot, settings[Key(slot)]) else before
  {
    var front, key := order[..|order| - 1], Key(other);
    assert key in order;
    WrittenSlot(other, settings[key], slot);
    if !HasKeyLine(lines, key) {
      assert Missing(lines, settings, order) == Missing(lines, settings, front) + [Written(key, settings[key])];
    } else {
      assert Missing(lines, settings, order) == Missing(lines, settings, front);
    }
  }

  /** The appended lines set the slot exactly if its key was missing. */
  lemma {:induction false} LastMissing(lines: seq<string>, settings: Settings, order: seq<string>, slot: Slot)
    requires OfSlots(settings) && forall k | k in order :: k in settings
    ensures Last(Missing(lines, settings, order), slot)
         == if Key(slot) in order && !HasKeyLine(lines, Key(slot)) then ReadBack(slot, settings[Key(slot)]) else None
  {
    if order != [] {
      var front, key := order[..|order| - 1], order[|order| - 1];
      assert order == front + [key] && key in order;
      var other :| key == Key(other);
      LastMissing(lines, settings, front, slot);
      LastMissingStep(lines, settings, order, other, slot);
      WrittenSlot(other, "", slot);
    }
  }

  /** A line that is read as the slot, but that does not begin with its key, so that editing misses it. */
  predicate Alias(line: string, slot: Slot) {
    SlotOf(line, slot).Some? && KeyOf(line) != Some(Key(slot))
  }

  /** What the line at the end is read as after editing. */
  function EditedValue(line: string, settings: Settings, slot: Slot): Option<string> {
    if KeyOf(line) == Some(Key(slot)) && Key(slot) in settings then ReadBack(slot, settings[Key(slot)])
    else SlotOf(line, slot)
  }

  lemma HasKeyLineLast(lines: seq<string>, key: string)
    requires lines != []
    ensures HasKeyLine(lines, key) <==> HasKeyLine(lines[..|lines| - 1], key) || KeyOf(lines[|lines| - 1]) == Some(key)
  {
    HasKeyLineStep(lines, |lines| - 1, key);
    assert lines[..|lines| - 1 + 1] == lines;
  }

  lemma LastEdited(lines: seq<string>, settings: Settings, slot: Slot)
    requires OfSlots(settings) && lines != []
    ensures var last := |lines| - 1;
            var value := EditedValue(lines[last], settings, slot);
            Last(Edit(lines, settings), slot)
            == if value.Some? then value else Last(Edit(lines[..last], settings), slot)
  {
    var last := |lines| - 1;
    EditedSlot(lines[last], settings, slot);
  }

  /** A slot that the configuration does not mention keeps its value in every file. */
  lemma {:induction false} LastUnmentioned(lines: seq<string>, settings: Settings, slot: Slot)
    requires OfSlots(settings) && Key(slot) !in settings
    ensures Last(Edit(lines, settings), slot) == Last(lines, slot)
  {
    if lines != [] {
      LastUnmentioned(lines[..|lines| - 1], settings, slot);
      LastEdited(lines, settings, slot);
    }
  }

  predicate NoAlias(lines: seq<string>, slot: Slot) {
    forall i: nat | i < |lines| :: !Alias(lines[i], slot)
  }

  lemma {:induction false} LastWithoutAlias(lines: seq<string>, settings: Settings, slot: Slot)
    requires OfSlots(settings) && Key(slot) in settings && NoAlias(lines, slot)
    ensures Last(Edit(lines, settings), slot)
         == if HasKeyLine(lines, Key(slot)) then ReadBack(slot, settings[Key(slot)]) else None
  {
    if lines != [] {
      var last := |lines| - 1;
      assert forall i: nat | i < last :: lines[..last][i] == lines[i];
      LastWithoutAlias(lines[..last], settings, slot);
      LastEdited(lines, settings, slot);
      HasKeyLineLast(lines, Key(slot));
      assert !Alias(lines[last], slot);
    }
  }

  /** Each alias is followed by a line that begins with the key, unless no line does. */
  predicate AliasesAreFollowed(lines: seq<string>, slot: Slot) {
    HasKeyLine(lines, Key(slot)) ==>
      forall i: nat | i < |lines| && Alias(lines[i], slot) :: HasKeyLine(lines[i + 1..], Key(slot))
  }

  lemma FollowedInFront(lines: seq<string>, slot: Slot, i: nat)
    requires i < |lines| - 1 && KeyOf(lines[|lines| - 1]) != Some(Key(slot))
    ensures HasKeyLine(lines[i + 1..], Key(slot)) <==> HasKeyLine(lines[..|lines| - 1][i + 1..], Key(slot))
  {
    var last := |lines| - 1;
    assert lines[i + 1..] == lines[..last][i + 1..] + [lines[last]];
    HasKeyLineAppend(lines[..last][i + 1..], [lines[last]], Key(slot));
  }

  lemma FollowedFront(lines: seq<string>, slot: Slot)
    requires lines != [] && KeyOf(lines[|lines| - 1]) != Some(Key(slot))
    requires HasKeyLine(lines, Key(slot)) && AliasesAreFollowed(lines, slot)
    ensures AliasesAreFollowed(lines[..|lines| - 1], slot) && !Alias(lines[|lines| - 1], slot)
  {
    var last: nat := |lines| - 1;
    assert !HasKeyLine(lines[last + 1..], Key(slot));
    forall i: nat | i < last && Alias(lines[..last][i], slot) ensures HasKeyLine(lines[..last][i + 1..], Key(slot)) {
      assert lines[..last][i] == lines[i];
      FollowedInFront(lines, slot, i);
    }
  }

  lemma {:induction false} LastFollowed(lines: seq<string>, settings: Settings, slot: Slot)
    requires OfSlots(settings) && Key(slot) in settings && !slot.UrlSlot?
    requires HasKeyLine(lines, Key(slot)) && AliasesAreFollowed(lines, slot)
    ensures Last(Edit(lines, settings), slot) == ReadBack(slot, settings[Key(slot)])
  {
    LastEdited(lines, settings, slot);
    HasKeyLineLast(lines, Key(slot));
    if KeyOf(lines[|lines| - 1]) != Some(Key(slot)) {
      FollowedFront(lines, slot);
      LastFollowed(lines[..|lines| - 1], settings, slot);
    }
  }

  /** What the file must be like for the slot to be overridden by every configuration. */
  predicate Editable(lines: seq<string>, slot: Slot) {
    if slot.UrlSlot? then NoAlias(lines, slot) else AliasesAreFollowed(lines, slot)
  }

  /**
   Reading after writing: a slot of the configuration is read as its value, with an empty URL read as
   nothing; every other slot is read as before.
   */
  lemma ReadAfterWrite(lines: seq<string>, settings: Settings, order: seq<string>, slot: Slot)
    requires OfSlots(settings) && Enumerates(order, settings.Keys)
    requires Key(slot) in settings ==> Editable(lines, slot)
    ensures Last(WriteLines(lines, settings, order), slot)
         == if Key(slot) in settings then ReadBack(slot, settings[Key(slot)]) else Last(lines, slot)
  {
    LastAppend(Edit(lines, settings), Missing(lines, settings, order), slot);
    LastMissing(lines, settings, order, slot);
    if Key(slot) !in settings {
      LastUnmentioned(lines, settings, slot);
    } else if slot.UrlSlot? {
      LastWithoutAlias(lines, settings, slot);
    } else if HasKeyLine(lines, Key(slot)) {
      LastFollowed(lines, settings, slot);
    }
  }

  /*** The condition is needed ***/

  lemma {:induction false} LastSome(lines: seq<string>, slot: Slot, i: nat)
    requires i < |lines| && SlotOf(lines[i], slot).Some?
    ensures Last(lines, slot).Some?
  {
    if i < |lines| - 1 {
      LastSome(lines[..|lines| - 1], slot, i);
    }
  }

  lemma {:induction false} LastUnbegun(lines: seq<string>, settings: Settings, slot: Slot)
    requires OfSlots(settings) && !HasKeyLine(lines, Key(slot))
    ensures Last(Edit(lines, settings), slot) == Last(lines, slot)
  {
    if lines != [] {
      LastEdited(lines, settings, slot);
      HasKeyLineLast(lines, Key(slot));
      LastUnbegun(lines[..|lines| - 1], settings, slot);
    }
  }

  lemma {:induction false} EditAppend(a: seq<string>, b: seq<string>, settings: Settings)
    ensures Edit(a + b, settings) == Edit(a, settings) + Edit(b, settings)
  {
    if b == [] {
      assert a + b == a;
    } else {
      assert (a + b)[..|a + b| - 1] == a + b[..|b| - 1];
      EditAppend(a, b[..|b| - 1], settings);
    }
  }

  lemma AliasTail(lines: seq<string>, slot: Slot, i: nat)
    requires i < |lines| && Alias(lines[i], slot) && !HasKeyLine(lines[i + 1..], Key(slot))
    ensures !HasKeyLine(lines[i..], Key(slot)) && Last(lines[i..], slot).Some?
  {
    var tail := lines[i..];
    assert tail == [lines[i]] + lines[i + 1..];
    HasKeyLineAppend([lines[i]], lines[i + 1..], Key(slot));
    assert !BeginsWithKey([lines[i]], 0, Key(slot));
    LastSome(tail, slot, 0);
  }

  /** The last alias, when no line after it begins with the key, decides whatever the configuration says. */
  lemma AliasDecides(lines: seq<string>, settings: Settings, slot: Slot, i: nat)
    requires OfSlots(settings) && i < |lines| && Alias(lines[i], slot) && !HasKeyLine(lines[i + 1..], Key(slot))
    ensures Last(Edit(lines, settings), slot) == Last(lines[i..], slot)
  {
    var front, tail := lines[..i], lines[i..];
    assert lines == front + tail;
    AliasTail(lines, slot, i);
    EditAppend(front, tail, settings);
    LastUnbegun(tail, settings, slot);
    LastAppend(Edit(front, settings), Edit(tail, settings), slot);
  }

  lemma PlainQuotes()
    ensures TrimQuotes("yes") == "yes" && TrimQuotes("no") == "no" && TrimQuotes("") == ""
  {
  }

  /** An alias of a proxy survives when the proxy is to be removed. */
  lemma AliasSurvives(lines: seq<string>, slot: Slot, i: nat)
    requires slot.UrlSlot? && i < |lines| && Alias(lines[i], slot)
    ensures Last(WriteLines(lines, map[Key(slot) := ""], [Key(slot)]), slot).Some?
  {
    var settings := map[Key(slot) := ""];
    EditAt(lines, settings, i);
    EditedSlot(lines[i], settings, slot);
    LastSome(Edit(lines, settings), slot, i);
    LastAppend(Edit(lines, settings), Missing(lines, settings, [Key(slot)]), slot);
  }

  lemma {:induction false} AliasWins(lines: seq<string>, slot: Slot, i: nat, value: string)
    requires i < |lines| && Alias(lines[i], slot)
    requires HasKeyLine(lines, Key(slot)) && !HasKeyLine(lines[i + 1..], Key(slot))
    ensures Last(WriteLines(lines, map[Key(slot) := value], [Key(slot)]), slot) == Last(lines[i..], slot)
  {
    var settings := map[Key(slot) := value];
    AliasDecides(lines, settings, slot, i);
    MissingNothing(lines, settings, [Key(slot)]);
    assert WriteLines(lines, settings, [Key(slot)]) == Edit(lines, settings);
  }

  /** For a file that is not editable in a slot, some value for it is not read back. */
  lemma EditableIsNeeded(lines: seq<string>, slot: Slot) returns (value: string)
    requires !Editable(lines, slot)
    ensures TrimQuotes(value) == value
    ensures var settings := map[Key(slot) := value];
            Last(WriteLines(lines, settings, [Key(slot)]), slot) != ReadBack(slot, value)
  {
    PlainQuotes();
    if slot.UrlSlot? {
      value := "";
      var i: nat :| i < |lines| && Alias(lines[i], slot);
      AliasSurvives(lines, slot, i);
    } else {
      var i: nat :| i < |lines| && Alias(lines[i], slot) && !HasKeyLine(lines[i + 1..], Key(slot));
      value := if Last(lines[i..], slot) == Some("yes") then "no" else "yes";
      AliasWins(lines, slot, i, value);
    }
  }

  /** So a file is editable in a slot exactly if every value for it is read back. */
  lemma EditableExactly(lines: seq<string>, slot: Slot)
    ensures Editable(lines, slot)
            <==> forall value: string ::
                   Last(WriteLines(lines, map[Key(slot) := value], [Key(slot)]), slot) == ReadBack(slot, value)
  {
    if Editable(lines, slot) {
      forall value: string
        ensures Last(WriteLines(lines, map[Key(slot) := value], [Key(slot)]), slot) == ReadBack(slot, value)
      {
        ReadAfterWrite(lines, map[Key(slot) := value], [Key(slot)], slot);
      }
    } else {
      var value := EditableIsNeeded(lines, slot);
    }
  }
}
