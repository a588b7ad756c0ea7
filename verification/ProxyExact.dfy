/** Exactly which values come back from the proxy file as they were asked for. */
module ProxyExact {
  import opened Events
  import opened Text
  import opened ProxyFile
  import opened ProxyReadBack
  import opened ProxyService

  predicate OuterQuote(value: string) {
    value != "" && (value[0] == '"' || value[|value| - 1] == '"')
  }

  /*** Line feeds ***/

  lemma {:induction false} QuotesKeepLf(value: string)
    requires '\n' in value
    ensures '\n' in TrimQuotes(value)
  {
    LfAfterStart(value);
    LfBeforeEnd(TrimQuotesStart(value));
  }

  lemma {:induction false} LfAfterStart(s: string)
    ensures '\n' in TrimQuotesStart(s) <==> '\n' in s
  {
    if s != "" && s[0] == '"' {
      assert s == [s[0]] + s[1..];
      LfAfterStart(s[1..]);
    }
  }

  lemma {:induction false} LfBeforeEnd(s: string)
    ensures '\n' in TrimQuotesEnd(s) <==> '\n' in s
  {
    if s != "" && s[|s| - 1] == '"' {
      assert s == s[..|s| - 1] + [s[|s| - 1]];
      LfBeforeEnd(s[..|s| - 1]);
    }
  }

  lemma TrimAddsNothing(s: string, c: char)
    requires c !in s
    ensures c !in Trim(s)
  {
    var n := TrimStartDrops(s);
    assert c !in s[n..];
    assert Trim(s) <= s[n..];
  }

  /** Nothing that is read from a line holds a line feed. */
  lemma LineHasNoLf(line: string, slot: Slot)
    requires '\n' !in line && SlotOf(line, slot).Some?
    ensures '\n' !in SlotOf(line, slot).value
  {
    var text := Trim(line);
    TrimAddsNothing(line, '\n');
    var n := Find(text, '=');
    var value := text[n + 1..];
    assert '\n' !in value;
    TrimAddsNothing(value, '\n');
    LfAfterStart(Trim(value));
    LfBeforeEnd(TrimQuotesStart(Trim(value)));
    assert LineSetting(line).value.1 == TrimQuotes(Trim(value));
  }

  lemma {:induction false} ReadHasNoLf(lines: seq<string>, slot: Slot)
    requires (forall line | line in lines :: '\n' !in line) && Last(lines, slot).Some?
    ensures '\n' !in Last(lines, slot).value
  {
    var line := lines[|lines| - 1];
    if SlotOf(line, slot).Some? {
      LineHasNoLf(line, slot);
    } else {
      ReadHasNoLf(lines[..|lines| - 1], slot);
    }
  }

  /** What a file says for a slot. */
  function Told(text: string, slot: Slot): Option<string> {
    ValueOf(Collapse(ReadLines(Lines(text))), slot)
  }

  lemma ToldIsOneLine(text: string, slot: Slot)
    ensures OneLine(Told(text, slot))
  {
    CollapseHas(Lines(text), slot);
    if Last(Lines(text), slot).Some? {
      ReadHasNoLf(Lines(text), slot);
    }
  }

  /*** Updates ***/

  function Updated(text: string, c: Config, order: seq<string>): string
    requires Enumerates(order, SettingsOf(Expand(c)).Keys)
  {
    Unlines(WriteLines(Lines(text), SettingsOf(Expand(c)), order))
  }

  ghost predicate AllEditable(text: string, c: Config) {
    forall slot | ValueOf(c, slot).Some? :: Editable(Lines(text), slot)
  }

  /**
   For a file that lets the configuration override its slots: each slot is overridden or kept as it
   should exactly if no value holds a line feed.
   */
  lemma OverridesExactly(text: string, c: Config, order: seq<string>)
    requires Enumerates(order, SettingsOf(Expand(c)).Keys) && AllEditable(text, c)
    ensures (forall slot :: Told(Updated(text, c, order), slot) == Overridden(Told(text, slot), ValueOf(c, slot), slot))
            <==> forall slot :: OneLine(ValueOf(c, slot))
  {
    if forall slot :: OneLine(ValueOf(c, slot)) {
      forall slot ensures Told(Updated(text, c, order), slot) == Overridden(Told(text, slot), ValueOf(c, slot), slot) {
        UpdateThenRead(text, c, order, slot);
      }
    } else {
      var slot :| !OneLine(ValueOf(c, slot));
      QuotesKeepLf(ValueOf(c, slot).value);
      ToldIsOneLine(Updated(text, c, order), slot);
      assert Told(Updated(text, c, order), slot) != Overridden(Told(text, slot), ValueOf(c, slot), slot);
    }
  }

  /** A value that the format of the file can hold. */
  predicate Holdable(slot: Slot, value: string) {
    '\n' !in value && !OuterQuote(value) && !(slot.UrlSlot? && value == "")
  }

  /** And all values are read back as they were asked for exactly if the format can hold each of them. */
  lemma ReadsAsAskedExactly(text: string, c: Config, order: seq<string>)
    requires Enumerates(order, SettingsOf(Expand(c)).Keys) && AllEditable(text, c)
    ensures (forall slot | ValueOf(c, slot).Some? :: Told(Updated(text, c, order), slot) == ValueOf(c, slot))
            <==> forall slot | ValueOf(c, slot).Some? :: Holdable(slot, ValueOf(c, slot).value)
  {
    var after := Updated(text, c, order);
    if (forall slot | ValueOf(c, slot).Some? :: '\n' !in ValueOf(c, slot).value) {
      forall slot | ValueOf(c, slot).Some?
        ensures Told(after, slot) == ValueOf(c, slot) <==> Holdable(slot, ValueOf(c, slot).value)
      {
        UpdateThenRead(text, c, order, slot);
      }
    } else {
      var slot :| ValueOf(c, slot).Some? && '\n' in ValueOf(c, slot).value;
      ToldIsOneLine(after, slot);
      assert Told(after, slot) != ValueOf(c, slot);
    }
  }
}
