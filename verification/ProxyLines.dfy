/** What one line of the proxy file means, before and after editing. */
module ProxyLines {
  import opened Events
  import opened Text
  import opened ProxyFile

  predicate KeyChar(c: char) {
    'A' <= c <= 'Z' || c == '5' || c == '_'
  }

  predicate KeyChars(s: string) {
    forall i | 0 <= i < |s| :: KeyChar(s[i])
  }

  lemma KeyIsKeyChars(slot: Slot)
    ensures KeyChars(Key(slot)) && Key(slot) != ""
  {
    if slot.UrlSlot? && slot.protocol != SOCKS5 {
      assert KeyChars("_PROXY");
    }
  }

  lemma KeyFacts(slot: Slot)
    ensures Key(slot) != "" && '=' !in Key(slot) && NoSpace(Key(slot)) && Key(slot)[0] != '#'
  {
    KeyIsKeyChars(slot);
  }

  lemma KeysDiffer(s: Slot, t: Slot)
    requires s != t
    ensures Key(s) != Key(t)
  {
    if |Key(s)| == |Key(t)| {
      assert Key(s)[0] != Key(t)[0];
    }
  }

  lemma ProtocolName(p: Protocol)
    requires p != SOCKS5
    ensures EndsWith(Key(UrlSlot(p)), "_PROXY")
    ensures ParseProtocol(Lower(WithoutSuffix(Key(UrlSlot(p)), "_PROXY"))) == Some(p)
  {
    var key, name := Key(UrlSlot(p)), UpperName(p);
    assert key[..|key| - 6] == name;
    assert !EndsWith(name, "_PROXY");
    assert WithoutSuffix(key, "_PROXY") == name;
    match p
    case FTP => assert Lower("FTP") == "ftp";
    case HTTP => assert Lower("HTTP") == "http";
    case HTTPS => assert Lower("HTTPS") == "https";
    case GOPHER => assert Lower("GOPHER") == "gopher";
    case SOCKS => assert Lower("SOCKS") == "socks";
  }

  /** What a value for the slot is read as: an empty URL as nothing. */
  function Meaning(slot: Slot, value: string): Option<string> {
    if slot.UrlSlot? && value == "" then None else Some(value)
  }

  function SlotSetting(slot: Slot, value: string): Option<(Slot, string)> {
    if Meaning(slot, value).Some? then Some((slot, value)) else None
  }

  /** Reading the key of a slot gives that slot. */
  lemma SettingOfKey(slot: Slot, value: string)
    ensures Setting(Key(slot), value) == SlotSetting(slot, value)
  {
    if slot.UrlSlot? && slot.protocol != SOCKS5 {
      ProtocolName(slot.protocol);
      KeysDiffer(slot, EnabledSlot);
      KeysDiffer(slot, NoProxySlot);
      KeysDiffer(slot, UrlSlot(SOCKS5));
    } else {
      assert !EndsWith("SOCKS5_SERVER", "_PROXY");
    }
  }

  lemma TrimNoSpace(s: string)
    requires NoSpace(s)
    ensures Trim(s) == s
  {
    if s != "" {
      assert s[0] in s && s[|s| - 1] in s;
    }
  }

  lemma {:induction false} TextSetsKey(line: string, text: string, slot: Slot)
    requires Trim(line) == text && Find(text, '=') == |Key(slot)| < |text| && text[..|Key(slot)|] == Key(slot)
    ensures LineSetting(line) == Setting(Key(slot), TrimQuotes(Trim(text[|Key(slot)| + 1..])))
  {
    KeyFacts(slot);
    assert text[0] == Key(slot)[0];
    TrimNoSpace(Key(slot));
  }

  lemma TextSets(line: string, text: string, slot: Slot)
    requires Trim(line) == text && Find(text, '=') == |Key(slot)| < |text| && text[..|Key(slot)|] == Key(slot)
    ensures LineSetting(line) == SlotSetting(slot, TrimQuotes(Trim(text[|Key(slot)| + 1..])))
  {
    TextSetsKey(line, text, slot);
    SettingOfKey(slot, TrimQuotes(Trim(text[|Key(slot)| + 1..])));
  }

  lemma KeyLineIs(line: string, slot: Slot) returns (value: string)
    requires KeyOf(line) == Some(Key(slot))
    ensures LineSetting(line) == SlotSetting(slot, value)
  {
    var t := TrimStart(line);
    var n := Find(t, '=');
    assert n < |t| && t[..n] == Key(slot);
    TextSets(line, TrimEnd(t), slot);
    value := TrimQuotes(Trim(TrimEnd(t)[|Key(slot)| + 1..]));
  }

  /** A line that begins with the key of a slot sets that slot or nothing. */
  lemma KeyLineSets(line: string, slot: Slot)
    requires KeyOf(line) == Some(Key(slot))
    ensures LineSetting(line).Some? ==> LineSetting(line).value.0 == slot
  {
    var value := KeyLineIs(line, slot);
  }

  lemma {:induction false} QuotesAround(value: string)
    ensures TrimQuotes("\"" + value + "\"") == TrimQuotes(value)
  {
    var s := "\"" + value + "\"";
    assert s[1..] == value + "\"";
    QuoteAfter(value);
  }

  lemma {:induction false} QuoteAfter(value: string)
    ensures TrimQuotes(value + "\"") == TrimQuotes(value)
  {
    if value == "" {
    } else if value[0] == '"' {
      assert (value + "\"")[1..] == value[1..] + "\"";
      QuoteAfter(value[1..]);
    } else {
      assert (value + "\"")[..|value|] == value;
    }
  }

  lemma WrittenText(slot: Slot, value: string)
    ensures var line, n := Written(Key(slot), value), |Key(slot)|;
            && TrimStart(line) == line && Trim(line) == line
            && Find(line, '=') == n < |line| && line[..n] == Key(slot) && line[n + 1..] == "\"" + value + "\""
  {
    var key, quoted := Key(slot), "\"" + value + "\"";
    var line := Written(key, value);
    assert line == key + "=" + quoted;
    KeyFacts(slot);
    assert line[0] == key[0] && line[0] in key && line[|line| - 1] == '"';
    PrefixKey(line, key);
  }

  /** A written line begins with its key, and is read as the value without quotes at either end. */
  lemma WrittenMeans(slot: Slot, value: string)
    ensures var line := Written(Key(slot), value);
            && KeyOf(line) == Some(Key(slot))
            && LineSetting(line) == SlotSetting(slot, TrimQuotes(value))
  {
    var line, quoted := Written(Key(slot), value), "\"" + value + "\"";
    WrittenText(slot, value);
    TextSets(line, line, slot);
    QuotesAround(value);
  }
}
