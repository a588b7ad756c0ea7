/** Lines that are read as a setting, but that the editor of the proxy file misses. */
module ProxyAliases {
  import opened Events
  import opened Text
  import opened ProxyFile
  import opened ProxyLines
  import opened ProxyReadBack

  /** A value that is read as something. */
  predicate Readable(value: string) {
    value != "" && !IsSpace(value[|value| - 1]) && TrimQuotes(Trim(value)) != ""
  }

  /** A line with text before the equals sign that has no space and no number sign at its beginning. */
  lemma {:induction false} LineIs(key: string, value: string)
    requires key != "" && '=' !in key && !IsSpace(key[0]) && key[0] != '#' && Readable(value)
    ensures var line := key + "=" + value;
            KeyOf(line) == Some(key) && LineSetting(line) == Setting(Trim(key), TrimQuotes(Trim(value)))
  {
    var line := key + "=" + value;
    assert line == key + ['='] + value;
    SplitOnceJoined(key, value, '=');
    assert line[0] == key[0] && line[|line| - 1] == value[|value| - 1];
    assert TrimStart(line) == line && TrimEnd(line) == line;
  }

  /** Every value that is not empty is read as one for the slot. */
  ghost predicate Means(key: string, slot: Slot) {
    forall v: string | v != "" :: Setting(key, v) == Some((slot, v))
  }

  lemma {:induction false} KeyAlias(key: string, value: string, slot: Slot)
    requires key != "" && '=' !in key && !IsSpace(key[0]) && key[0] != '#' && Readable(value) && key != Key(slot)
    requires Means(Trim(key), slot)
    ensures Alias(key + "=" + value, slot)
  {
    LineIs(key, value);
  }

  lemma {:induction false} NameMeans(key: string, name: string, p: Protocol)
    requires key == name + "_PROXY" && !EndsWith(name, "_PROXY") && ParseProtocol(Lower(name)) == Some(p)
    requires key != "PROXY_ENABLED" && key != "SOCKS5_SERVER" && key != "NO_PROXY"
    ensures Means(key, UrlSlot(p))
  {
    assert key[|name|..] == "_PROXY" && key[..|name|] == name;
    assert EndsWith(key, "_PROXY") && WithoutSuffix(key, "_PROXY") == name;
  }

  lemma SocksName()
    ensures ParseProtocol(Lower("SOCKS5")) == Some(SOCKS5) && !EndsWith("SOCKS5", "_PROXY")
  {
    assert Lower("SOCKS5") == "socks5";
    assert "SOCKS5"[0] != "_PROXY"[0];
  }

  lemma SocksMeans()
    ensures Means("SOCKS5_PROXY", UrlSlot(SOCKS5)) && Trim("SOCKS5_PROXY") == "SOCKS5_PROXY"
  {
    SocksName();
    assert "SOCKS5_PROXY" == "SOCKS5" + "_PROXY";
    NameMeans("SOCKS5_PROXY", "SOCKS5", SOCKS5);
    TrimNoSpace("SOCKS5_PROXY");
  }

  lemma LowerMeans()
    ensures Means("http_PROXY", UrlSlot(HTTP)) && Trim("http_PROXY") == "http_PROXY"
  {
    assert Lower("http") == "http";
    assert "http_PROXY" == "http" + "_PROXY";
    NameMeans("http_PROXY", "http", HTTP);
    TrimNoSpace("http_PROXY");
  }

  /** The key of SOCKS5 in the form that the other protocols have. */
  lemma {:induction false} SocksAlias(value: string)
    requires Readable(value)
    ensures Alias("SOCKS5_PROXY" + "=" + value, UrlSlot(SOCKS5))
  {
    SocksMeans();
    KeyAlias("SOCKS5_PROXY", value, UrlSlot(SOCKS5));
  }

  /** A protocol in lower case. */
  lemma {:induction false} LowerAlias(value: string)
    requires Readable(value)
    ensures Alias("http_PROXY" + "=" + value, UrlSlot(HTTP))
  {
    LowerMeans();
    assert "http_PROXY"[0] != "HTTP_PROXY"[0];
    KeyAlias("http_PROXY", value, UrlSlot(HTTP));
  }

  /** A space before the equals sign, for every slot. */
  lemma {:induction false} SpaceAlias(slot: Slot, value: string)
    requires Readable(value)
    ensures Alias(Key(slot) + " " + "=" + value, slot)
  {
    KeyFacts(slot);
    TrimSpace(Key(slot));
    assert Key(slot)[0] in Key(slot);
    forall v: string | v != "" ensures Setting(Key(slot), v) == Some((slot, v)) {
      SettingOfKey(slot, v);
    }
    KeyAlias(Key(slot) + " ", value, slot);
  }

  lemma {:induction false} TrimSpace(s: string)
    requires s != "" && NoSpace(s)
    ensures Trim(s + " ") == s
  {
    var t := s + " ";
    assert t[0] == s[0] && s[0] in s && s[|s| - 1] in s;
    assert t[..|s|] == s;
    TrimNoSpace(s);
  }

  /** With such a line for a proxy anywhere, not every value for the proxy is read back. */
  lemma {:induction false} AliasIsMissed(lines: seq<string>, p: Protocol, i: nat)
    requires i < |lines| && Alias(lines[i], UrlSlot(p))
    ensures !Editable(lines, UrlSlot(p))
    ensures exists value: string ::
              Last(WriteLines(lines, map[Key(UrlSlot(p)) := value], [Key(UrlSlot(p))]), UrlSlot(p))
              != ReadBack(UrlSlot(p), value)
  {
    EditableExactly(lines, UrlSlot(p));
  }

  /** For the other slots, with one after a line that begins with the key. */
  lemma {:induction false} LaterAliasIsMissed(front: seq<string>, line: string, slot: Slot)
    requires !slot.UrlSlot? && Alias(line, slot) && HasKeyLine(front, Key(slot))
    ensures !Editable(front + [line], slot)
    ensures exists value: string ::
              Last(WriteLines(front + [line], map[Key(slot) := value], [Key(slot)]), slot) != ReadBack(slot, value)
  {
    var lines := front + [line];
    HasKeyLineAppend(front, [line], Key(slot));
    assert lines[|front|] == line && lines[|front| + 1..] == [];
    assert !HasKeyLine(lines[|front| + 1..], Key(slot));
    EditableExactly(lines, slot);
  }

  /** So none of these files lets every configuration override its proxy. */
  lemma {:induction false} MissedFiles(value: string, p: Protocol)
    requires Readable(value)
    ensures !Editable(["SOCKS5_PROXY" + "=" + value], UrlSlot(SOCKS5))
    ensures !Editable(["http_PROXY" + "=" + value], UrlSlot(HTTP))
    ensures !Editable([Key(UrlSlot(p)) + " " + "=" + value], UrlSlot(p))
  {
    SocksAlias(value);
    LowerAlias(value);
    SpaceAlias(UrlSlot(p), value);
    AliasIsMissed(["SOCKS5_PROXY" + "=" + value], SOCKS5, 0);
    AliasIsMissed(["http_PROXY" + "=" + value], HTTP, 0);
    AliasIsMissed([Key(UrlSlot(p)) + " " + "=" + value], p, 0);
  }
}
