/**
 What the proxy file says, in its own words (rust/agama-proxy/src/model.rs): the keys, what a line
 means, and what the configuration of the service is written as.
 */
module ProxyMeaning {
  import opened Events
  import opened Text
  import opened ProxyFile
  import opened ProxyLines
  import opened ProxyReadBack
  import opened ProxyService

  /*** Keys and fields ***/

  lemma FileKeys()
    ensures Key(EnabledSlot) == "PROXY_ENABLED" && Key(NoProxySlot) == "NO_PROXY"
    ensures Key(UrlSlot(FTP)) == "FTP_PROXY" && Key(UrlSlot(HTTP)) == "HTTP_PROXY"
    ensures Key(UrlSlot(HTTPS)) == "HTTPS_PROXY" && Key(UrlSlot(GOPHER)) == "GOPHER_PROXY"
    ensures Key(UrlSlot(SOCKS)) == "SOCKS_PROXY" && Key(UrlSlot(SOCKS5)) == "SOCKS5_SERVER"
  {
  }

  /** The field of the configuration that a slot stands for. */
  lemma SlotFields(c: Config)
    ensures ValueOf(c, EnabledSlot) == match c.enabled case None => None case Some(b) => Some(if b then "yes" else "no")
    ensures ValueOf(c, NoProxySlot) == c.noProxy
    ensures ValueOf(c, UrlSlot(FTP)) == c.ftp && ValueOf(c, UrlSlot(HTTP)) == c.http
    ensures ValueOf(c, UrlSlot(HTTPS)) == c.https && ValueOf(c, UrlSlot(GOPHER)) == c.gopher
    ensures ValueOf(c, UrlSlot(SOCKS)) == c.socks && ValueOf(c, UrlSlot(SOCKS5)) == c.socks5
  {
  }

  predicate Holds(settings: Settings, key: string, value: Option<string>) {
    (key in settings <==> value.Some?) && (key in settings ==> settings[key] == value.value)
  }

  /** The configuration is written under these eight keys, each for its own field. */
  lemma WrittenSettings(c: Config)
    ensures var s := SettingsOf(Expand(c));
            && Holds(s, "NO_PROXY", c.noProxy) && Holds(s, "FTP_PROXY", c.ftp) && Holds(s, "HTTP_PROXY", c.http)
            && Holds(s, "HTTPS_PROXY", c.https) && Holds(s, "GOPHER_PROXY", c.gopher)
            && Holds(s, "SOCKS_PROXY", c.socks) && Holds(s, "SOCKS5_SERVER", c.socks5)
            && Holds(s, "PROXY_ENABLED",
                     if c.enabled.None? then None else Some(if c.enabled.value then "yes" else "no"))
  {
    FileKeys();
    SlotFields(c);
    forall slot ensures Holds(SettingsOf(Expand(c)), Key(slot), ValueOf(c, slot)) {
      ExpandedSettings(c, slot);
    }
    assert Holds(SettingsOf(Expand(c)), Key(NoProxySlot), c.noProxy);
    assert Holds(SettingsOf(Expand(c)), Key(EnabledSlot), ValueOf(c, EnabledSlot));
    assert forall p :: Holds(SettingsOf(Expand(c)), Key(UrlSlot(p)), ValueOf(c, UrlSlot(p)));
  }

  const KEYS := {"PROXY_ENABLED", "NO_PROXY", "FTP_PROXY", "HTTP_PROXY", "HTTPS_PROXY", "GOPHER_PROXY", "SOCKS_PROXY",
                 "SOCKS5_SERVER"}

  lemma OnlyTheseKeys(c: Config, key: string)
    requires key in SettingsOf(Expand(c))
    ensures key in KEYS
  {
    FileKeys();
    SettingsOfSlots(Expand(c));
    var slot :| key == Key(slot);
  }

  /** A line that is written holds the value in quotes after the key and an equals sign. */
  lemma WrittenForm(value: string)
    ensures Written("NO_PROXY", value) == "NO_PROXY=\"" + value + "\""
  {
  }

  /*** What a key means ***/

  /** The two keys that take any value, and the six that take one that is not empty. */
  lemma KeysMean(v: string)
    ensures Setting("PROXY_ENABLED", v) == Some((EnabledSlot, v)) && Setting("NO_PROXY", v) == Some((NoProxySlot, v))
    ensures forall p :: Setting(Key(UrlSlot(p)), v) == if v == "" then None else Some((UrlSlot(p), v))
  {
    FileKeys();
    SettingOfKey(EnabledSlot, v);
    SettingOfKey(NoProxySlot, v);
    forall p ensures Setting(Key(UrlSlot(p)), v) == if v == "" then None else Some((UrlSlot(p), v)) {
      SettingOfKey(UrlSlot(p), v);
    }
  }

  /** The names that the file has for the protocols; upper and lower case are alike. */
  lemma ProtocolNames(name: string)
    ensures ParseProtocol("ftp") == Some(FTP) && ParseProtocol("http") == Some(HTTP)
    ensures ParseProtocol("https") == Some(HTTPS) && ParseProtocol("gopher") == Some(GOPHER)
    ensures ParseProtocol("socks") == Some(SOCKS) && ParseProtocol("socks5") == Some(SOCKS5)
    ensures name !in ["ftp", "http", "https", "gopher", "socks", "socks5"] ==> ParseProtocol(name).None?
  {
  }

  lemma {:induction false} LowerEach(s: string)
    ensures |Lower(s)| == |s|
    ensures forall i | 0 <= i < |s| ::
              Lower(s)[i] == if 'A' <= s[i] <= 'Z' then s[i] + 32 as char else if s[i] == '\U{212A}' then 'k' else s[i]
  {
    if s != "" {
      LowerEach(s[1..]);
    }
  }

  /** A key that sets anything is one of the first three, or ends like the others and names a protocol. */
  lemma OtherKeys(key: string, v: string)
    requires Setting(key, v).Some?
    ensures key in ["PROXY_ENABLED", "NO_PROXY", "SOCKS5_SERVER"] || EndsWith(key, "_PROXY")
    ensures Setting(key, v).value.1 == v && (v == "" ==> key in ["PROXY_ENABLED", "NO_PROXY"])
  {
  }

  /** Any name before the ending, in whatever case, is taken for the protocol. */
  lemma NamedProtocol(name: string, v: string)
    requires name != "NO" && !EndsWith(name, "_PROXY")
    ensures Setting(name + "_PROXY", v) ==
              if v == "" || ParseProtocol(Lower(name)).None? then None
              else Some((UrlSlot(ParseProtocol(Lower(name)).value), v))
  {
    var key := name + "_PROXY";
    assert key[|name|..] == "_PROXY" && key[..|name|] == name;
    assert EndsWith(key, "_PROXY") && WithoutSuffix(key, "_PROXY") == name;
    assert key != "NO_PROXY" by {
      assert "NO_PROXY"[..2] == "NO";
    }
    assert key[|key| - 1] == 'Y';
  }

  /*** What a line means ***/

  /** Quotes are dropped at both ends, and nowhere else. */
  lemma {:induction false} QuotesDropped(s: string) returns (a: nat, b: nat)
    ensures a <= b <= |s| && TrimQuotes(s) == s[a..b]
    ensures (forall i | 0 <= i < a :: s[i] == '"') && (forall i | b <= i < |s| :: s[i] == '"')
    ensures a < b ==> s[a] != '"' && s[b - 1] != '"'
  {
    a := QuotesBefore(s);
    var m := QuotesAfter(s[a..]);
    b := a + m;
    assert forall i | b <= i < |s| :: s[i] == s[a..][i - a];
  }

  lemma {:induction false} QuotesBefore(s: string) returns (n: nat)
    ensures n <= |s| && TrimQuotesStart(s) == s[n..] && forall i | 0 <= i < n :: s[i] == '"'
  {
    n := 0;
    if s != "" && s[0] == '"' {
      var m := QuotesBefore(s[1..]);
      n := m + 1;
    }
  }

  lemma {:induction false} QuotesAfter(s: string) returns (n: nat)
    ensures n <= |s| && TrimQuotesEnd(s) == s[..n] && forall i | n <= i < |s| :: s[i] == '"'
  {
    n := |s|;
    if s != "" && s[|s| - 1] == '"' {
      n := QuotesAfter(s[..|s| - 1]);
    }
  }

  /** Without white space around it, the line is this key, an equals sign and this value. */
  predicate IsPair(line: string, key: string, value: string) {
    Trim(line) == key + "=" + value && '=' !in key
  }

  /** An empty line, a comment and a line without equals sign mean nothing; any other is a key with a value. */
  lemma LineMeans(line: string, key: string, value: string)
    ensures Trim(line) == "" || Trim(line)[0] == '#' || '=' !in Trim(line) ==> LineSetting(line).None?
    ensures IsPair(line, key, value) && Trim(line)[0] != '#' ==>
              LineSetting(line) == Setting(Trim(key), TrimQuotes(Trim(value)))
  {
    if IsPair(line, key, value) {
      assert Trim(line) == key + ['='] + value;
      SplitOnceJoined(key, value, '=');
    }
  }

  /*** What the file means ***/

  /** This line sets the slot to the value, and no later one sets the slot. */
  predicate SetsLast(lines: seq<string>, slot: Slot, i: nat, v: string) {
    && i < |lines| && LineSetting(lines[i]) == Some((slot, v))
    && forall j | i < j < |lines| :: SlotOf(lines[j], slot).None?
  }

  lemma {:induction false} LastDecides(lines: seq<string>, slot: Slot, i: nat, v: string)
    requires SetsLast(lines, slot, i, v)
    ensures Last(lines, slot) == Some(v)
  {
    var last := |lines| - 1;
    if i < last {
      LastDecides(lines[..last], slot, i, v);
    }
  }

  lemma {:induction false} NothingSets(lines: seq<string>, slot: Slot)
    requires forall line | line in lines :: SlotOf(line, slot).None?
    ensures Last(lines, slot).None?
  {
    if lines != [] {
      NothingSets(lines[..|lines| - 1], slot);
    }
  }

  /** The last line for a slot decides; the proxies are those of all lines, in order. */
  lemma FileMeans(lines: seq<string>, i: nat, v: string)
    ensures SetsLast(lines, EnabledSlot, i, v) ==> ReadLines(lines).enabled == Some(v == "yes")
    ensures SetsLast(lines, NoProxySlot, i, v) ==> ReadLines(lines).noProxy == Some(v)
    ensures (forall line | line in lines :: SlotOf(line, EnabledSlot).None?) ==> ReadLines(lines).enabled.None?
    ensures (forall line | line in lines :: SlotOf(line, NoProxySlot).None?) ==> ReadLines(lines).noProxy.None?
  {
    forall slot | SetsLast(lines, slot, i, v) ensures Last(lines, slot) == Some(v) {
      LastDecides(lines, slot, i, v);
    }
    forall slot | forall line | line in lines :: SlotOf(line, slot).None? ensures Last(lines, slot).None? {
      NothingSets(lines, slot);
    }
  }

  lemma {:induction false} ProxiesInOrder(a: seq<string>, b: seq<string>)
    ensures ProxiesOf(a + b) == ProxiesOf(a) + ProxiesOf(b)
  {
    if b == [] {
      assert a + b == a;
    } else {
      assert (a + b)[..|a + b| - 1] == a + b[..|b| - 1];
      ProxiesInOrder(a, b[..|b| - 1]);
    }
  }

  lemma ProxyOfLine(line: string)
    ensures ProxiesOf([line]) == match LineSetting(line)
                                 case Some((UrlSlot(p), url)) => [Proxy.Proxy(url, p)]
                                 case _ => []
  {
    assert ProxiesOf([line][..0]) == [];
  }

  /*** Lines of a text ***/

  /** A line feed ends a line, and so does a carriage return before it. */
  lemma LinesCut(a: string, b: string)
    requires '\n' !in a
    ensures Lines(a + "\n" + b) == [if a != "" && a[|a| - 1] == '\r' then a[..|a| - 1] else a] + Lines(b)
    ensures Lines(a) == if a == "" then [] else [a]
  {
    assert a + "\n" + b == a + ['\n'] + b;
    SplitOnceJoined(a, b, '\n');
    SplitOnceIs(a, '\n');
  }

  lemma {:induction false} UnlinesInOrder(a: seq<string>, b: seq<string>)
    ensures Unlines(a + b) == Unlines(a) + Unlines(b)
  {
    if a == [] {
      assert a + b == b;
    } else {
      assert (a + b)[1..] == a[1..] + b;
      UnlinesInOrder(a[1..], b);
    }
  }

  lemma UnlinesOne(line: string)
    ensures Unlines([line]) == line + "\n"
  {
    assert Unlines([line][1..]) == "";
  }
}
