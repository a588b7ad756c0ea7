/** The proxy service (rust/agama-proxy/src/service.rs): its configuration and the file behind it. */
module ProxyService {
  import opened Events
  import opened Text
  import opened ProxyFile
  import opened ProxyLines
  import opened ProxyEditing
  import opened ProxyReadBack

  datatype Config = Config(
    enabled: Option<bool>, noProxy: Option<string>,
    ftp: Option<string>, http: Option<string>, https: Option<string>,
    gopher: Option<string>, socks: Option<string>, socks5: Option<string>)

  function Url(c: Config, p: Protocol): Option<string> {
    match p
    case FTP => c.ftp
    case HTTP => c.http
    case HTTPS => c.https
    case GOPHER => c.gopher
    case SOCKS => c.socks
    case SOCKS5 => c.socks5
  }

  /** What the configuration has for a slot, in the words of the file. */
  function ValueOf(c: Config, slot: Slot): Option<string> {
    match slot
    case EnabledSlot => if c.enabled.None? then None else Some(if c.enabled.value then "yes" else "no")
    case NoProxySlot => c.noProxy
    case UrlSlot(p) => Url(c, p)
  }

  function WithUrl(c: Config, p: Protocol, url: string): Config {
    match p
    case FTP => c.(ftp := Some(url))
    case HTTP => c.(http := Some(url))
    case HTTPS => c.(https := Some(url))
    case GOPHER => c.(gopher := Some(url))
    case SOCKS => c.(socks := Some(url))
    case SOCKS5 => c.(socks5 := Some(url))
  }

  function WithUrls(c: Config, proxies: seq<Proxy>): Config {
    if proxies == [] then c
    else
      var last := proxies[|proxies| - 1];
      WithUrl(WithUrls(c, proxies[..|proxies| - 1]), last.protocol, last.url)
  }

  function Collapse(pc: ProxyConfig): Config {
    WithUrls(Config(pc.enabled, pc.noProxy, None, None, None, None, None, None), pc.proxies)
  }

  function OneProxy(c: Config, p: Protocol): seq<Proxy> {
    if Url(c, p).Some? then [Proxy.Proxy(Url(c, p).value, p)] else []
  }

  function Expand(c: Config): ProxyConfig {
    ProxyConfig(OneProxy(c, FTP) + OneProxy(c, HTTP) + OneProxy(c, HTTPS) + OneProxy(c, GOPHER)
                + OneProxy(c, SOCKS) + OneProxy(c, SOCKS5), c.enabled, c.noProxy)
  }

  /*** Lists of proxies ***/

  function LastUrl(proxies: seq<Proxy>, p: Protocol): Option<string> {
    if proxies == [] then None
    else
      var last := proxies[|proxies| - 1];
      if last.protocol == p then Some(last.url) else LastUrl(proxies[..|proxies| - 1], p)
  }

  lemma {:induction false} LastUrlAppend(a: seq<Proxy>, b: seq<Proxy>, p: Protocol)
    ensures LastUrl(a + b, p) == if LastUrl(b, p).Some? then LastUrl(b, p) else LastUrl(a, p)
  {
    if b == [] {
      assert a + b == a;
    } else {
      assert (a + b)[..|a + b| - 1] == a + b[..|b| - 1];
      LastUrlAppend(a, b[..|b| - 1], p);
    }
  }

  lemma {:induction false} LastUrlAdded(list: seq<Proxy>, c: Config, q: Protocol, p: Protocol)
    ensures LastUrl(list + OneProxy(c, q), p) == if p == q && Url(c, q).Some? then Url(c, q) else LastUrl(list, p)
  {
    LastUrlAppend(list, OneProxy(c, q), p);
    if Url(c, q).Some? {
      assert OneProxy(c, q)[..0] == [];
    }
  }

  lemma {:induction false} ExpandHas(c: Config, p: Protocol)
    ensures LastUrl(Expand(c).proxies, p) == Url(c, p)
  {
    var a := OneProxy(c, FTP);
    assert [] + a == a;
    LastUrlAdded([], c, FTP, p);
    LastUrlAdded(a, c, HTTP, p);
    a := a + OneProxy(c, HTTP);
    LastUrlAdded(a, c, HTTPS, p);
    a := a + OneProxy(c, HTTPS);
    LastUrlAdded(a, c, GOPHER, p);
    a := a + OneProxy(c, GOPHER);
    LastUrlAdded(a, c, SOCKS, p);
    a := a + OneProxy(c, SOCKS);
    LastUrlAdded(a, c, SOCKS5, p);
  }

  lemma {:induction false} WithUrlsHas(c: Config, proxies: seq<Proxy>, p: Protocol)
    ensures var r := WithUrls(c, proxies);
            && Url(r, p) == (if LastUrl(proxies, p).Some? then LastUrl(proxies, p) else Url(c, p))
            && r.enabled == c.enabled && r.noProxy == c.noProxy
  {
    if proxies != [] {
      WithUrlsHas(c, proxies[..|proxies| - 1], p);
    }
  }

  lemma {:induction false} ProxiesHave(lines: seq<string>, p: Protocol)
    ensures LastUrl(ProxiesOf(lines), p) == Last(lines, UrlSlot(p))
  {
    if lines != [] {
      var last := |lines| - 1;
      ProxiesHave(lines[..last], p);
      LastUrlAppend(ProxiesOf(lines[..last]), LineProxies(lines[last]), p);
    }
  }

  /** What a slot is told as: `enabled` only tells "yes" from the rest. */
  function Shown(slot: Slot, last: Option<string>): Option<string> {
    if slot.EnabledSlot? && last.Some? && last != Some("yes") then Some("no") else last
  }

  /** What is read from a file, slot by slot. */
  lemma CollapseHas(lines: seq<string>, slot: Slot)
    ensures ValueOf(Collapse(ReadLines(lines)), slot) == Shown(slot, Last(lines, slot))
  {
    var pc := ReadLines(lines);
    var start := Config(pc.enabled, pc.noProxy, None, None, None, None, None, None);
    if slot.UrlSlot? {
      ProxiesHave(lines, slot.protocol);
      WithUrlsHas(start, pc.proxies, slot.protocol);
    } else {
      WithUrlsHas(start, pc.proxies, FTP);
    }
  }

  /*** From the configuration to the settings of the file ***/

  lemma {:induction false} AddProxiesHas(settings: Settings, proxies: seq<Proxy>, slot: Slot)
    ensures var r := AddProxies(settings, proxies);
            if slot.UrlSlot? && LastUrl(proxies, slot.protocol).Some?
            then Key(slot) in r && Some(r[Key(slot)]) == LastUrl(proxies, slot.protocol)
            else (Key(slot) in r <==> Key(slot) in settings)
                 && (Key(slot) in settings ==> r[Key(slot)] == settings[Key(slot)])
  {
    if proxies != [] {
      var last := proxies[|proxies| - 1];
      AddProxiesHas(settings, proxies[..|proxies| - 1], slot);
      if slot != UrlSlot(last.protocol) {
        KeysDiffer(slot, UrlSlot(last.protocol));
      }
    }
  }

  lemma {:induction false} AddProxiesOfSlots(settings: Settings, proxies: seq<Proxy>)
    requires OfSlots(settings)
    ensures OfSlots(AddProxies(settings, proxies))
  {
    if proxies != [] {
      AddProxiesOfSlots(settings, proxies[..|proxies| - 1]);
    }
  }

  function EnabledSettings(pc: ProxyConfig): Settings {
    if pc.enabled.Some? then map[Key(EnabledSlot) := if pc.enabled.value then "yes" else "no"] else map[]
  }

  lemma SettingsOfSlots(pc: ProxyConfig)
    ensures OfSlots(SettingsOf(pc)) && PlainKeys(SettingsOf(pc))
  {
    AddProxiesOfSlots(EnabledSettings(pc), pc.proxies);
    assert OfSlots(SettingsOf(pc));
    forall k | k in SettingsOf(pc) ensures '=' !in k {
      var slot :| k == Key(slot);
      KeyFacts(slot);
    }
  }

  /** The settings of a configuration are what it has for each slot. */
  lemma ExpandedSettings(c: Config, slot: Slot)
    ensures var settings := SettingsOf(Expand(c));
            && (Key(slot) in settings <==> ValueOf(c, slot).Some?)
            && (Key(slot) in settings ==> Some(settings[Key(slot)]) == ValueOf(c, slot))
  {
    var pc := Expand(c);
    AddProxiesHas(EnabledSettings(pc), pc.proxies, slot);
    if slot.UrlSlot? {
      ExpandHas(c, slot.protocol);
    }
    if !slot.EnabledSlot? {
      KeysDiffer(slot, EnabledSlot);
    }
    if !slot.NoProxySlot? {
      KeysDiffer(slot, NoProxySlot);
    }
  }

  /*** Text and lines ***/

  lemma {:induction false} TrimStartCr(s: string)
    ensures TrimStart(s + "\r") == if TrimStart(s) == "" then "" else TrimStart(s) + "\r"
  {
    if s == "" {
      assert TrimStart("\r") == TrimStart("\r"[1..]);
    } else if IsSpace(s[0]) {
      assert (s + "\r")[1..] == s[1..] + "\r";
      TrimStartCr(s[1..]);
    }
  }

  lemma TrimCr(s: string)
    ensures Trim(s + "\r") == Trim(s)
  {
    TrimStartCr(s);
    var t := TrimStart(s);
    assert (t + "\r")[..|t|] == t;
  }

  /** A carriage return at the end of a line means nothing. */
  lemma SlotWithoutCr(line: string, slot: Slot)
    ensures SlotOf(WithoutCr(line), slot) == SlotOf(line, slot)
  {
    if WithoutCr(line) != line {
      assert line == WithoutCr(line) + "\r";
      TrimCr(WithoutCr(line));
    }
  }

  function WithoutCrs(lines: seq<string>): (r: seq<string>)
    ensures |r| == |lines|
  {
    if lines == [] then [] else [WithoutCr(lines[0])] + WithoutCrs(lines[1..])
  }

  /** Lines that were written are the lines that are read, but for a carriage return at the end. */
  lemma {:induction false} LinesOfUnlines(lines: seq<string>)
    requires forall line | line in lines :: '\n' !in line
    ensures Lines(Unlines(lines)) == WithoutCrs(lines)
  {
    if lines != [] {
      assert lines[0] in lines;
      assert Unlines(lines) == lines[0] + ['\n'] + Unlines(lines[1..]);
      SplitOnceJoined(lines[0], Unlines(lines[1..]), '\n');
      LinesOfUnlines(lines[1..]);
    }
  }

  lemma {:induction false} LastWithoutCrs(lines: seq<string>, slot: Slot)
    ensures Last(WithoutCrs(lines), slot) == Last(lines, slot)
  {
    if lines != [] {
      var first, rest := lines[0], lines[1..];
      assert lines == [first] + rest;
      LastWithoutCrs(rest, slot);
      LastAppend([first], rest, slot);
      LastAppend([WithoutCr(first)], WithoutCrs(rest), slot);
      SlotWithoutCr(first, slot);
      assert Last([first], slot) == SlotOf(first, slot);
      assert Last([WithoutCr(first)], slot) == SlotOf(WithoutCr(first), slot);
    }
  }

  ghost predicate OneLineValues(settings: Settings) {
    forall k | k in settings :: '\n' !in settings[k]
  }

  lemma WrittenIsOneLine(key: string, value: string)
    requires '\n' !in key && '\n' !in value
    ensures '\n' !in Written(key, value)
  {
  }

  lemma WriteIsLines(lines: seq<string>, settings: Settings, order: seq<string>, i: nat)
    requires OfSlots(settings) && OneLineValues(settings) && Enumerates(order, settings.Keys)
    requires (forall line | line in lines :: '\n' !in line) && i < |WriteLines(lines, settings, order)|
    ensures '\n' !in WriteLines(lines, settings, order)[i]
  {
    if i < |lines| {
      WriteKeepsLines(lines, settings, order, i);
      assert lines[i] in lines;
      if k :| k in settings && KeyOf(lines[i]) == Some(k) {
        SlotKeyIsOneLine(settings, k);
        WrittenIsOneLine(k, settings[k]);
      }
    } else {
      var line := Missing(lines, settings, order)[i - |lines|];
      MissingAre(lines, settings, order, line);
      var k :| k in order && line == Written(k, settings[k]);
      SlotKeyIsOneLine(settings, k);
      WrittenIsOneLine(k, settings[k]);
    }
  }

  lemma SlotKeyIsOneLine(settings: Settings, k: string)
    requires OfSlots(settings) && k in settings
    ensures '\n' !in k
  {
    var slot :| k == Key(slot);
    KeyFacts(slot);
  }

  /** The file after writing, as it is read again. */
  lemma RereadSlot(text: string, settings: Settings, order: seq<string>, slot: Slot)
    requires OfSlots(settings) && OneLineValues(settings) && Enumerates(order, settings.Keys)
    ensures var written := WriteLines(Lines(text), settings, order);
            Last(Lines(Unlines(written)), slot) == Last(written, slot)
  {
    var written := WriteLines(Lines(text), settings, order);
    forall line | line in written ensures '\n' !in line {
      var i: nat :| i < |written| && written[i] == line;
      WriteIsLines(Lines(text), settings, order, i);
    }
    LinesOfUnlines(written);
    LastWithoutCrs(written, slot);
  }

  /*** The service ***/

  /** What a slot is after an update: overridden, removed by an empty URL, or kept. */
  function Overridden(was: Option<string>, asked: Option<string>, slot: Slot): Option<string> {
    if asked.Some? then ReadBack(slot, asked.value) else was
  }

  predicate OneLine(value: Option<string>) {
    value.Some? ==> '\n' !in value.value
  }

  lemma ConfigIsOneLine(c: Config)
    requires forall slot :: OneLine(ValueOf(c, slot))
    ensures OneLineValues(SettingsOf(Expand(c)))
  {
    var settings := SettingsOf(Expand(c));
    SettingsOfSlots(Expand(c));
    forall k | k in settings ensures '\n' !in settings[k] {
      var slot :| k == Key(slot);
      ExpandedSettings(c, slot);
      assert OneLine(ValueOf(c, slot));
    }
  }

  /**
   Reading after an update, for any file text and any order of the hash table: each slot is overridden
   by the new configuration, else it is what the file said before.
   */
  lemma UpdateThenRead(text: string, c: Config, order: seq<string>, slot: Slot)
    requires Enumerates(order, SettingsOf(Expand(c)).Keys)
    requires (forall s :: OneLine(ValueOf(c, s))) && (ValueOf(c, slot).Some? ==> Editable(Lines(text), slot))
    ensures var after := Unlines(WriteLines(Lines(text), SettingsOf(Expand(c)), order));
            ValueOf(Collapse(ReadLines(Lines(after))), slot)
            == Overridden(ValueOf(Collapse(ReadLines(Lines(text))), slot), ValueOf(c, slot), slot)
  {
    var after := Unlines(WriteLines(Lines(text), SettingsOf(Expand(c)), order));
    LastAfterUpdate(text, c, order, slot);
    CollapseHas(Lines(after), slot);
    CollapseHas(Lines(text), slot);
    ShownOverridden(Last(Lines(text), slot), c, slot);
  }

  lemma ShownOverridden(was: Option<string>, c: Config, slot: Slot)
    ensures Shown(slot, Overridden(was, ValueOf(c, slot), slot)) == Overridden(Shown(slot, was), ValueOf(c, slot), slot)
  {
    PlainQuotes();
  }

  /** The same for the lines themselves. */
  lemma LastAfterUpdate(text: string, c: Config, order: seq<string>, slot: Slot)
    requires Enumerates(order, SettingsOf(Expand(c)).Keys)
    requires (forall s :: OneLine(ValueOf(c, s))) && (ValueOf(c, slot).Some? ==> Editable(Lines(text), slot))
    ensures Last(Lines(Unlines(WriteLines(Lines(text), SettingsOf(Expand(c)), order))), slot)
         == Overridden(Last(Lines(text), slot), ValueOf(c, slot), slot)
  {
    SettingsOfSlots(Expand(c));
    ConfigIsOneLine(c);
    ExpandedSettings(c, slot);
    RereadSlot(text, SettingsOf(Expand(c)), order, slot);
    ReadAfterWrite(Lines(text), SettingsOf(Expand(c)), order, slot);
  }

  /** Every slot that the file lets the configuration override is overridden, and the others are kept. */
  ghost predicate Overrides(text: string, c: Config, after: ProxyConfig) {
    forall slot | ValueOf(c, slot).Some? ==> Editable(Lines(text), slot) ::
      ValueOf(Collapse(after), slot)
      == Overridden(ValueOf(Collapse(ReadLines(Lines(text))), slot), ValueOf(c, slot), slot)
  }

  lemma UpdateOverrides(text: string, c: Config, order: seq<string>)
    requires Enumerates(order, SettingsOf(Expand(c)).Keys) && forall s :: OneLine(ValueOf(c, s))
    ensures Overrides(text, c, ReadLines(Lines(Unlines(WriteLines(Lines(text), SettingsOf(Expand(c)), order)))))
  {
    var after := ReadLines(Lines(Unlines(WriteLines(Lines(text), SettingsOf(Expand(c)), order))));
    forall slot | ValueOf(c, slot).Some? ==> Editable(Lines(text), slot)
      ensures ValueOf(Collapse(after), slot)
           == Overridden(ValueOf(Collapse(ReadLines(Lines(text))), slot), ValueOf(c, slot), slot)
    {
      UpdateThenRead(text, c, order, slot);
    }
  }

  class State {
    var config: Option<ProxyConfig>
    /** The text of the file, if there is one. */
    var file: Option<string>

    method Load()
      modifies this`config
      ensures config == if file.None? then None else Some(ReadLines(Lines(file.value)))
    {
      if file.None? {
        config := None;
      } else {
        var c := ReadFrom(Lines(file.value));
        config := Some(c);
      }
    }

    method ToConfig(proxyConfig: ProxyConfig) returns (c: Config)
      ensures c == Collapse(proxyConfig)
    {
      c := Config(proxyConfig.enabled, proxyConfig.noProxy, None, None, None, None, None, None);
      ghost var start := c;
      var i := 0;
      while i < |proxyConfig.proxies|
        invariant i <= |proxyConfig.proxies| && c == WithUrls(start, proxyConfig.proxies[..i])
      {
        assert proxyConfig.proxies[..i + 1][..i] == proxyConfig.proxies[..i];
        var url := proxyConfig.proxies[i].url;
        match proxyConfig.proxies[i].protocol {
          case FTP => c := c.(ftp := Some(url));
          case HTTP => c := c.(http := Some(url));
          case HTTPS => c := c.(https := Some(url));
          case GOPHER => c := c.(gopher := Some(url));
          case SOCKS => c := c.(socks := Some(url));
          case SOCKS5 => c := c.(socks5 := Some(url));
        }
        i := i + 1;
      }
      assert proxyConfig.proxies[..i] == proxyConfig.proxies;
    }

    method Push(proxies: seq<Proxy>, c: Config, p: Protocol) returns (r: seq<Proxy>)
      ensures r == proxies + OneProxy(c, p)
    {
      r := proxies;
      if Url(c, p).Some? {
        r := r + [Proxy.Proxy(Url(c, p).value, p)];
      }
    }

    method ProxiesFrom(c: Config) returns (proxies: seq<Proxy>)
      ensures proxies == Expand(c).proxies
    {
      proxies := Push([], c, FTP);
      assert proxies == OneProxy(c, FTP);
      proxies := Push(proxies, c, HTTP);
      proxies := Push(proxies, c, HTTPS);
      proxies := Push(proxies, c, GOPHER);
      proxies := Push(proxies, c, SOCKS);
      proxies := Push(proxies, c, SOCKS5);
    }

    method UpdateConfig(c: Config) returns (ghost order: seq<string>)
      modifies this
      ensures Enumerates(order, SettingsOf(Expand(c)).Keys)
      ensures file == Some(Unlines(WriteLines(Lines(old(file).GetOr("")), SettingsOf(Expand(c)), order)))
      ensures config == Some(ReadLines(Lines(file.value)))
      ensures (forall s :: OneLine(ValueOf(c, s))) ==> Overrides(old(file).GetOr(""), c, config.value)
    {
      var proxies := ProxiesFrom(c);
      order := Write(ProxyConfig(proxies, c.enabled, c.noProxy));
      Load();
      if forall s :: OneLine(ValueOf(c, s)) {
        UpdateOverrides(old(file).GetOr(""), c, order);
      }
    }

    method Write(pc: ProxyConfig) returns (ghost order: seq<string>)
      modifies this`file
      ensures Enumerates(order, SettingsOf(pc).Keys)
      ensures file == Some(Unlines(WriteLines(Lines(old(file).GetOr("")), SettingsOf(pc), order)))
    {
      SettingsOfSlots(pc);
      var settings := CollectSettings(pc);
      var lines;
      lines, order := WriteTo(Lines(file.GetOr("")), settings);
      file := Some(Unlines(lines));
    }
  }
}
