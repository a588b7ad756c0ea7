/**
 The proxy configuration file (rust/agama-proxy/src/model.rs): reading it, and editing it in place.
 The file is read line by line; a line never holds a line feed.
 */
module ProxyFile {
  import opened Events
  import opened Sequences
  import opened Text

  datatype Protocol = FTP | HTTP | HTTPS | GOPHER | SOCKS | SOCKS5

  datatype Proxy = Proxy(url: string, protocol: Protocol)

  datatype ProxyConfig = ProxyConfig(proxies: seq<Proxy>, enabled: Option<bool>, noProxy: Option<string>)

  /** What a line of the file can set. */
  datatype Slot = EnabledSlot | NoProxySlot | UrlSlot(protocol: Protocol)

  /*** Reading ***/

  function ParseProtocol(name: string): Option<Protocol> {
    match name
    case "ftp" => Some(FTP)
    case "http" => Some(HTTP)
    case "https" => Some(HTTPS)
    case "gopher" => Some(GOPHER)
    case "socks" => Some(SOCKS)
    case "socks5" => Some(SOCKS5)
    case _ => None
  }

  /** `to_lowercase` as far as it can give ASCII letters: U+212A is the Kelvin sign. */
  function Lower(s: string): string {
    if s == "" then ""
    else
      [if 'A' <= s[0] <= 'Z' then s[0] + 32 as char else if s[0] as int == 0x212A then 'k' else s[0]] + Lower(s[1..])
  }

  predicate EndsWith(s: string, suffix: string) {
    |suffix| <= |s| && s[|s| - |suffix|..] == suffix
  }

  /** `trim_end_matches` removes the suffix as often as it is there. */
  function WithoutSuffix(s: string, suffix: string): string
    requires suffix != ""
  {
    if EndsWith(s, suffix) then WithoutSuffix(s[..|s| - |suffix|], suffix) else s
  }

  function TrimQuotesStart(s: string): (r: string)
    ensures r == "" || r[0] != '"'
  {
    if s != "" && s[0] == '"' then TrimQuotesStart(s[1..]) else s
  }

  function TrimQuotesEnd(s: string): (r: string)
    ensures r <= s && (r == "" || r[|r| - 1] != '"')
  {
    if s != "" && s[|s| - 1] == '"' then TrimQuotesEnd(s[..|s| - 1]) else s
  }

  /** `trim_matches('"')` */
  function TrimQuotes(s: string): string {
    TrimQuotesEnd(TrimQuotesStart(s))
  }

  function Setting(key: string, value: string): Option<(Slot, string)> {
    if key == "PROXY_ENABLED" then Some((EnabledSlot, value))
    else if key == "SOCKS5_SERVER" && value != "" then Some((UrlSlot(SOCKS5), value))
    else if key == "NO_PROXY" then Some((NoProxySlot, value))
    else if EndsWith(key, "_PROXY") then
      match ParseProtocol(Lower(WithoutSuffix(key, "_PROXY")))
      case Some(protocol) => if value != "" then Some((UrlSlot(protocol), value)) else None
      case None => None
    else None
  }

  /** What a line sets. */
  function LineSetting(line: string): Option<(Slot, string)> {
    var text := Trim(line);
    if text == "" || text[0] == '#' then None
    else
      match SplitOnce(text, '=')
      case None => None
      case Some((key, value)) => Setting(Trim(key), TrimQuotes(Trim(value)))
  }

  function SlotOf(line: string, slot: Slot): Option<string> {
    var s := LineSetting(line);
    if s.Some? && s.value.0 == slot then Some(s.value.1) else None
  }

  /** The last line that sets the slot decides. */
  function Last(lines: seq<string>, slot: Slot): Option<string> {
    if lines == [] then None
    else
      var last := SlotOf(lines[|lines| - 1], slot);
      if last.Some? then last else Last(lines[..|lines| - 1], slot)
  }

  function LineProxies(line: string): seq<Proxy> {
    var s := LineSetting(line);
    if s.Some? && s.value.0.UrlSlot? then [Proxy.Proxy(s.value.1, s.value.0.protocol)] else []
  }

  /** The proxies of the file, in the order of the lines. */
  function ProxiesOf(lines: seq<string>): seq<Proxy> {
    if lines == [] then []
    else ProxiesOf(lines[..|lines| - 1]) + LineProxies(lines[|lines| - 1])
  }

  function IsYes(value: Option<string>): Option<bool> {
    if value.None? then None else Some(value.value == "yes")
  }

  function ReadLines(lines: seq<string>): ProxyConfig {
    ProxyConfig(ProxiesOf(lines), IsYes(Last(lines, EnabledSlot)), Last(lines, NoProxySlot))
  }

  function WithSetting(c: ProxyConfig, s: Option<(Slot, string)>): ProxyConfig {
    match s
    case None => c
    case Some((EnabledSlot, value)) => c.(enabled := Some(value == "yes"))
    case Some((NoProxySlot, value)) => c.(noProxy := Some(value))
    case Some((UrlSlot(protocol), value)) => c.(proxies := c.proxies + [Proxy.Proxy(value, protocol)])
  }

  lemma ReadStep(lines: seq<string>, i: nat)
    requires i < |lines|
    ensures ReadLines(lines[..i + 1]) == WithSetting(ReadLines(lines[..i]), LineSetting(lines[i]))
  {
    assert lines[..i + 1][..i] == lines[..i];
  }

  method ReadSetting(config: ProxyConfig, key: string, value: string) returns (r: ProxyConfig)
    ensures r == WithSetting(config, Setting(key, value))
  {
    r := config;
    if key == "PROXY_ENABLED" {
      r := r.(enabled := Some(value == "yes"));
    } else if key == "SOCKS5_SERVER" && value != "" {
      r := r.(proxies := r.proxies + [Proxy.Proxy(value, SOCKS5)]);
    } else if key == "NO_PROXY" {
      r := r.(noProxy := Some(value));
    } else if EndsWith(key, "_PROXY") {
      var protocol := ParseProtocol(Lower(WithoutSuffix(key, "_PROXY")));
      if protocol.Some? && value != "" {
        r := r.(proxies := r.proxies + [Proxy.Proxy(value, protocol.value)]);
      }
    }
  }

  method ReadLine(config: ProxyConfig, text: string) returns (r: ProxyConfig)
    ensures r == WithSetting(config, LineSetting(text))
  {
    r := config;
    var line := Trim(text);
    if line != "" && line[0] != '#' {
      var pair := SplitOnce(line, '=');
      if pair.Some? {
        r := ReadSetting(config, Trim(pair.value.0), TrimQuotes(Trim(pair.value.1)));
      }
    }
  }

  method ReadFrom(lines: seq<string>) returns (config: ProxyConfig)
    ensures config == ReadLines(lines)
  {
    config := ProxyConfig([], None, None);
    var i := 0;
    while i < |lines|
      invariant i <= |lines| && config == ReadLines(lines[..i])
    {
      ReadStep(lines, i);
      config := ReadLine(config, lines[i]);
      i := i + 1;
    }
    assert lines[..i] == lines;
  }

  /*** Writing ***/

  function UpperName(p: Protocol): string {
    match p
    case FTP => "FTP"
    case HTTP => "HTTP"
    case HTTPS => "HTTPS"
    case GOPHER => "GOPHER"
    case SOCKS => "SOCKS"
    case SOCKS5 => "SOCKS5"
  }

  /** The key under which a slot is written. */
  function Key(slot: Slot): string {
    match slot
    case EnabledSlot => "PROXY_ENABLED"
    case NoProxySlot => "NO_PROXY"
    case UrlSlot(SOCKS5) => "SOCKS5_SERVER"
    case UrlSlot(p) => UpperName(p) + "_PROXY"
  }

  type Settings = map<string, string>

  function AddProxies(settings: Settings, proxies: seq<Proxy>): Settings {
    if proxies == [] then settings
    else
      var last := proxies[|proxies| - 1];
      AddProxies(settings, proxies[..|proxies| - 1])[Key(UrlSlot(last.protocol)) := last.url]
  }

  function SettingsOf(config: ProxyConfig): Settings {
    var enabled := if config.enabled.Some? then map[Key(EnabledSlot) := if config.enabled.value then "yes" else "no"]
                   else map[];
    var urls := AddProxies(enabled, config.proxies);
    if config.noProxy.Some? then urls[Key(NoProxySlot) := config.noProxy.value] else urls
  }

  function Written(key: string, value: string): string {
    key + "=" + "\"" + value + "\""
  }

  /** The key that a line holds at its beginning, right before the equals sign. */
  function KeyOf(line: string): Option<string> {
    match SplitOnce(TrimStart(line), '=')
    case None => None
    case Some((key, _)) => Some(key)
  }

  function EditLine(line: string, settings: Settings): string {
    match KeyOf(line)
    case None => line
    case Some(key) => if key in settings then Written(key, settings[key]) else line
  }

  function Edit(lines: seq<string>, settings: Settings): (r: seq<string>)
    ensures |r| == |lines|
  {
    if lines == [] then []
    else Edit(lines[..|lines| - 1], settings) + [EditLine(lines[|lines| - 1], settings)]
  }

  predicate BeginsWithKey(lines: seq<string>, i: nat, key: string) {
    i < |lines| && KeyOf(lines[i]) == Some(key)
  }

  predicate HasKeyLine(lines: seq<string>, key: string) {
    exists i: nat | i < |lines| :: BeginsWithKey(lines, i, key)
  }

  /** The missing keys, in the order in which the hash table is iterated. */
  function Missing(lines: seq<string>, settings: Settings, order: seq<string>): seq<string>
    requires forall k | k in order :: k in settings
  {
    if order == [] then []
    else
      var last := order[|order| - 1];
      Missing(lines, settings, order[..|order| - 1])
      + (if HasKeyLine(lines, last) then [] else [Written(last, settings[last])])
  }

  function WriteLines(lines: seq<string>, settings: Settings, order: seq<string>): seq<string>
    requires forall k | k in order :: k in settings
  {
    Edit(lines, settings) + Missing(lines, settings, order)
  }

  predicate StartsWith(s: string, prefix: string) {
    prefix <= s
  }

  lemma PrefixKey(text: string, key: string)
    requires '=' !in key
    ensures StartsWith(text, key + "=") <==> Find(text, '=') == |key| < |text| && text[..|key|] == key
  {
    var n := Find(text, '=');
    var prefix := key + "=";
    if prefix <= text {
      assert text[|key|] == prefix[|key|] == '=';
      assert forall i | 0 <= i < |key| :: text[i] == prefix[i] == key[i] && key[i] in key;
    }
    if n == |key| < |text| && text[..n] == key {
      assert text[..n + 1] == prefix;
    }
  }

  /** Keys hold no equals sign, so at most one of them starts a line. */
  lemma StartsWithKey(line: string, key: string)
    requires '=' !in key
    ensures StartsWith(TrimStart(line), key + "=") <==> KeyOf(line) == Some(key)
  {
    PrefixKey(TrimStart(line), key);
  }

  ghost predicate PlainKeys(settings: Settings) {
    forall k | k in settings :: '=' !in k
  }

  function UsedKey(line: string, settings: Settings): set<string> {
    match KeyOf(line)
    case None => {}
    case Some(key) => if key in settings then {key} else {}
  }

  /** The keys for which the file has a line. */
  function UsedKeys(lines: seq<string>, settings: Settings): set<string> {
    if lines == [] then {}
    else UsedKeys(lines[..|lines| - 1], settings) + UsedKey(lines[|lines| - 1], settings)
  }

  lemma EditStep(lines: seq<string>, i: nat, settings: Settings)
    requires i < |lines|
    ensures Edit(lines[..i + 1], settings) == Edit(lines[..i], settings) + [EditLine(lines[i], settings)]
    ensures UsedKeys(lines[..i + 1], settings) == UsedKeys(lines[..i], settings) + UsedKey(lines[i], settings)
  {
    assert lines[..i + 1][..i] == lines[..i];
  }

  /** The inner loop tries the keys in the order that the hash table chooses. */
  method MatchingKey(line: string, settings: Settings) returns (found: Option<string>)
    requires PlainKeys(settings)
    ensures found.Some? ==> found.value in settings && KeyOf(line) == found
    ensures found.None? ==> forall k | k in settings :: KeyOf(line) != Some(k)
  {
    var trimmed := TrimStart(line);
    var left := settings.Keys;
    while left != {}
      invariant left <= settings.Keys
      invariant forall k | k in settings && k !in left :: KeyOf(line) != Some(k)
      decreases |left|
    {
      var key: string :| key in left;
      StartsWithKey(line, key);
      if StartsWith(trimmed, key + "=") {
        return Some(key);
      }
      left := left - {key};
    }
    found := None;
  }

  method ReplaceLine(line: string, settings: Settings, processed: set<string>) returns (r: string, used: set<string>)
    requires PlainKeys(settings)
    ensures r == EditLine(line, settings)
    ensures used == processed + UsedKey(line, settings)
  {
    var key := MatchingKey(line, settings);
    if key.Some? {
      r, used := Written(key.value, settings[key.value]), processed + {key.value};
    } else {
      r, used := line, processed;
    }
  }

  lemma HasKeyLineAppend(a: seq<string>, b: seq<string>, key: string)
    ensures HasKeyLine(a + b, key) <==> HasKeyLine(a, key) || HasKeyLine(b, key)
  {
    if i: nat :| i < |a| && BeginsWithKey(a, i, key) {
      assert BeginsWithKey(a + b, i, key);
    }
    if i: nat :| i < |b| && BeginsWithKey(b, i, key) {
      assert BeginsWithKey(a + b, |a| + i, key);
    }
    if i: nat :| i < |a + b| && BeginsWithKey(a + b, i, key) {
      assert if i < |a| then BeginsWithKey(a, i, key) else BeginsWithKey(b, i - |a|, key);
    }
  }

  lemma HasKeyLineStep(lines: seq<string>, i: nat, key: string)
    requires i < |lines|
    ensures HasKeyLine(lines[..i + 1], key) <==> HasKeyLine(lines[..i], key) || KeyOf(lines[i]) == Some(key)
  {
    assert lines[..i + 1] == lines[..i] + [lines[i]];
    HasKeyLineAppend(lines[..i], [lines[i]], key);
    assert KeyOf(lines[i]) == Some(key) <==> BeginsWithKey([lines[i]], 0, key);
  }

  lemma {:induction false} UsedKeysHave(lines: seq<string>, settings: Settings, key: string)
    ensures key in UsedKeys(lines, settings) <==> key in settings && HasKeyLine(lines, key)
  {
    if lines != [] {
      var last := |lines| - 1;
      UsedKeysHave(lines[..last], settings, key);
      HasKeyLineStep(lines, last, key);
      assert lines[..last + 1] == lines;
    }
  }

  method AppendMissing(lines: seq<string>, settings: Settings, processed: set<string>)
    returns (missing: seq<string>, ghost order: seq<string>)
    requires processed == UsedKeys(lines, settings)
    ensures Enumerates(order, settings.Keys) && missing == Missing(lines, settings, order)
  {
    missing, order := [], [];
    var left := settings.Keys;
    while left != {}
      invariant left <= settings.Keys
      invariant NoRepeats(order)
      invariant forall k :: k in order <==> k in settings && k !in left
      invariant missing == Missing(lines, settings, order)
      decreases |left|
    {
      var key: string :| key in left;
      UsedKeysHave(lines, settings, key);
      if key !in processed {
        missing := missing + [Written(key, settings[key])];
      }
      left, order := left - {key}, order + [key];
    }
  }

  method EditLines(lines: seq<string>, settings: Settings) returns (newLines: seq<string>, processed: set<string>)
    requires PlainKeys(settings)
    ensures newLines == Edit(lines, settings) && processed == UsedKeys(lines, settings)
  {
    newLines, processed := [], {};
    var i := 0;
    while i < |lines|
      invariant i <= |lines| && newLines == Edit(lines[..i], settings)
      invariant processed == UsedKeys(lines[..i], settings)
    {
      var line;
      line, processed := ReplaceLine(lines[i], settings, processed);
      newLines := newLines + [line];
      EditStep(lines, i, settings);
      i := i + 1;
    }
    assert lines[..i] == lines;
  }

  method WriteTo(lines: seq<string>, settings: Settings) returns (newLines: seq<string>, ghost order: seq<string>)
    requires PlainKeys(settings)
    ensures Enumerates(order, settings.Keys) && newLines == WriteLines(lines, settings, order)
    ensures Edit(lines, settings) <= newLines
  {
    var edited, processed := EditLines(lines, settings);
    var missing;
    missing, order := AppendMissing(lines, settings, processed);
    newLines := edited + missing;
  }

  method CollectProxies(start: Settings, proxies: seq<Proxy>) returns (settings: Settings)
    ensures settings == AddProxies(start, proxies)
  {
    settings := start;
    var i := 0;
    while i < |proxies|
      invariant i <= |proxies| && settings == AddProxies(start, proxies[..i])
    {
      assert proxies[..i + 1][..i] == proxies[..i];
      settings := settings[Key(UrlSlot(proxies[i].protocol)) := proxies[i].url];
      i := i + 1;
    }
    assert proxies[..i] == proxies;
  }

  method CollectSettings(config: ProxyConfig) returns (settings: Settings)
    ensures settings == SettingsOf(config)
  {
    settings := map[];
    if config.enabled.Some? {
      settings := settings[Key(EnabledSlot) := if config.enabled.value then "yes" else "no"];
    }
    settings := CollectProxies(settings, config.proxies);
    if config.noProxy.Some? {
      settings := settings[Key(NoProxySlot) := config.noProxy.value];
    }
  }

  /*** The file as text ***/

  function WithoutCr(line: string): string {
    if line != "" && line[|line| - 1] == '\r' then line[..|line| - 1] else line
  }

  /** `BufRead::lines`: a line ends with a line feed, or a carriage return and a line feed. */
  function Lines(text: string): (r: seq<string>)
    ensures forall line | line in r :: '\n' !in line
    decreases |text|
  {
    if text == "" then []
    else
      match SplitOnce(text, '\n')
      case None => [text]
      case Some((line, rest)) => [WithoutCr(line)] + Lines(rest)
  }

  /** `writeln` for each line. */
  function Unlines(lines: seq<string>): string {
    if lines == [] then "" else lines[0] + "\n" + Unlines(lines[1..])
  }
}
