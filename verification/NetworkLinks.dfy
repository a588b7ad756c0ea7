/**
 Wireless, VLAN and 802.1X settings (rust/agama-network/src/model.rs): the tables between texts and
 values, and which settings and configurations correspond. The text of a MAC address stands for the
 address that the library reads from it.
 */
module NetworkLinks {
  import opened Events

  datatype MacText = Address(number: nat) | NotAnAddress(text: string)

  datatype LinkError =
    | InvalidVlanProtocol(text: string)
    | InvalidWirelessMode(text: string)
    | InvalidSecurityProtocol(text: string)
    | InvalidWirelessBand(text: string)
    | InvalidBssid(text: string)
    | InvalidGroupAlgorithm(text: string)
    | InvalidEapMethod(text: string)
    | InvalidPhase2AuthMethod(text: string)

  datatype Parsed<+T> = Good(value: T) | Bad(error: LinkError)

  /*** Lists of texts ***/

  /** All texts are parsed, up to the first that cannot be. */
  function ParseEach<T>(texts: seq<string>, parse: string -> Option<T>, error: string -> LinkError): Parsed<seq<T>> {
    if texts == [] then Good([])
    else
      match parse(texts[0])
      case None => Bad(error(texts[0]))
      case Some(x) =>
        match ParseEach(texts[1..], parse, error)
        case Bad(e) => Bad(e)
        case Good(rest) => Good([x] + rest)
  }

  function PrintEach<T>(xs: seq<T>, show: T -> string): seq<string> {
    if xs == [] then [] else [show(xs[0])] + PrintEach(xs[1..], show)
  }

  /** If a table accepts exactly what it prints, so do lists of its values. */
  lemma {:induction false} ParseEachExactly<T(!new)>(texts: seq<string>, parse: string -> Option<T>, show: T -> string,
                                                     error: string -> LinkError, xs: seq<T>)
    requires forall t: string, x: T :: parse(t) == Some(x) <==> t == show(x)
    ensures ParseEach(texts, parse, error) == Good(xs) <==> texts == PrintEach(xs, show)
  {
    if texts != [] && xs != [] {
      ParseEachExactly(texts[1..], parse, show, error, xs[1..]);
      var printed := PrintEach(xs, show);
      assert printed[1..] == PrintEach(xs[1..], show);
      assert texts == printed <==> texts[0] == printed[0] && texts[1..] == printed[1..] by {
        assert texts == [texts[0]] + texts[1..] && printed == [printed[0]] + printed[1..];
      }
      assert xs == [xs[0]] + xs[1..];
    }
  }

  /*** VLAN ***/

  datatype VlanProtocol = Q | AD

  datatype VlanFlag = ReorderHeaders | Gvrp | LooseBinding | Mvrp

  datatype VlanSettings = VlanSettings(parent: string, id: nat, protocol: Option<string>, flags: Option<seq<VlanFlag>>)

  datatype VlanConfig = VlanConfig(parent: string, id: nat, protocol: VlanProtocol, flags: Option<seq<VlanFlag>>)

  function ParseVlanProtocol(text: string): Option<VlanProtocol> {
    match text
    case "802.1Q" => Some(Q)
    case "802.1ad" => Some(AD)
    case _ => None
  }

  function PrintVlanProtocol(p: VlanProtocol): string {
    match p
    case Q => "802.1Q"
    case AD => "802.1ad"
  }

  function ReadVlan(s: VlanSettings): Parsed<VlanConfig> {
    if s.protocol.None? then Good(VlanConfig(s.parent, s.id, Q, s.flags))
    else
      match ParseVlanProtocol(s.protocol.value)
      case None => Bad(InvalidVlanProtocol(s.protocol.value))
      case Some(p) => Good(VlanConfig(s.parent, s.id, p, s.flags))
  }

  function ShowVlan(c: VlanConfig): VlanSettings {
    VlanSettings(c.parent, c.id, Some(PrintVlanProtocol(c.protocol)), c.flags)
  }

  /** The settings that give a configuration are its declared form, and that without the default protocol. */
  lemma VlanExactly(s: VlanSettings, c: VlanConfig)
    ensures ReadVlan(s) == Good(c) <==> s == ShowVlan(c) || (s == ShowVlan(c).(protocol := None) && c.protocol == Q)
  {
  }

  /*** Wireless ***/

  datatype WirelessMode = UnknownMode | AdHoc | Infra | AP | Mesh

  datatype SecurityProtocol = WEP | OWE | DynamicWEP | WPA2 | WPA3Personal | WPA2Enterprise | WPA3Only

  datatype WirelessBand = A | BG

  datatype GroupAlgorithm = Wep40 | Wep104 | Tkip | Ccmp

  datatype PairwiseAlgorithm = PairTkip | PairCcmp

  datatype WpaVersion = Wpa | Rsn

  datatype WepAuthAlg = Unset | Open | Shared | Leap

  datatype WepSecurity = WepSecurity(authAlg: WepAuthAlg, keys: seq<string>, keyIndex: nat)

  datatype WirelessSettings = WirelessSettings(
    ssid: string, mode: string, security: string, password: Option<string>, band: Option<string>, channel: nat,
    bssid: Option<MacText>, hidden: bool, group: seq<string>, pairwise: seq<string>, wpa: seq<string>, pmf: int)

  datatype WirelessConfig = WirelessConfig(
    ssid: string, mode: WirelessMode, security: SecurityProtocol, password: Option<string>,
    band: Option<WirelessBand>, channel: nat, bssid: Option<nat>, hidden: bool, group: seq<GroupAlgorithm>,
    pairwise: seq<PairwiseAlgorithm>, wpa: seq<WpaVersion>, pmf: int, wep: Option<WepSecurity>)

  function ParseMode(text: string): Option<WirelessMode> {
    match text
    case "unknown" => Some(UnknownMode)
    case "adhoc" => Some(AdHoc)
    case "infrastructure" => Some(Infra)
    case "ap" => Some(AP)
    case "mesh" => Some(Mesh)
    case _ => None
  }

  function PrintMode(m: WirelessMode): string {
    match m
    case UnknownMode => "unknown"
    case AdHoc => "adhoc"
    case Infra => "infrastructure"
    case AP => "ap"
    case Mesh => "mesh"
  }

  function ParseSecurity(text: string): Option<SecurityProtocol> {
    match text
    case "none" => Some(WEP)
    case "owe" => Some(OWE)
    case "ieee8021x" => Some(DynamicWEP)
    case "wpa-psk" => Some(WPA2)
    case "sae" => Some(WPA3Personal)
    case "wpa-eap" => Some(WPA2Enterprise)
    case "wpa-eap-suite-b-192" => Some(WPA3Only)
    case _ => None
  }

  function PrintSecurity(p: SecurityProtocol): string {
    match p
    case WEP => "none"
    case OWE => "owe"
    case DynamicWEP => "ieee8021x"
    case WPA2 => "wpa-psk"
    case WPA3Personal => "sae"
    case WPA2Enterprise => "wpa-eap"
    case WPA3Only => "wpa-eap-suite-b-192"
  }

  function ParseBand(text: string): Option<WirelessBand> {
    match text
    case "a" => Some(A)
    case "bg" => Some(BG)
    case _ => None
  }

  function PrintBand(b: WirelessBand): string {
    match b
    case A => "a"
    case BG => "bg"
  }

  function ParseGroup(text: string): Option<GroupAlgorithm> {
    match text
    case "wep40" => Some(Wep40)
    case "wep104" => Some(Wep104)
    case "tkip" => Some(Tkip)
    case "ccmp" => Some(Ccmp)
    case _ => None
  }

  function PrintGroup(g: GroupAlgorithm): string {
    match g
    case Wep40 => "wep40"
    case Wep104 => "wep104"
    case Tkip => "tkip"
    case Ccmp => "ccmp"
  }

  function ParsePairwise(text: string): Option<PairwiseAlgorithm> {
    match text
    case "tkip" => Some(PairTkip)
    case "ccmp" => Some(PairCcmp)
    case _ => None
  }

  function PrintPairwise(p: PairwiseAlgorithm): string {
    match p
    case PairTkip => "tkip"
    case PairCcmp => "ccmp"
  }

  function ParseWpa(text: string): Option<WpaVersion> {
    match text
    case "wpa" => Some(Wpa)
    case "rsn" => Some(Rsn)
    case _ => None
  }

  function PrintWpa(v: WpaVersion): string {
    match v
    case Wpa => "wpa"
    case Rsn => "rsn"
  }

  function ParseWepAuth(text: string): Option<WepAuthAlg> {
    match text
    case "open" => Some(Open)
    case "shared" => Some(Shared)
    case "leap" => Some(Leap)
    case "" => Some(Unset)
    case _ => None
  }

  function PrintWepAuth(a: WepAuthAlg): string {
    match a
    case Open => "open"
    case Shared => "shared"
    case Leap => "shared"
    case Unset => ""
  }

  /** Each of these tables accepts exactly what it prints ... */
  lemma TablesExact(text: string)
    ensures forall x :: ParseVlanProtocol(text) == Some(x) <==> text == PrintVlanProtocol(x)
    ensures forall x :: ParseMode(text) == Some(x) <==> text == PrintMode(x)
    ensures forall x :: ParseSecurity(text) == Some(x) <==> text == PrintSecurity(x)
    ensures forall x :: ParseBand(text) == Some(x) <==> text == PrintBand(x)
  {
  }

  lemma ListTablesExact(text: string)
    ensures forall x :: ParseGroup(text) == Some(x) <==> text == PrintGroup(x)
    ensures forall x :: ParsePairwise(text) == Some(x) <==> text == PrintPairwise(x)
    ensures forall x :: ParseWpa(text) == Some(x) <==> text == PrintWpa(x)
  {
  }

  /** ... but the authentication of WEP does not: LEAP is printed as another one. */
  lemma WepAuthExactly(a: WepAuthAlg)
    ensures ParseWepAuth(PrintWepAuth(a)) == Some(a) <==> a != Leap
  {
  }

  function GroupError(text: string): LinkError {
    InvalidGroupAlgorithm(text)
  }

  function EapError(text: string): LinkError {
    InvalidEapMethod(text)
  }

  /** Errors in the other two lists are reported as if they were group algorithms. */
  function ReadLists(s: WirelessSettings): Parsed<(seq<GroupAlgorithm>, seq<PairwiseAlgorithm>, seq<WpaVersion>)> {
    match ParseEach(s.group, ParseGroup, GroupError)
    case Bad(e) => Bad(e)
    case Good(group) =>
      match ParseEach(s.pairwise, ParsePairwise, GroupError)
      case Bad(e) => Bad(e)
      case Good(pairwise) =>
        match ParseEach(s.wpa, ParseWpa, GroupError)
        case Bad(e) => Bad(e)
        case Good(wpa) => Good((group, pairwise, wpa))
  }

  function ReadWireless(s: WirelessSettings): Parsed<WirelessConfig> {
    if ParseMode(s.mode).None? then Bad(InvalidWirelessMode(s.mode))
    else if ParseSecurity(s.security).None? then Bad(InvalidSecurityProtocol(s.security))
    else if s.band.Some? && ParseBand(s.band.value).None? then Bad(InvalidWirelessBand(s.band.value))
    else if s.bssid.Some? && s.bssid.value.NotAnAddress? then Bad(InvalidBssid(s.bssid.value.text))
    else
      match ReadLists(s)
      case Bad(e) => Bad(e)
      case Good((group, pairwise, wpa)) =>
        Good(WirelessConfig(
          s.ssid, ParseMode(s.mode).value, ParseSecurity(s.security).value, s.password,
          if s.band.Some? then ParseBand(s.band.value) else None, s.channel,
          if s.bssid.Some? then Some(s.bssid.value.number) else None, s.hidden, group, pairwise, wpa, s.pmf, None))
  }

  /** The declared form has no place for the WEP keys. */
  function ShowWireless(c: WirelessConfig): WirelessSettings {
    WirelessSettings(
      c.ssid, PrintMode(c.mode), PrintSecurity(c.security), c.password,
      if c.band.Some? then Some(PrintBand(c.band.value)) else None, c.channel,
      if c.bssid.Some? then Some(Address(c.bssid.value)) else None, c.hidden,
      PrintEach(c.group, PrintGroup), PrintEach(c.pairwise, PrintPairwise), PrintEach(c.wpa, PrintWpa), c.pmf)
  }

  lemma ListsExactly(s: WirelessSettings, group: seq<GroupAlgorithm>, pairwise: seq<PairwiseAlgorithm>,
                     wpa: seq<WpaVersion>)
    ensures ReadLists(s) == Good((group, pairwise, wpa))
            <==> s.group == PrintEach(group, PrintGroup) && s.pairwise == PrintEach(pairwise, PrintPairwise)
                 && s.wpa == PrintEach(wpa, PrintWpa)
  {
    forall text: string
      ensures forall x :: ParseGroup(text) == Some(x) <==> text == PrintGroup(x)
      ensures forall x :: ParsePairwise(text) == Some(x) <==> text == PrintPairwise(x)
      ensures forall x :: ParseWpa(text) == Some(x) <==> text == PrintWpa(x)
    {
      ListTablesExact(text);
    }
    ParseEachExactly(s.group, ParseGroup, PrintGroup, GroupError, group);
    ParseEachExactly(s.pairwise, ParsePairwise, PrintPairwise, GroupError, pairwise);
    ParseEachExactly(s.wpa, ParseWpa, PrintWpa, GroupError, wpa);
  }

  /** The only settings that give a configuration are its declared form, and none give one with WEP keys. */
  lemma WirelessExactly(s: WirelessSettings, c: WirelessConfig)
    ensures ReadWireless(s) == Good(c) <==> s == ShowWireless(c) && c.wep.None?
  {
    ListsExactly(s, c.group, c.pairwise, c.wpa);
    TablesExact(s.mode);
    TablesExact(s.security);
    if s.band.Some? {
      TablesExact(s.band.value);
    }
  }

  /*** 802.1X ***/

  datatype EapMethod = EapLeap | EapMd5 | EapTls | Peap | Ttls | Pwd | Fast

  datatype Phase2Method = Pap | Chap | MsChap | MsChapV2 | Gtc | Otp | Md5 | Tls

  /** The identity, passwords and certificates are kept together in `texts`. */
  datatype IeeeSettings = IeeeSettings(
    eap: seq<string>, phase2: Option<string>, texts: map<string, string>, peapLabel: bool)

  datatype IeeeConfig = IeeeConfig(
    eap: seq<EapMethod>, phase2: Option<Phase2Method>, texts: map<string, string>, peapLabel: bool)

  function ParseEap(text: string): Option<EapMethod> {
    match text
    case "leap" => Some(EapLeap)
    case "md5" => Some(EapMd5)
    case "tls" => Some(EapTls)
    case "peap" => Some(Peap)
    case "ttls" => Some(Ttls)
    case "pwd" => Some(Pwd)
    case "fast" => Some(Fast)
    case _ => None
  }

  function PrintEap(m: EapMethod): string {
    match m
    case EapLeap => "leap"
    case EapMd5 => "md5"
    case EapTls => "tls"
    case Peap => "peap"
    case Ttls => "ttls"
    case Pwd => "pwd"
    case Fast => "fast"
  }

  function ParsePhase2(text: string): Option<Phase2Method> {
    match text
    case "pap" => Some(Pap)
    case "chap" => Some(Chap)
    case "mschap" => Some(MsChap)
    case "mschapv2" => Some(MsChapV2)
    case "gtc" => Some(Gtc)
    case "otp" => Some(Otp)
    case "md5" => Some(Md5)
    case "tls" => Some(Tls)
    case _ => None
  }

  function PrintPhase2(m: Phase2Method): string {
    match m
    case Pap => "pap"
    case Chap => "chap"
    case MsChap => "mschap"
    case MsChapV2 => "mschapv2"
    case Gtc => "gtc"
    case Otp => "otp"
    case Md5 => "md5"
    case Tls => "tls"
  }

  function ReadIeee(s: IeeeSettings): Parsed<IeeeConfig> {
    match ParseEach(s.eap, ParseEap, EapError)
    case Bad(e) => Bad(e)
    case Good(eap) =>
      if s.phase2.None? then Good(IeeeConfig(eap, None, s.texts, s.peapLabel))
      else
        match ParsePhase2(s.phase2.value)
        case None => Bad(InvalidPhase2AuthMethod(s.phase2.value))
        case Some(m) => Good(IeeeConfig(eap, Some(m), s.texts, s.peapLabel))
  }

  function ShowIeee(c: IeeeConfig): IeeeSettings {
    IeeeSettings(PrintEach(c.eap, PrintEap), if c.phase2.Some? then Some(PrintPhase2(c.phase2.value)) else None,
                 c.texts, c.peapLabel)
  }

  lemma IeeeTablesExact(text: string)
    ensures forall x :: ParseEap(text) == Some(x) <==> text == PrintEap(x)
    ensures forall x :: ParsePhase2(text) == Some(x) <==> text == PrintPhase2(x)
  {
  }

  lemma IeeeExactly(s: IeeeSettings, c: IeeeConfig)
    ensures ReadIeee(s) == Good(c) <==> s == ShowIeee(c)
  {
    forall text: string ensures forall x :: ParseEap(text) == Some(x) <==> text == PrintEap(x) {
      IeeeTablesExact(text);
    }
    ParseEachExactly(s.eap, ParseEap, PrintEap, EapError, c.eap);
    if s.phase2.Some? {
      IeeeTablesExact(s.phase2.value);
    }
  }

  /*** What connections of all kinds have ***/

  datatype MatchConfig = MatchConfig(
    driver: seq<string>, interface: seq<string>, path: seq<string>, kernel: seq<string>)

  /** Methods, addresses, gateways, name servers and the MTU, which both forms have alike, are in `plain`. */
  datatype ProfileSettings = ProfileSettings(
    mac: Option<MacText>, customMac: Option<string>, autoconnect: Option<bool>, persistent: Option<bool>,
    ignoreAutoDns: Option<bool>, matches: Option<MatchConfig>, plain: map<string, string>)

  /** The state, flags, firewall zone and port settings, which have no declared form, are in `undeclared`. */
  datatype Profile = Profile(
    mac: Option<nat>, customMac: string, autoconnect: bool, persistent: bool, ignoreAutoDns: bool,
    matches: MatchConfig, plain: map<string, string>, undeclared: map<string, string>)

  const NO_MATCH := MatchConfig([], [], [], [])

  const DEFAULT_PROFILE := Profile(None, "", true, true, false, NO_MATCH, map[], map[])

  /** A MAC address that is none is dropped, and so is any custom one. */
  function ReadProfile(s: ProfileSettings): Profile {
    Profile(if s.mac.Some? && s.mac.value.Address? then Some(s.mac.value.number) else None, "",
            s.autoconnect.GetOr(true), s.persistent.GetOr(true), s.ignoreAutoDns.GetOr(false),
            s.matches.GetOr(NO_MATCH), s.plain, map[])
  }

  function ShowProfile(p: Profile): ProfileSettings {
    ProfileSettings(if p.mac.Some? then Some(Address(p.mac.value)) else None,
                    if p.customMac == "" then None else Some(p.customMac), Some(p.autoconnect), Some(p.persistent),
                    Some(p.ignoreAutoDns), if p.matches == NO_MATCH then None else Some(p.matches), p.plain)
  }

  /** A profile is read as it was exactly if it has no custom MAC address and nothing without declared form. */
  lemma ProfileExactly(p: Profile)
    ensures ReadProfile(ShowProfile(p)) == p <==> p.customMac == "" && p.undeclared == map[]
  {
  }
}
