/**
 What the declared form of a connection says, field by field and name by name
 (rust/agama-network/src/model.rs), apart from the functions that convert it.
 */
module NetworkConversion {
  import opened Events
  import opened Text
  import opened Links = NetworkLinks
  import opened Network
  import opened NetworkRoundTrip

  /*** Names ***/

  lemma BondModes(text: string, m: BondMode)
    ensures ModeOf(text) == Some(m) <==> text == ModeText(m)
    ensures ModeText(RoundRobin) == "balance-rr" && ModeText(ActiveBackup) == "active-backup"
    ensures ModeText(BalanceXOR) == "balance-xor" && ModeText(Broadcast) == "broadcast"
    ensures ModeText(LACP) == "802.3ad" && ModeText(BalanceTLB) == "balance-tlb"
    ensures ModeText(BalanceALB) == "balance-alb"
  {
  }

  lemma WirelessNames()
    ensures PrintMode(UnknownMode) == "unknown" && PrintMode(AdHoc) == "adhoc" && PrintMode(Infra) == "infrastructure"
    ensures PrintMode(AP) == "ap" && PrintMode(Mesh) == "mesh"
    ensures PrintSecurity(WEP) == "none" && PrintSecurity(OWE) == "owe" && PrintSecurity(DynamicWEP) == "ieee8021x"
    ensures PrintSecurity(WPA2) == "wpa-psk" && PrintSecurity(WPA3Personal) == "sae"
    ensures PrintSecurity(WPA2Enterprise) == "wpa-eap" && PrintSecurity(WPA3Only) == "wpa-eap-suite-b-192"
    ensures PrintBand(A) == "a" && PrintBand(BG) == "bg"
    ensures PrintGroup(Wep40) == "wep40" && PrintGroup(Wep104) == "wep104" && PrintGroup(Tkip) == "tkip"
    ensures PrintGroup(Ccmp) == "ccmp" && PrintPairwise(PairTkip) == "tkip" && PrintPairwise(PairCcmp) == "ccmp"
    ensures PrintWpa(Wpa) == "wpa" && PrintWpa(Rsn) == "rsn"
    ensures PrintWepAuth(Open) == "open" && PrintWepAuth(Shared) == "shared" && PrintWepAuth(Unset) == ""
    ensures ParseWepAuth("leap") == Some(Leap)
  {
  }

  lemma OtherNames()
    ensures PrintVlanProtocol(Q) == "802.1Q" && PrintVlanProtocol(AD) == "802.1ad"
    ensures PrintEap(EapLeap) == "leap" && PrintEap(EapMd5) == "md5" && PrintEap(EapTls) == "tls"
    ensures PrintEap(Peap) == "peap" && PrintEap(Ttls) == "ttls" && PrintEap(Pwd) == "pwd" && PrintEap(Fast) == "fast"
    ensures PrintPhase2(Pap) == "pap" && PrintPhase2(Chap) == "chap" && PrintPhase2(MsChap) == "mschap"
    ensures PrintPhase2(MsChapV2) == "mschapv2" && PrintPhase2(Gtc) == "gtc" && PrintPhase2(Otp) == "otp"
    ensures PrintPhase2(Md5) == "md5" && PrintPhase2(Tls) == "tls"
  {
  }

  /*** Fields ***/

  predicate VlanMeans(s: VlanSettings, c: VlanConfig) {
    && c.parent == s.parent && c.id == s.id && c.flags == s.flags
    && (if s.protocol.Some? then s.protocol.value == PrintVlanProtocol(c.protocol) else c.protocol == Q)
  }

  /** The names of a list, one for each value. */
  ghost predicate ListMeans<T(!new)>(texts: seq<string>, xs: seq<T>, show: T -> string) {
    |texts| == |xs| && forall i | 0 <= i < |xs| :: texts[i] == show(xs[i])
  }

  ghost predicate WirelessMeans(s: WirelessSettings, c: WirelessConfig) {
    && c.ssid == s.ssid && c.password == s.password && c.channel == s.channel && c.hidden == s.hidden && c.pmf == s.pmf
    && s.mode == PrintMode(c.mode) && s.security == PrintSecurity(c.security) && c.wep.None?
    && c.band.Some? == s.band.Some? && (c.band.Some? ==> s.band.value == PrintBand(c.band.value))
    && c.bssid.Some? == s.bssid.Some? && (c.bssid.Some? ==> s.bssid.value == Address(c.bssid.value))
    && ListMeans(s.group, c.group, PrintGroup) && ListMeans(s.pairwise, c.pairwise, PrintPairwise)
    && ListMeans(s.wpa, c.wpa, PrintWpa)
  }

  ghost predicate IeeeMeans(s: IeeeSettings, c: IeeeConfig) {
    && ListMeans(s.eap, c.eap, PrintEap) && c.texts == s.texts && c.peapLabel == s.peapLabel
    && c.phase2.Some? == s.phase2.Some? && (c.phase2.Some? ==> s.phase2.value == PrintPhase2(c.phase2.value))
  }

  predicate BondMeans(s: BondSettings, c: BondConfig) {
    && s.mode == ModeText(c.mode)
    && (if s.options.Some? then BondOptions.Parse(s.options.value) == Some(c.options) else c.options == map[])
  }

  predicate BridgeMeans(s: BridgeSettings, c: BridgeConfig) {
    && c.stp == s.stp && c.priority == s.priority && c.forwardDelay == s.forwardDelay && c.helloTime == s.helloTime
    && c.maxAge.None? && c.ageingTime.None?
  }

  predicate ProfileMeans(s: ProfileSettings, p: Profile) {
    && (if s.mac.Some? && s.mac.value.Address? then p.mac == Some(s.mac.value.number) else p.mac.None?)
    && p.autoconnect == (if s.autoconnect.Some? then s.autoconnect.value else true)
    && p.persistent == (if s.persistent.Some? then s.persistent.value else true)
    && p.ignoreAutoDns == (if s.ignoreAutoDns.Some? then s.ignoreAutoDns.value else false)
    && p.matches == (if s.matches.Some? then s.matches.value else MatchConfig([], [], [], []))
    && p.plain == s.plain && p.customMac == "" && p.undeclared == map[]
  }

  /** Bridge settings win over bond settings, those over wireless ones, those over VLAN ones. */
  ghost predicate ConfigMeans(nc: NetworkConnection, c: ConnectionConfig) {
    if nc.bridge.Some? then c.Bridge? && BridgeMeans(nc.bridge.value, c.bridge)
    else if nc.bond.Some? then c.Bond? && BondMeans(nc.bond.value, c.bond)
    else if nc.wireless.Some? then c.Wireless? && WirelessMeans(nc.wireless.value, c.wireless)
    else if nc.vlan.Some? then c.Vlan? && VlanMeans(nc.vlan.value, c.vlan)
    else c.Ethernet?
  }

  lemma {:induction false} PrintEachMeans<T(!new)>(xs: seq<T>, show: T -> string)
    ensures ListMeans(PrintEach(xs, show), xs, show)
  {
    if xs != [] {
      PrintEachMeans(xs[1..], show);
    }
  }

  lemma WirelessRead(s: WirelessSettings, c: WirelessConfig)
    requires ReadWireless(s) == Good(c)
    ensures WirelessMeans(s, c)
  {
    WirelessExactly(s, c);
    PrintEachMeans(c.group, PrintGroup);
    PrintEachMeans(c.pairwise, PrintPairwise);
    PrintEachMeans(c.wpa, PrintWpa);
  }

  lemma IeeeRead(s: IeeeSettings, c: IeeeConfig)
    requires ReadIeee(s) == Good(c)
    ensures IeeeMeans(s, c)
  {
    IeeeExactly(s, c);
    PrintEachMeans(c.eap, PrintEap);
  }

  lemma ConfigRead(nc: NetworkConnection)
    requires FirstError(nc).None?
    ensures ConfigMeans(nc, ConvertConfig(nc))
  {
    var c := ConvertConfig(nc);
    match c
    case Wireless(w) => WirelessRead(nc.wireless.value, w);
    case Vlan(v) => VlanExactly(nc.vlan.value, v);
    case Bond(b) => BondModes(nc.bond.value.mode, b.mode);
    case _ =>
  }

  /** What a converted connection is, field by field. */
  lemma ConvertedMeans(nc: NetworkConnection, uuid: Uuid)
    requires Convert(nc, uuid).Ok?
    ensures var c := Convert(nc, uuid).value;
            && c.id == nc.id && c.uuid == uuid && c.interface == nc.interface && c.controller.None?
            && c.status == (if nc.status.Some? then nc.status.value else Up)
            && ConfigMeans(nc, c.config) && ProfileMeans(nc.profile, c.profile)
            && c.ieee.Some? == nc.ieee.Some? && (c.ieee.Some? ==> IeeeMeans(nc.ieee.value, c.ieee.value))
  {
    ConfigRead(nc);
    if nc.ieee.Some? {
      IeeeRead(nc.ieee.value, Convert(nc, uuid).value.ieee.value);
    }
  }

  /*** Refusals ***/

  lemma {:induction false} FirstBad<T>(texts: seq<string>, parse: string -> Option<T>, error: string -> LinkError)
    ensures (forall t | t in texts :: parse(t).Some?) <==> ParseEach(texts, parse, error).Good?
    ensures forall i | 0 <= i < |texts| && parse(texts[i]).None? && (forall j | 0 <= j < i :: parse(texts[j]).Some?) ::
              ParseEach(texts, parse, error) == Bad(error(texts[i]))
  {
    if texts != [] && parse(texts[0]).Some? {
      var rest := texts[1..];
      FirstBad(rest, parse, error);
      forall i | 0 <= i < |texts| && parse(texts[i]).None? && (forall j | 0 <= j < i :: parse(texts[j]).Some?)
        ensures ParseEach(texts, parse, error) == Bad(error(texts[i]))
      {
        assert rest[i - 1] == texts[i] && forall j | 0 <= j < i - 1 :: rest[j] == texts[j + 1];
      }
    }
  }

  lemma VlanRefused(s: VlanSettings)
    ensures ReadVlan(s).Bad? <==> s.protocol.Some? && s.protocol.value != "802.1Q" && s.protocol.value != "802.1ad"
    ensures ReadVlan(s).Bad? ==> ReadVlan(s).error == InvalidVlanProtocol(s.protocol.value)
  {
  }

  predicate NoMode(text: string) {
    forall m :: text != ModeText(m)
  }

  /** An unknown mode is reported before the options, which must have an equals sign in every word. */
  lemma BondRefused(s: BondSettings)
    ensures NoMode(s.mode) ==> ConvertBond(s) == Err(InvalidBondMode(s.mode))
    ensures !NoMode(s.mode) ==>
              if s.options.Some? && exists w :: w in Words(s.options.value) && '=' !in w
              then ConvertBond(s) == Err(InvalidBondOptions) else ConvertBond(s).Ok?
  {
    forall m ensures ModeOf(s.mode) == Some(m) <==> s.mode == ModeText(m) {
      BondModes(s.mode, m);
    }
    if s.options.Some? {
      BondOptions.ParsesExactly(s.options.value);
    }
  }

  /** The first thing that cannot be read is reported, in the order mode, security, band, BSSID. */
  lemma WirelessRefused(s: WirelessSettings)
    ensures (forall m :: s.mode != PrintMode(m)) ==> ReadWireless(s) == Bad(InvalidWirelessMode(s.mode))
    ensures (exists m :: s.mode == PrintMode(m)) && (forall p :: s.security != PrintSecurity(p)) ==>
              ReadWireless(s) == Bad(InvalidSecurityProtocol(s.security))
    ensures Named(s) && s.band.Some? && (forall b :: s.band.value != PrintBand(b)) ==>
              ReadWireless(s) == Bad(InvalidWirelessBand(s.band.value))
    ensures Named(s) && (s.band.Some? ==> exists b :: s.band.value == PrintBand(b)) && s.bssid.Some? &&
            s.bssid.value.NotAnAddress? ==>
              ReadWireless(s) == Bad(InvalidBssid(s.bssid.value.text))
  {
    TablesExact(s.mode);
    TablesExact(s.security);
    if s.band.Some? {
      TablesExact(s.band.value);
    }
  }

  ghost predicate Named(s: WirelessSettings) {
    (exists m :: s.mode == PrintMode(m)) && (exists p :: s.security == PrintSecurity(p))
  }

  /** The first text of a list that has no value. */
  predicate BadAt<T>(texts: seq<string>, parse: string -> Option<T>, i: nat) {
    i < |texts| && parse(texts[i]).None? && forall j | 0 <= j < i :: parse(texts[j]).Some?
  }

  /** Of the three lists, too, the first bad text is reported, always as a group algorithm. */
  lemma ListsRefused(s: WirelessSettings, i: nat)
    ensures BadAt(s.group, ParseGroup, i) ==> ReadLists(s) == Bad(InvalidGroupAlgorithm(s.group[i]))
    ensures (forall t | t in s.group :: ParseGroup(t).Some?) && BadAt(s.pairwise, ParsePairwise, i) ==>
              ReadLists(s) == Bad(InvalidGroupAlgorithm(s.pairwise[i]))
    ensures (forall t | t in s.group :: ParseGroup(t).Some?) ==>
              (forall t | t in s.pairwise :: ParsePairwise(t).Some?) && BadAt(s.wpa, ParseWpa, i) ==>
                ReadLists(s) == Bad(InvalidGroupAlgorithm(s.wpa[i]))
    ensures ReadLists(s).Bad? && ParseMode(s.mode).Some? && ParseSecurity(s.security).Some? ==>
              (s.band.Some? ==> ParseBand(s.band.value).Some?) && (s.bssid.Some? ==> s.bssid.value.Address?) ==>
                ReadWireless(s) == Bad(ReadLists(s).error)
  {
    FirstBad(s.group, ParseGroup, GroupError);
    FirstBad(s.pairwise, ParsePairwise, GroupError);
    FirstBad(s.wpa, ParseWpa, GroupError);
  }

  lemma IeeeRefused(s: IeeeSettings, i: nat)
    ensures BadAt(s.eap, ParseEap, i) ==> ReadIeee(s) == Bad(InvalidEapMethod(s.eap[i]))
    ensures (forall t | t in s.eap :: ParseEap(t).Some?) && s.phase2.Some? && ParsePhase2(s.phase2.value).None? ==>
              ReadIeee(s) == Bad(InvalidPhase2AuthMethod(s.phase2.value))
  {
    FirstBad(s.eap, ParseEap, EapError);
  }

  /** The first settings that cannot be read decide the error: VLAN, wireless, bond, 802.1X. */
  lemma ConversionRefused(nc: NetworkConnection, uuid: Uuid)
    ensures var vlan := nc.vlan.Some? && ReadVlan(nc.vlan.value).Bad?;
            var wireless := nc.wireless.Some? && ReadWireless(nc.wireless.value).Bad?;
            var bond := nc.bond.Some? && ConvertBond(nc.bond.value).Err?;
            var ieee := nc.ieee.Some? && ReadIeee(nc.ieee.value).Bad?;
            && (vlan ==> Convert(nc, uuid) == Err(InvalidLink(ReadVlan(nc.vlan.value).error)))
            && (!vlan && wireless ==> Convert(nc, uuid) == Err(InvalidLink(ReadWireless(nc.wireless.value).error)))
            && (!vlan && !wireless && bond ==> Convert(nc, uuid) == Err(ConvertBond(nc.bond.value).error))
            && (!vlan && !wireless && !bond && ieee ==>
                  Convert(nc, uuid) == Err(InvalidLink(ReadIeee(nc.ieee.value).error)))
            && (!vlan && !wireless && !bond && !ieee ==> Convert(nc, uuid).Ok?)
  {
  }

  /** A port that nothing is known about is what a declaration with nothing but the id gives. */
  lemma NewPortIsBare(id: string, uuid: Uuid)
    ensures var bare := NetworkConnection(id, None, None, None, None, None, None, None,
                                          ProfileSettings(None, None, None, None, None, None, map[]));
            Convert(bare, uuid) == Ok(NewPort(id, uuid))
  {
  }
}
