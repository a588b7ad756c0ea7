/** Exactly which connections come back when they are declared and converted again. */
module NetworkDeclared {
  import opened Events
  import opened Text
  import opened Network
  import opened NetworkRoundTrip

  /** The options are printed in some order of the hash table. */
  ghost predicate PrintsOptions(show: Printer, options: BondOptions.Options) {
    exists order :: Enumerates(order, options.Keys) && show(options) == BondOptions.Print(options, order)
  }

  /** What the declared form of a configuration can hold. */
  predicate ConfigDeclarable(c: ConnectionConfig) {
    match c
    case Ethernet => true
    case Wireless(w) => w.wep.None?
    case Vlan(_) => true
    case Bond(b) => BondOptions.Printable(b.options)
    case Bridge(b) => b.maxAge.None? && b.ageingTime.None?
    case OtherConfig(_) => false
  }

  predicate Declarable(c: Connection) {
    && c.controller.None? && ConfigDeclarable(c.config)
    && c.profile.customMac == "" && c.profile.undeclared == map[]
  }

  lemma BondKept(b: BondConfig, ports: seq<string>, show: Printer)
    requires PrintsOptions(show, b.options)
    ensures ConvertBond(BondSettings(ModeText(b.mode), Some(show(b.options)), ports)) == Ok(b)
            <==> BondOptions.Printable(b.options)
  {
    var order :| Enumerates(order, b.options.Keys) && show(b.options) == BondOptions.Print(b.options, order);
    BondOptions.PrintThenParse(b.options, order);
  }

  /** The configuration that is read from a declared connection, if it can be read. */
  lemma ConfigKept(all: seq<Connection>, c: Connection, show: Printer)
    requires c.config.Bond? ==> PrintsOptions(show, c.config.bond.options)
    ensures var nc := DeclareOne(all, c, show);
            FirstError(nc).None? && ConvertConfig(nc) == c.config <==> ConfigDeclarable(c.config)
  {
    var nc := DeclareOne(all, c, show);
    if c.ieee.Some? {
      Links.IeeeExactly(nc.ieee.value, c.ieee.value);
    }
    match c.config
    case Wireless(w) => WirelessKept(w);
    case Vlan(v) => Links.VlanExactly(nc.vlan.value, v);
    case Bond(b) => BondKept(b, PortsFor(all, c.uuid), show);
    case _ =>
  }

  lemma WirelessKept(w: Links.WirelessConfig)
    ensures Links.ReadWireless(Links.ShowWireless(w)) == Links.Good(w.(wep := None))
  {
    Links.WirelessExactly(Links.ShowWireless(w), w.(wep := None));
  }

  /**
   Any connection: declared and converted again, it is the same exactly if it is no port, its kind has
   a declared form that holds all of its settings, and nothing else about it is left undeclared.
   */
  lemma ConnectionKeptExactly(all: seq<Connection>, c: Connection, show: Printer, again: Uuid)
    requires c.config.Bond? ==> PrintsOptions(show, c.config.bond.options)
    ensures Convert(DeclareOne(all, c, show), again) == Ok(c.(uuid := again)) <==> Declarable(c)
  {
    var nc := DeclareOne(all, c, show);
    ConfigKept(all, c, show);
    Links.ProfileExactly(c.profile);
    if c.ieee.Some? {
      Links.IeeeExactly(nc.ieee.value, c.ieee.value);
    }
    if FirstError(nc).None? {
      ConvertedIs(nc, again);
    }
  }

  lemma ConvertedIs(nc: NetworkConnection, uuid: Uuid)
    requires FirstError(nc).None?
    ensures Convert(nc, uuid).Ok?
    ensures var c := Convert(nc, uuid).value;
            && c.id == nc.id && c.uuid == uuid && c.interface == nc.interface && c.controller.None?
            && c.config == ConvertConfig(nc) && c.profile == Links.ReadProfile(nc.profile)
  {
  }

  lemma ConvertedConfig(nc: NetworkConnection)
    requires FirstError(nc).None?
    ensures ConfigDeclarable(ConvertConfig(nc))
  {
    var config := ConvertConfig(nc);
    if config.Wireless? {
      Links.WirelessExactly(nc.wireless.value, config.wireless);
    }
    if config.Bond? && nc.bond.value.options.Some? {
      WordsHaveNoSpace(nc.bond.value.options.value);
      BondOptions.ParsedIsPrintable(Words(nc.bond.value.options.value), map[]);
    }
  }

  /** So whatever was converted is the same connection after it was declared and converted again. */
  lemma ConnectionRoundTrip(nc: NetworkConnection, uuid: Uuid, all: seq<Connection>, show: Printer, again: Uuid)
    requires Convert(nc, uuid).Ok?
    requires var config := Convert(nc, uuid).value.config; config.Bond? ==> PrintsOptions(show, config.bond.options)
    ensures var c := Convert(nc, uuid).value;
            Convert(DeclareOne(all, c, show), again) == Ok(c.(uuid := again))
  {
    ConvertedConfig(nc);
    ConnectionKeptExactly(all, Convert(nc, uuid).value, show, again);
  }
}
