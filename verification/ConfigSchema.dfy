/** The configuration's struct types with their JSON tags, and its default value. */
module ConfigSchema {
  import opened Codec

  const INT := TInt(-0x8000_0000_0000_0000, 0x7FFF_FFFF_FFFF_FFFF)
  const UINT16 := TInt(0, 0xFFFF)

  const SYSTEM := TStruct([Field("identity", TString, false), Field("timezone", TString, false)])

  const PPPOE := TStruct([
    Field("username", TString, false), Field("password", TString, false),
    Field("service_name", TString, true), Field("mtu", INT, true)])

  const WAN := TStruct([
    Field("mode", TString, false), Field("interface", TString, false),
    Field("static_ip", TString, true), Field("netmask", TString, true), Field("gateway", TString, true),
    Field("dns", TSlice(TString), true), Field("pppoe", PPPOE, true)])

  const LAN := TStruct([Field("interface", TString, false), Field("address", TString, false), Field("mtu", INT, false)])

  const DHCP := TStruct([
    Field("enabled", TBool, false), Field("interface", TString, false), Field("subnet_cidr", TString, false),
    Field("gateway", TString, false), Field("pool_start", TString, false), Field("pool_end", TString, false),
    Field("lease_time", TString, false), Field("dns_servers", TSlice(TString), false)])

  const FIREWALL := TStruct([
    Field("enabled", TBool, false), Field("lan_interface", TString, false), Field("wan_interface", TString, false),
    Field("management_port", UINT16, false), Field("nat_masquerade", TBool, false)])

  const PEER := TStruct([
    Field("public_key", TString, false), Field("endpoint", TString, true),
        Field("allowed_ips", TSlice(TString), false)])

  const WIREGUARD := TStruct([
    Field("enabled", TBool, false), Field("interface", TString, false), Field("listen_port", INT, false),
    Field("private_key", TString, false), Field("address", TString, false), Field("peers", TSlice(PEER), true)])

  const CONFIG := TStruct([
    Field("version", INT, false), Field("system", SYSTEM, false), Field("wan", WAN, false), Field("lan", LAN, false),
    Field("dhcp", DHCP, false), Field("firewall", FIREWALL, false), Field("wireguard", WIREGUARD, false)])

  lemma SystemNames()
    ensures DistinctNames(SYSTEM.fields)
  {
    var f := SYSTEM.fields;
    assert |f[0].name| == 8 && |f[1].name| == 8;
    assert f[0].name[0] != f[1].name[0];
  }

  lemma PppoeNames()
    ensures DistinctNames(PPPOE.fields)
  {
    var f := PPPOE.fields;
    assert |f[0].name| == 8 && |f[1].name| == 8 && |f[2].name| == 12 && |f[3].name| == 3;
    assert f[0].name[0] != f[1].name[0];
  }

  lemma WanNames()
    ensures DistinctNames(WAN.fields)
  {
    var f := WAN.fields;
    assert |f[0].name| == 4 && |f[1].name| == 9 && |f[2].name| == 9 && |f[3].name| == 7 && |f[4].name| == 7
        && |f[5].name| == 3 && |f[6].name| == 5;
    assert f[1].name[0] != f[2].name[0] && f[3].name[0] != f[4].name[0];
  }

  lemma LanNames()
    ensures DistinctNames(LAN.fields)
  {
    var f := LAN.fields;
    assert |f[0].name| == 9 && |f[1].name| == 7 && |f[2].name| == 3;
  }

  lemma DhcpNamesPlain()
    ensures forall i :: 0 <= i < |DHCP.fields| ==> IsPlain(DHCP.fields[i].name)
  {
  }

  lemma DhcpNames()
    ensures DistinctNames(DHCP.fields)
  {
    DhcpNamesPlain();
    var f := DHCP.fields;
    assert |f[0].name| == 7 && |f[1].name| == 9 && |f[2].name| == 11 && |f[3].name| == 7 && |f[4].name| == 10
        && |f[5].name| == 8 && |f[6].name| == 10 && |f[7].name| == 11;
    assert f[0].name[0] != f[3].name[0] && f[2].name[0] != f[7].name[0] && f[4].name[0] != f[6].name[0];
  }

  lemma FirewallNamesPlain()
    ensures forall i :: 0 <= i < |FIREWALL.fields| ==> IsPlain(FIREWALL.fields[i].name)
  {
  }

  lemma FirewallNames()
    ensures DistinctNames(FIREWALL.fields)
  {
    FirewallNamesPlain();
    var f := FIREWALL.fields;
    assert |f[0].name| == 7 && |f[1].name| == 13 && |f[2].name| == 13 && |f[3].name| == 15 && |f[4].name| == 14;
    assert f[1].name[0] != f[2].name[0];
  }

  lemma PeerNames()
    ensures DistinctNames(PEER.fields)
  {
    var f := PEER.fields;
    assert |f[0].name| == 10 && |f[1].name| == 8 && |f[2].name| == 11;
  }

  lemma WireGuardNames()
    ensures DistinctNames(WIREGUARD.fields)
  {
    var f := WIREGUARD.fields;
    assert |f[0].name| == 7 && |f[1].name| == 9 && |f[2].name| == 11 && |f[3].name| == 11 && |f[4].name| == 7
        && |f[5].name| == 5;
    assert f[0].name[0] != f[4].name[0] && f[2].name[0] != f[3].name[0];
  }

  lemma ConfigNamesPlain()
    ensures forall i :: 0 <= i < |CONFIG.fields| ==> IsPlain(CONFIG.fields[i].name)
  {
  }

  lemma ConfigNames()
    ensures DistinctNames(CONFIG.fields)
  {
    ConfigNamesPlain();
    var f := CONFIG.fields;
    assert |f[0].name| == 7 && |f[1].name| == 6 && |f[2].name| == 3 && |f[3].name| == 3 && |f[4].name| == 4
        && |f[5].name| == 8 && |f[6].name| == 9;
    assert f[2].name[0] != f[3].name[0];
  }

  lemma SystemWellFormed()
    ensures WellFormed(SYSTEM)
  {
    SystemNames();
  }

  lemma PppoeWellFormed()
    ensures WellFormed(PPPOE)
  {
    PppoeNames();
  }

  lemma LanWellFormed()
    ensures WellFormed(LAN)
  {
    LanNames();
  }

  lemma DhcpWellFormed()
    ensures WellFormed(DHCP)
  {
    DhcpNames();
  }

  lemma FirewallWellFormed()
    ensures WellFormed(FIREWALL)
  {
    FirewallNames();
  }

  lemma PeerWellFormed()
    ensures WellFormed(PEER)
  {
    PeerNames();
  }

  lemma WanWellFormed()
    ensures WellFormed(WAN)
  {
    WanNames();
    PppoeWellFormed();
  }

  lemma WireGuardWellFormed()
    ensures WellFormed(WIREGUARD)
  {
    WireGuardNames();
    PeerWellFormed();
  }

  lemma ConfigWellFormed()
    ensures WellFormed(CONFIG)
  {
    ConfigNames();
    SystemWellFormed();
    WanWellFormed();
    LanWellFormed();
    DhcpWellFormed();
    FirewallWellFormed();
    WireGuardWellFormed();
  }

  // ---- Values -----------------------------------------------------------------------------------

  function DefaultPppoe(): Val {
    VStruct([VString(""), VString(""), VString(""), VInt(1492)])
  }

  function DefaultWan(): Val {
    VStruct([VString("dhcp"), VString("ether1"), VString(""), VString(""), VString(""),
      VSlice([VString("1.1.1.1"), VString("8.8.8.8")]), DefaultPppoe()])
  }

  function DefaultSystem(): Val {
    VStruct([VString("NetRouter-Core"), VString("UTC")])
  }

  function DefaultLan(): Val {
    VStruct([VString("ether2"), VString("192.168.88.1/24"), VInt(1500)])
  }

  function DefaultDhcp(): Val {
    VStruct([VBool(true), VString("ether2"), VString("192.168.88.0/24"), VString("192.168.88.1"),
      VString("192.168.88.100"), VString("192.168.88.200"), VString("12h"),
      VSlice([VString("192.168.88.1"), VString("1.1.1.1")])])
  }

  function DefaultFirewall(): Val {
    VStruct([VBool(true), VString("ether2"), VString("ether1"), VInt(8443), VBool(true)])
  }

  function DefaultWireGuard(): Val {
    VStruct([VBool(false), VString("wg0"), VInt(51820), VString(""), VString("10.10.0.1/24"), VNil])
  }

  function Default(): Val {
    VStruct([VInt(1), DefaultSystem(), DefaultWan(), DefaultLan(), DefaultDhcp(), DefaultFirewall(),
        DefaultWireGuard()])
  }

  predicate Sound(t: Type, v: Val) {
    HasType(v, t) && Clean(t, v)
  }

  lemma PppoeIsSound()
    ensures Sound(PPPOE, DefaultPppoe())
  {
  }

  lemma WanIsSound()
    ensures Sound(WAN, DefaultWan())
  {
    PppoeIsSound();
  }

  lemma SystemIsSound()
    ensures Sound(SYSTEM, DefaultSystem())
  {
  }

  lemma LanIsSound()
    ensures Sound(LAN, DefaultLan())
  {
  }

  lemma DhcpIsSound()
    ensures Sound(DHCP, DefaultDhcp())
  {
  }

  lemma FirewallIsSound()
    ensures Sound(FIREWALL, DefaultFirewall())
  {
  }

  lemma WireGuardIsSound()
    ensures Sound(WIREGUARD, DefaultWireGuard())
  {
  }

  lemma DefaultIsSound()
    ensures HasType(Default(), CONFIG) && Clean(CONFIG, Default())
  {
    WanIsSound();
    SystemIsSound();
    LanIsSound();
    DhcpIsSound();
    FirewallIsSound();
    WireGuardIsSound();
  }

  lemma ConfigZerosTyped()
    ensures ZerosTyped(CONFIG) && HasType(Zero(CONFIG), CONFIG)
  {
    assert ZerosTyped(PPPOE) && ZerosTyped(PEER);
    assert ZerosTyped(WAN) && ZerosTyped(WIREGUARD);
    ZeroTyped(CONFIG);
  }
}
