/** What the parts of a configuration mean to the generators, by the names of their
    fields, and what the default configuration amounts to. */
module ConfigMeaning {
  import opened Wrappers
  import opened Text
  import opened Codec
  import opened ConfigSchema
  import Names
  import Ipv4
  import DhcpDns
  import Firewall
  import FirewallText

  /** The value of the field with this name in its tag. */
  function Get(t: Type, v: Val, name: string): Option<Val> {
    if t.TStruct? && v.VStruct? then Find(t.fields, v.values, name) else None
  }

  function Find(fields: seq<Field>, values: seq<Val>, name: string): Option<Val> {
    if fields == [] || values == [] then None
    else if fields[0].name == name then Some(values[0])
    else Find(fields[1..], values[1..], name)
  }

  function Section(cfg: Val, name: string): Val {
    match Get(CONFIG, cfg, name) case Some(v) => v case None => VNil
  }

  function TextOf(v: Option<Val>): string {
    match v case Some(VString(s)) => s case _ => ""
  }

  function NumberOf(v: Option<Val>): int {
    match v case Some(VInt(n)) => n case _ => 0
  }

  function TextsOf(v: Option<Val>): seq<string> {
    match v
    case Some(VSlice(items)) => seq(|items|, i requires 0 <= i < |items| => TextOf(Some(items[i])))
    case _ => []
  }

  /** The DHCP section as a request, field by field of the same name. */
  function DhcpRequest(cfg: Val): DhcpDns.Params {
    var s := Section(cfg, "dhcp");
    DhcpDns.Params(
      TextOf(Get(DHCP, s, "interface")), TextOf(Get(DHCP, s, "subnet_cidr")), TextOf(Get(DHCP, s, "gateway")),
      TextOf(Get(DHCP, s, "pool_start")), TextOf(Get(DHCP, s, "pool_end")), TextOf(Get(DHCP, s, "lease_time")),
      TextsOf(Get(DHCP, s, "dns_servers")))
  }

  /** The firewall section as a request. */
  function FirewallRequest(cfg: Val): Firewall.Params {
    var s := Section(cfg, "firewall");
    var port := NumberOf(Get(FIREWALL, s, "management_port"));
    Firewall.Params(TextOf(Get(FIREWALL, s, "lan_interface")), TextOf(Get(FIREWALL, s, "wan_interface")),
      if 0 <= port < 0x1_0000 then port else 0)
  }

  // ---- Names in documents --------------------------------------------------------------------------

  function Keys(members: seq<Member>): seq<string> {
    seq(|members|, i requires 0 <= i < |members| => members[i].key)
  }

  /** The name, unless the tag says to leave out an empty value. */
  function Kept(f: Field, v: Val): seq<string> {
    if f.omitEmpty && IsEmpty(v) then [] else [f.name]
  }

  lemma KeysFrom(fields: seq<Field>, values: seq<Val>, k: nat)
    requires |values| == |fields| && forall i :: 0 <= i < |values| ==> HasType(values[i], fields[i].ty)
    requires k < |fields|
    ensures Keys(EncodeFields(fields[k..], values[k..])) ==
            Kept(fields[k], values[k]) + Keys(EncodeFields(fields[k + 1..], values[k + 1..]))
  {
    assert fields[k..][1..] == fields[k + 1..] && values[k..][1..] == values[k + 1..];
  }

  function KeptFrom(fields: seq<Field>, values: seq<Val>, k: nat): seq<string>
    requires |values| == |fields| && k <= |fields|
    decreases |fields| - k
  {
    if k == |fields| then [] else Kept(fields[k], values[k]) + KeptFrom(fields, values, k + 1)
  }

  lemma {:induction false} KeysAreKept(fields: seq<Field>, values: seq<Val>, k: nat)
    requires |values| == |fields| && forall i :: 0 <= i < |values| ==> HasType(values[i], fields[i].ty)
    requires k <= |fields|
    ensures Keys(EncodeFields(fields[k..], values[k..])) == KeptFrom(fields, values, k)
    decreases |fields| - k
  {
    if k < |fields| {
      KeysFrom(fields, values, k);
      KeysAreKept(fields, values, k + 1);
    }
  }

  /** The names but for the optional ones whose value is empty. */
  function Chosen(names: seq<string>, optional: set<nat>, values: seq<Val>, k: nat): seq<string>
    requires |values| == |names| && k <= |names|
    decreases |names| - k
  {
    if k == |names| then []
    else (if k in optional && IsEmpty(values[k]) then [] else [names[k]]) + Chosen(names, optional, values, k + 1)
  }

  lemma {:induction false} KeptIsChosen(fields: seq<Field>, names: seq<string>, optional: set<nat>, values: seq<Val>,
      k: nat)
    requires |values| == |names| == |fields| && k <= |names|
    requires forall i :: 0 <= i < |names| ==> fields[i].name == names[i] && (fields[i].omitEmpty <==> i in optional)
    ensures KeptFrom(fields, values, k) == Chosen(names, optional, values, k)
    decreases |names| - k
  {
    if k < |names| { KeptIsChosen(fields, names, optional, values, k + 1); }
  }

  lemma OptionalDocument(t: Type, v: Val, names: seq<string>, optional: set<nat>)
    requires t.TStruct? && HasType(v, t) && |names| == |t.fields|
    requires forall i :: 0 <= i < |names| ==> t.fields[i].name == names[i] && (t.fields[i].omitEmpty <==> i in optional)
    ensures Keys(Encode(t, v).members) == Chosen(names, optional, v.values, 0)
  {
    assert t.fields[0..] == t.fields && v.values[0..] == v.values;
    KeysAreKept(t.fields, v.values, 0);
    KeptIsChosen(t.fields, names, optional, v.values, 0);
  }

  lemma {:induction false} AllAreChosen(names: seq<string>, values: seq<Val>, k: nat)
    requires |values| == |names| && k <= |names|
    ensures Chosen(names, {}, values, k) == names[k..]
    decreases |names| - k
  {
    if k < |names| {
      AllAreChosen(names, values, k + 1);
      assert names[k..] == [names[k]] + names[k + 1..];
    }
  }

  /** The document of a struct without optional fields has all names in order. */
  lemma PlainDocument(t: Type, v: Val, names: seq<string>)
    requires t.TStruct? && HasType(v, t) && |names| == |t.fields|
    requires forall i :: 0 <= i < |names| ==> !t.fields[i].omitEmpty && t.fields[i].name == names[i]
    ensures Keys(Encode(t, v).members) == names
  {
    OptionalDocument(t, v, names, {});
    AllAreChosen(names, v.values, 0);
  }

  lemma ConfigDocument(v: Val)
    requires HasType(v, CONFIG)
    ensures Keys(Encode(CONFIG, v).members) == ["version", "system", "wan", "lan", "dhcp", "firewall", "wireguard"]
  {
    PlainDocument(CONFIG, v, ["version", "system", "wan", "lan", "dhcp", "firewall", "wireguard"]);
  }

  lemma SystemDocument(v: Val)
    requires HasType(v, SYSTEM)
    ensures Keys(Encode(SYSTEM, v).members) == ["identity", "timezone"]
  {
    PlainDocument(SYSTEM, v, ["identity", "timezone"]);
  }

  lemma LanDocument(v: Val)
    requires HasType(v, LAN)
    ensures Keys(Encode(LAN, v).members) == ["interface", "address", "mtu"]
  {
    PlainDocument(LAN, v, ["interface", "address", "mtu"]);
  }

  lemma DhcpDocument(v: Val)
    requires HasType(v, DHCP)
    ensures Keys(Encode(DHCP, v).members) ==
            ["enabled", "interface", "subnet_cidr", "gateway", "pool_start", "pool_end", "lease_time", "dns_servers"]
  {
    PlainDocument(DHCP, v,
      ["enabled", "interface", "subnet_cidr", "gateway", "pool_start", "pool_end", "lease_time", "dns_servers"]);
  }

  lemma FirewallDocument(v: Val)
    requires HasType(v, FIREWALL)
    ensures Keys(Encode(FIREWALL, v).members) ==
            ["enabled", "lan_interface", "wan_interface", "management_port", "nat_masquerade"]
  {
    PlainDocument(FIREWALL, v, ["enabled", "lan_interface", "wan_interface", "management_port", "nat_masquerade"]);
  }

  lemma WanDocument(v: Val)
    requires HasType(v, WAN)
    ensures Keys(Encode(WAN, v).members) ==
            Chosen(["mode", "interface", "static_ip", "netmask", "gateway", "dns", "pppoe"], {2, 3, 4, 5, 6},
              v.values, 0)
  {
    OptionalDocument(WAN, v, ["mode", "interface", "static_ip", "netmask", "gateway", "dns", "pppoe"], {2, 3, 4, 5, 6});
  }

  lemma PppoeDocument(v: Val)
    requires HasType(v, PPPOE)
    ensures Keys(Encode(PPPOE, v).members) ==
            Chosen(["username", "password", "service_name", "mtu"], {2, 3}, v.values, 0)
  {
    OptionalDocument(PPPOE, v, ["username", "password", "service_name", "mtu"], {2, 3});
  }

  lemma WireGuardDocument(v: Val)
    requires HasType(v, WIREGUARD)
    ensures Keys(Encode(WIREGUARD, v).members) ==
            Chosen(["enabled", "interface", "listen_port", "private_key", "address", "peers"], {5}, v.values, 0)
  {
    OptionalDocument(WIREGUARD, v, ["enabled", "interface", "listen_port", "private_key", "address", "peers"], {5});
  }

  lemma PeerDocument(v: Val)
    requires HasType(v, PEER)
    ensures Keys(Encode(PEER, v).members) == Chosen(["public_key", "endpoint", "allowed_ips"], {1}, v.values, 0)
  {
    OptionalDocument(PEER, v, ["public_key", "endpoint", "allowed_ips"], {1});
  }

  // ---- The default configuration ------------------------------------------------------------------------

  lemma {:induction false} FindOwn(fields: seq<Field>, values: seq<Val>, k: nat)
    requires |values| == |fields| && k < |fields|
    requires forall i, j :: 0 <= i < j < |fields| ==> fields[i].name != fields[j].name
    ensures Find(fields, values, fields[k].name) == Some(values[k])
  {
    if k > 0 { FindOwn(fields[1..], values[1..], k - 1); }
  }

  lemma DefaultSections()
    ensures Section(Default(), "dhcp") == DefaultDhcp() && Section(Default(), "firewall") == DefaultFirewall()
    ensures Section(Default(), "lan") == DefaultLan() && Section(Default(), "wan") == DefaultWan()
  {
    ConfigNames();
    FindOwn(CONFIG.fields, Default().values, 2);
    FindOwn(CONFIG.fields, Default().values, 3);
    FindOwn(CONFIG.fields, Default().values, 4);
    FindOwn(CONFIG.fields, Default().values, 5);
  }

  lemma DefaultDhcpFields()
    ensures var d := DefaultDhcp();
            && Get(DHCP, d, "interface") == Some(VString("ether2"))
            && Get(DHCP, d, "subnet_cidr") == Some(VString("192.168.88.0/24"))
            && Get(DHCP, d, "gateway") == Some(VString("192.168.88.1"))
            && Get(DHCP, d, "pool_start") == Some(VString("192.168.88.100"))
            && Get(DHCP, d, "pool_end") == Some(VString("192.168.88.200"))
            && Get(DHCP, d, "lease_time") == Some(VString("12h"))
            && Get(DHCP, d, "dns_servers") == Some(VSlice([VString("192.168.88.1"), VString("1.1.1.1")]))
  {
    DhcpNames();
    var fs, vs := DHCP.fields, DefaultDhcp().values;
    forall k | 0 <= k < 8 ensures Find(fs, vs, fs[k].name) == Some(vs[k]) {
      FindOwn(fs, vs, k);
    }
    assert fs[1].name == "interface" && fs[2].name == "subnet_cidr" && fs[3].name == "gateway";
    assert fs[4].name == "pool_start" && fs[5].name == "pool_end" && fs[6].name == "lease_time";
    assert fs[7].name == "dns_servers";
  }

  lemma DefaultFirewallFields()
    ensures var d := DefaultFirewall();
            && Get(FIREWALL, d, "lan_interface") == Some(VString("ether2"))
            && Get(FIREWALL, d, "wan_interface") == Some(VString("ether1"))
            && Get(FIREWALL, d, "management_port") == Some(VInt(8443))
  {
    FirewallNames();
    var fs, vs := FIREWALL.fields, DefaultFirewall().values;
    FindOwn(fs, vs, 1);
    FindOwn(fs, vs, 2);
    FindOwn(fs, vs, 3);
  }

  lemma Numerals()
    ensures Dec(0) == "0" && Dec(1) == "1" && Dec(24) == "24" && Dec(88) == "88"
    ensures Dec(100) == "100" && Dec(168) == "168" && Dec(192) == "192" && Dec(200) == "200"
  {
    assert Dec(2) == "2" && Dec(8) == "8" && Dec(10) == "10" && Dec(16) == "16" && Dec(19) == "19" && Dec(20) == "20";
  }

  /** 192.168.88.0 is 3232258048. */
  lemma LanAddress(d: nat, text: string, numeral: string)
    requires d < 256 && Dec(d) == numeral && text == "192.168.88." + numeral
    ensures Ipv4.ParseAddr(text) == Some(3232258048 + d)
  {
    Numerals();
    Ipv4.DottedReads(192, 168, 88, d);
    assert "192.168.88." == "192" + "." + "168" + "." + "88" + ".";
  }

  lemma LanTexts(network: string, gateway: string, first: string, last: string)
    requires network == "192.168.88.0" && gateway == "192.168.88.1"
    requires first == "192.168.88.100" && last == "192.168.88.200"
    ensures Ipv4.ParseAddr(network) == Some(3232258048) && Ipv4.ParseAddr(gateway) == Some(3232258049)
    ensures Ipv4.ParseAddr(first) == Some(3232258148) && Ipv4.ParseAddr(last) == Some(3232258248)
  {
    Numerals();
    LanAddress(0, network, "0");
    LanAddress(1, gateway, "1");
    LanAddress(100, first, "100");
    LanAddress(200, last, "200");
  }

  lemma PublicServer(server: string)
    requires server == "1.1.1.1"
    ensures Ipv4.ParseAddr(server).Some?
  {
    Numerals();
    Ipv4.DottedReads(1, 1, 1, 1);
    assert server == "1" + "." + "1" + "." + "1" + "." + "1";
  }

  lemma LanPrefix(cidr: string, network: string)
    requires cidr == "192.168.88.0" + "/" + "24" && network == "192.168.88.0"
    requires Ipv4.ParseAddr(network) == Some(3232258048)
    ensures Ipv4.ParsePrefix(cidr) == Some(Ipv4.Prefix(3232258048, 24))
  {
    Numerals();
    Ipv4.PrefixReads(network, 24);
  }

  lemma LanContains(prefix: Ipv4.Prefix, a: Ipv4.Addr)
    requires prefix == Ipv4.Prefix(3232258048, 24) && 3232258048 <= a < 3232258304
    ensures Ipv4.Contains(prefix, a)
  {
    assert Ipv4.Pow2(8) == 256 by {
      assert Ipv4.Pow2(2) == 4 && Ipv4.Pow2(4) == 16 && Ipv4.Pow2(6) == 64;
    }
    Ipv4.ContainsIsInterval(prefix, a);
  }

  /** What acceptance asks for, piece by piece. */
  lemma RequestIsAccepted(p: DhcpDns.Params, prefix: Ipv4.Prefix, g: Ipv4.Addr, a: Ipv4.Addr, b: Ipv4.Addr)
    requires Names.IsValidName(p.interface) && prefix.bits <= 32 && Ipv4.ParsePrefix(p.subnetCidr) == Some(prefix)
    requires Ipv4.ParseAddr(p.gateway) == Some(g) && Ipv4.ParseAddr(p.poolStart) == Some(a)
    requires Ipv4.ParseAddr(p.poolEnd) == Some(b) && a <= b
    requires Ipv4.Contains(prefix, g) && Ipv4.Contains(prefix, a) && Ipv4.Contains(prefix, b)
    requires DhcpDns.IsLeaseTime(p.leaseTime) && p.dnsServers != []
    requires forall t :: t in p.dnsServers ==> Ipv4.ParseAddr(t).Some?
    ensures DhcpDns.Rendered(p).Ok?
  {
    DhcpDns.AcceptedIffAcceptable(p);
  }

  lemma LanAddresses(p: DhcpDns.Params, network: string)
    returns (prefix: Ipv4.Prefix, g: Ipv4.Addr, a: Ipv4.Addr, b: Ipv4.Addr)
    requires p.subnetCidr == "192.168.88.0/24" && network == "192.168.88.0" && p.gateway == "192.168.88.1"
    requires p.poolStart == "192.168.88.100" && p.poolEnd == "192.168.88.200"
    requires |p.dnsServers| == 2 && p.dnsServers[0] == p.gateway && p.dnsServers[1] == "1.1.1.1"
    ensures prefix.bits <= 32 && Ipv4.ParsePrefix(p.subnetCidr) == Some(prefix)
    ensures Ipv4.ParseAddr(p.gateway) == Some(g) && Ipv4.ParseAddr(p.poolStart) == Some(a)
    ensures Ipv4.ParseAddr(p.poolEnd) == Some(b) && a <= b
    ensures Ipv4.Contains(prefix, g) && Ipv4.Contains(prefix, a) && Ipv4.Contains(prefix, b)
    ensures forall t :: t in p.dnsServers ==> Ipv4.ParseAddr(t).Some?
  {
    LanTexts(network, p.gateway, p.poolStart, p.poolEnd);
    assert "192.168.88.0/24" == "192.168.88.0" + "/" + "24";
    LanPrefix(p.subnetCidr, network);
    PublicServer(p.dnsServers[1]);
    prefix, g := Ipv4.ParsePrefix(p.subnetCidr).value, Ipv4.ParseAddr(p.gateway).value;
    a, b := Ipv4.ParseAddr(p.poolStart).value, Ipv4.ParseAddr(p.poolEnd).value;
    LanContains(prefix, g);
    LanContains(prefix, a);
    LanContains(prefix, b);
  }

  lemma LanRequestIsAccepted(p: DhcpDns.Params, network: string)
    requires p.interface == "ether2" && p.subnetCidr == "192.168.88.0/24" && network == "192.168.88.0"
    requires p.gateway == "192.168.88.1" && p.poolStart == "192.168.88.100"
    requires p.poolEnd == "192.168.88.200" && p.leaseTime == "12h"
    requires |p.dnsServers| == 2 && p.dnsServers[0] == p.gateway && p.dnsServers[1] == "1.1.1.1"
    ensures DhcpDns.Rendered(p).Ok?
  {
    var prefix, g, a, b := LanAddresses(p, network);
    RequestIsAccepted(p, prefix, g, a, b);
  }

  lemma DefaultDhcpRequest(cfg: Val)
    requires cfg == Default()
    ensures var d := DhcpRequest(cfg);
            && d.interface == "ether2" && d.subnetCidr == "192.168.88.0/24" && d.gateway == "192.168.88.1"
            && d.poolStart == "192.168.88.100" && d.poolEnd == "192.168.88.200" && d.leaseTime == "12h"
            && d.dnsServers == ["192.168.88.1", "1.1.1.1"]
  {
    DefaultSections();
    DefaultDhcpFields();
    TwoTexts("192.168.88.1", "1.1.1.1");
    RequestFields(cfg, DefaultDhcp());
  }

  lemma TwoTexts(a: string, b: string)
    ensures TextsOf(Some(VSlice([VString(a), VString(b)]))) == [a, b]
  {
  }

  lemma RequestFields(cfg: Val, s: Val)
    requires Section(cfg, "dhcp") == s
    ensures var d := DhcpRequest(cfg);
            && d.interface == TextOf(Get(DHCP, s, "interface")) && d.subnetCidr == TextOf(Get(DHCP, s, "subnet_cidr"))
            && d.gateway == TextOf(Get(DHCP, s, "gateway")) && d.poolStart == TextOf(Get(DHCP, s, "pool_start"))
            && d.poolEnd == TextOf(Get(DHCP, s, "pool_end")) && d.leaseTime == TextOf(Get(DHCP, s, "lease_time"))
            && d.dnsServers == TextsOf(Get(DHCP, s, "dns_servers"))
  {
  }

  lemma DefaultFirewallRequest(cfg: Val)
    requires cfg == Default()
    ensures FirewallRequest(cfg) == Firewall.Params("ether2", "ether1", 8443)
  {
    DefaultSections();
    DefaultFirewallFields();
  }

  lemma DefaultInterfaces()
    ensures TextOf(Get(LAN, Section(Default(), "lan"), "interface")) == "ether2"
    ensures TextOf(Get(WAN, Section(Default(), "wan"), "interface")) == "ether1"
  {
    DefaultSections();
    LanNames();
    WanNames();
    FindOwn(LAN.fields, DefaultLan().values, 0);
    FindOwn(WAN.fields, DefaultWan().values, 1);
  }

  /** The default configuration is one the router can run on: its DHCP and firewall
      sections are accepted by their generators, and they name the interfaces that its own
      LAN and WAN sections name. */
  lemma DefaultIsServable(cfg: Val)
    requires cfg == Default()
    ensures var d, f := DhcpRequest(cfg), FirewallRequest(cfg);
            && DhcpDns.Rendered(d).Ok? && FirewallText.RenderFirewall(f).Ok?
            && d.interface == f.lan == TextOf(Get(LAN, Section(cfg, "lan"), "interface"))
            && f.wan == TextOf(Get(WAN, Section(cfg, "wan"), "interface"))
  {
    DefaultDhcpRequest(cfg);
    DefaultFirewallRequest(cfg);
    DefaultInterfaces();
    var d, f := DhcpRequest(cfg), FirewallRequest(cfg);
    LanRequestIsAccepted(d, "192.168.88.0");
    FirewallText.RenderedIff(f);
    NamesDiffer();
  }

  lemma NamesDiffer()
    ensures "ether1" != "ether2" && Names.IsValidName("ether1") && Names.IsValidName("ether2")
  {
    var a, b := "ether1", "ether2";
    assert a[5] != b[5];
  }
}
