/** The dnsmasq configuration generator, with a line reader as its inverse. */
module DhcpDns {
  import opened Wrappers
  import opened Text
  import opened Names
  import Ipv4

  datatype Params = Params(
    interface: string, subnetCidr: string, gateway: string,
    poolStart: string, poolEnd: string, leaseTime: string, dnsServers: seq<string>)

  datatype Fault =
    BadInterface | BadSubnet | BadGateway | BadPoolStart | BadPoolRange | BadLeaseTime | BadDnsServer | NoDnsServer

  /** What a configuration says, free of its spelling. */
  datatype Plan = Plan(
    interface: string, start: Ipv4.Addr, end: Ipv4.Addr, lease: string, gateway: Ipv4.Addr, dns: seq<Ipv4.Addr>)

  function ParseInside(text: string, prefix: Ipv4.Prefix): Option<Ipv4.Addr>
    requires prefix.bits <= 32
  {
    var a := Ipv4.ParseAddr(text);
    if a.Some? && Ipv4.Contains(prefix, a.value) then a else None
  }

  function ParseAll(texts: seq<string>): Option<seq<Ipv4.Addr>> {
    MapAll(Ipv4.ParseAddr, texts)
  }

  function PrintAll(addrs: seq<Ipv4.Addr>): (texts: seq<string>)
    ensures |texts| == |addrs|
  {
    seq(|addrs|, i requires 0 <= i < |addrs| => Ipv4.Print(addrs[i]))
  }

  predicate IsLeaseTime(lease: string) {
    lease != "" && '\n' !in lease && '\r' !in lease
  }

  /** The checks in the order they are made; the first failure is reported. */
  function Check(p: Params): Result<Plan, Fault> {
    if !IsValidName(p.interface) then Err(BadInterface)
    else
      var prefix := Ipv4.ParsePrefix(p.subnetCidr);
      if prefix.None? then Err(BadSubnet)
      else
        var gateway := ParseInside(p.gateway, prefix.value);
        var start := ParseInside(p.poolStart, prefix.value);
        var end := ParseInside(p.poolEnd, prefix.value);
        if gateway.None? then Err(BadGateway)
        else if start.None? then Err(BadPoolStart)
        else if end.None? || start.value > end.value then Err(BadPoolRange)
        else if !IsLeaseTime(p.leaseTime) then Err(BadLeaseTime)
        else
          var dns := ParseAll(p.dnsServers);
          if dns.None? then Err(BadDnsServer)
          else if dns.value == [] then Err(NoDnsServer)
          else Ok(Plan(p.interface, start.value, end.value, p.leaseTime, gateway.value, dns.value))
  }

  const HEADER := "# Managed by NetRouter OS;" + " edits are replaced on apply."

  function SettingLine(key: string, value: string): string {
    key + "=" + value
  }

  const KEYS := ["interface", "bind-interfaces", "dhcp-range", "dhcp-option", "dhcp-option"]
  const ROUTER := "option:router"
  const SERVER := "option:dns-server"

  function Values(interface: string, start: string, end: string, lease: string, gateway: string,
      dns: seq<string>): seq<string>
  {
    [interface, "", Join([start, end, lease], ","), Join([ROUTER, gateway], ","), Join([SERVER] + dns, ",")]
  }

  /** A header comment and five settings; the second has no value. */
  function Layout(header: string, k: seq<string>, v: seq<string>): seq<string>
    requires |k| == 5 && |v| == 5
  {
    [header, SettingLine(k[0], v[0]), k[1], SettingLine(k[2], v[2]), SettingLine(k[3], v[3]), SettingLine(k[4], v[4])]
  }

  function FileLines(interface: string, start: string, end: string, lease: string, gateway: string,
      dns: seq<string>): seq<string>
  {
    Layout(HEADER, KEYS, Values(interface, start, end, lease, gateway, dns))
  }

  function PlanLines(plan: Plan): seq<string> {
    FileLines(plan.interface, Ipv4.Print(plan.start), Ipv4.Print(plan.end), plan.lease, Ipv4.Print(plan.gateway),
        PrintAll(plan.dns))
  }

  /** The rendered file, as a value. */
  function Rendered(p: Params): Result<string, Fault> {
    match Check(p)
    case Ok(plan) => Ok(Unlines(PlanLines(plan)))
    case Err(fault) => Err(fault)
  }

  /** The address loop: each server is checked and printed canonically. */
  method CanonicalServers(servers: seq<string>) returns (dns: Option<seq<string>>)
    ensures dns == match ParseAll(servers) case Some(addrs) => Some(PrintAll(addrs)) case None => None
  {
    var texts: seq<string> := [];
    ghost var parsed: seq<Ipv4.Addr> := [];
    for i := 0 to |servers|
      invariant ParseAll(servers[..i]) == Some(parsed)
      invariant texts == PrintAll(parsed)
    {
      var address := Ipv4.ParseAddr(servers[i]);
      if address.None? {
        MapAllIsPointwise(Ipv4.ParseAddr, servers);
        return None;
      }
      MapAllSnoc(Ipv4.ParseAddr, servers[..i], servers[i]);
      assert servers[..i + 1] == servers[..i] + [servers[i]];
      texts := texts + [Ipv4.Print(address.value)];
      parsed := parsed + [address.value];
    }
    assert servers[..|servers|] == servers;
    return Some(texts);
  }

  /** The generator: checks in order, then one formatted text. */
  method RenderDhcpDns(p: Params) returns (r: Result<string, Fault>)
    ensures r == Rendered(p)
  {
    if !IsValidName(p.interface) { return Err(BadInterface); }
    var prefix := Ipv4.ParsePrefix(p.subnetCidr);
    if prefix.None? { return Err(BadSubnet); }
    var gateway := Ipv4.ParseAddr(p.gateway);
    if gateway.None? || !Ipv4.Contains(prefix.value, gateway.value) { return Err(BadGateway); }
    var start := Ipv4.ParseAddr(p.poolStart);
    if start.None? || !Ipv4.Contains(prefix.value, start.value) { return Err(BadPoolStart); }
    var end := Ipv4.ParseAddr(p.poolEnd);
    if end.None? || !Ipv4.Contains(prefix.value, end.value) || start.value > end.value { return Err(BadPoolRange); }
    if !IsLeaseTime(p.leaseTime) { return Err(BadLeaseTime); }
    var dns := CanonicalServers(p.dnsServers);
    if dns.None? { return Err(BadDnsServer); }
    if |dns.value| == 0 { return Err(NoDnsServer); }
    return Ok(Unlines(FileLines(p.interface, Ipv4.Print(start.value), Ipv4.Print(end.value), p.leaseTime,
        Ipv4.Print(gateway.value), dns.value)));
  }

  // ---- Reading the file back ------------------------------------------------------------

  datatype Setting = Setting(key: string, value: string)

  /** Cuts at the first occurrence of a character. */
  function Cut(s: string, c: char): Setting
    decreases |s|
  {
    if s == "" then Setting("", "")
    else if s[0] == c then Setting("", s[1..])
    else var rest := Cut(s[1..], c); Setting([s[0]] + rest.key, rest.value)
  }

  /** One setting per line; blank lines and comments are skipped. */
  function ReadSettings(lines: seq<string>): seq<Setting>
    decreases |lines|
  {
    if lines == [] then []
    else if lines[0] == "" || lines[0][0] == '#' then ReadSettings(lines[1..])
    else [Cut(lines[0], '=')] + ReadSettings(lines[1..])
  }

  /** What a line tells dnsmasq. DHCP options have the codes of sections 3.5 and 3.8
      of RFC 2132. */
  datatype Directive =
    | Interface(name: string)
    | BindInterfaces
    | Range(first: Ipv4.Addr, last: Ipv4.Addr, lease: string)
    | DhcpOption(code: nat, addresses: seq<Ipv4.Addr>)

  datatype Keyword = KInterface | KBind | KRange | KOption | KOther

  function KeywordOf(key: string): Keyword {
    if key == "interface" then KInterface
    else if key == "bind-interfaces" then KBind
    else if key == "dhcp-range" then KRange
    else if key == "dhcp-option" then KOption
    else KOther
  }

  function OptionCode(name: string): Option<nat> {
    if name == "option:router" then Some(3) else if name == "option:dns-server" then Some(6) else None
  }

  function ReadDirective(s: Setting): Option<Directive> {
    var fields := Split(s.value, ',');
    match KeywordOf(s.key)
    case KInterface => if s.value != "" then Some(Interface(s.value)) else None
    case KBind => if s.value == "" then Some(BindInterfaces) else None
    case KRange => ReadRange(fields)
    case KOption => ReadOption(fields)
    case KOther => None
  }

  /** First and last address; the rest is the lease time, commas and all. */
  function ReadRange(fields: seq<string>): Option<Directive> {
    if |fields| < 3 then None
    else
      var first, last := Ipv4.ParseAddr(fields[0]), Ipv4.ParseAddr(fields[1]);
      if first.None? || last.None? then None else Some(Range(first.value, last.value, Join(fields[2..], ",")))
  }

  function ReadOption(fields: seq<string>): Option<Directive> {
    if fields == [] then None
    else
      var code, addresses := OptionCode(fields[0]), ParseAll(fields[1..]);
      if code.None? || addresses.None? then None else Some(DhcpOption(code.value, addresses.value))
  }

  /** Every line must be understood. */
  function ReadDirectives(text: string): Option<seq<Directive>> {
    MapAll(ReadDirective, ReadSettings(Split(text, '\n')))
  }

  /** What every accepted plan satisfies. */
  predicate IsPlan(plan: Plan) {
    IsValidName(plan.interface) && plan.start <= plan.end && IsLeaseTime(plan.lease) && plan.dns != []
  }

  lemma {:induction false} CutAtFirst(key: string, c: char, value: string)
    requires c !in key
    ensures Cut(key + [c] + value, c) == Setting(key, value)
  {
    if key != "" {
      CutAtFirst(key[1..], c, value);
      assert (key + [c] + value)[1..] == key[1..] + [c] + value;
      assert key == [key[0]] + key[1..];
    } else {
      assert (key + [c] + value)[1..] == value;
    }
  }

  lemma {:induction false} CutWithout(key: string, c: char)
    requires c !in key
    ensures Cut(key, c) == Setting(key, "")
  {
    if key != "" {
      CutWithout(key[1..], c);
      assert key == [key[0]] + key[1..];
    }
  }

  lemma ParseAllOfPrintAll(addrs: seq<Ipv4.Addr>)
    ensures ParseAll(PrintAll(addrs)) == Some(addrs)
  {
    var texts := PrintAll(addrs);
    forall i | 0 <= i < |addrs| ensures Ipv4.ParseAddr(texts[i]) == Some(addrs[i]) {
      Ipv4.PrintParses(addrs[i]);
    }
    MapAllIsPointwise(Ipv4.ParseAddr, texts);
    assert ParseAll(texts).value == addrs;
  }

  lemma {:induction false} JoinAvoids(parts: seq<string>, sep: string, c: char)
    requires c !in sep && forall p :: p in parts ==> c !in p
    ensures c !in Join(parts, sep)
  {
    if |parts| > 1 {
      JoinAvoids(parts[1..], sep, c);
    }
  }

  lemma PrintAllAvoids(addrs: seq<Ipv4.Addr>, c: char)
    requires !IsDigit(c) && c != '.'
    ensures forall p :: p in PrintAll(addrs) ==> c !in p
  {
    forall i | 0 <= i < |addrs| ensures c !in Ipv4.Print(addrs[i]) {
      Ipv4.PrintAlphabet(addrs[i]);
    }
  }

  predicate IsKey(k: string) {
    k != "" && k[0] != '#' && '=' !in k && '\n' !in k
  }

  predicate IsTag(t: string) {
    ',' !in t && '\n' !in t
  }

  lemma HeaderIsClean()
    ensures '\n' !in HEADER && HEADER != "" && HEADER[0] == '#'
  {
    assert '\n' !in "# Managed by NetRouter OS;";
    assert '\n' !in " edits are replaced on apply.";
  }

  lemma KeysAreClean()
    ensures |KEYS| == 5 && forall i :: 0 <= i < 5 ==> IsKey(KEYS[i])
  {
    assert IsKey("interface");
    assert IsKey("bind-interfaces");
    assert IsKey("dhcp-range");
    assert IsKey("dhcp-option");
  }

  lemma KeywordsDiffer()
    ensures KeywordOf(KEYS[0]) == KInterface && KeywordOf(KEYS[1]) == KBind && KeywordOf(KEYS[2]) == KRange
    ensures KeywordOf(KEYS[3]) == KOption && KeywordOf(KEYS[4]) == KOption
  {
    var i, b, r, o := "interface", "bind-interfaces", "dhcp-range", "dhcp-option";
    assert |i| == 9 && |b| == 15 && |r| == 10 && |o| == 11;
  }

  lemma OptionsDiffer()
    ensures OptionCode(ROUTER) == Some(3) && OptionCode(SERVER) == Some(6)
  {
    var r, d := "option:router", "option:dns-server";
    assert |r| == 13 && |d| == 17;
  }

  lemma TagsAreClean()
    ensures IsTag(ROUTER) && IsTag(SERVER)
  {
    assert IsTag("option:router");
    assert IsTag("option:dns-server");
  }

  /** The file has exactly the six generated lines: no input adds one. */
  lemma LinesOfLayout(header: string, k: seq<string>, v: seq<string>)
    requires |k| == 5 && |v| == 5 && '\n' !in header
    requires forall i :: 0 <= i < 5 ==> IsKey(k[i]) && '\n' !in v[i]
    ensures Split(Unlines(Layout(header, k, v)), '\n') == Layout(header, k, v) + [""]
  {
    SplitUnlines(Layout(header, k, v));
  }

  lemma ValuesAreClean(interface: string, start: string, end: string, lease: string, gateway: string, dns: seq<string>)
    requires '\n' !in interface && '\n' !in start && '\n' !in end && '\n' !in lease && '\n' !in gateway
    requires forall t :: t in dns ==> '\n' !in t
    ensures forall i :: 0 <= i < 5 ==> '\n' !in Values(interface, start, end, lease, gateway, dns)[i]
  {
    TagsAreClean();
    JoinAvoids([start, end, lease], ",", '\n');
    JoinAvoids([ROUTER, gateway], ",", '\n');
    JoinAvoids([SERVER] + dns, ",", '\n');
  }

  lemma ReadSetting(line: string, rest: seq<string>)
    requires line != "" && line[0] != '#'
    ensures ReadSettings([line] + rest) == [Cut(line, '=')] + ReadSettings(rest)
  {
    assert ([line] + rest)[1..] == rest;
  }

  lemma ReadKeyed(key: string, value: string, rest: seq<string>)
    requires key != "" && key[0] != '#' && '=' !in key
    ensures ReadSettings([SettingLine(key, value)] + rest) == [Setting(key, value)] + ReadSettings(rest)
  {
    assert SettingLine(key, value) == key + ['='] + value;
    CutAtFirst(key, '=', value);
    ReadSetting(SettingLine(key, value), rest);
  }

  /** Six lines, five settings: the reader sees each key with its value. */
  lemma SettingsOfLayout(header: string, k: seq<string>, v: seq<string>)
    requires |k| == 5 && |v| == 5 && v[1] == ""
    requires header != "" && header[0] == '#'
    requires forall i :: 0 <= i < 5 ==> IsKey(k[i])
    ensures ReadSettings(Layout(header, k, v) + [""])
            == [Setting(k[0], v[0]), Setting(k[1], v[1]), Setting(k[2], v[2]), Setting(k[3], v[3]), Setting(k[4], v[4])]
  {
    var l6 := [""];
    assert ReadSettings(l6) == [];
    var l5 := [SettingLine(k[4], v[4])] + l6;
    ReadKeyed(k[4], v[4], l6);
    var l4 := [SettingLine(k[3], v[3])] + l5;
    ReadKeyed(k[3], v[3], l5);
    var l3 := [SettingLine(k[2], v[2])] + l4;
    ReadKeyed(k[2], v[2], l4);
    CutWithout(k[1], '=');
    var l2 := [k[1]] + l3;
    ReadSetting(k[1], l3);
    var l1 := [SettingLine(k[0], v[0])] + l2;
    ReadKeyed(k[0], v[0], l2);
    assert ([header] + l1)[1..] == l1;
    assert [header] + l1 == Layout(header, k, v) + [""];
  }

  /** Reading the rendered text line by line recovers the whole plan, also when the
      lease time contains commas or equals signs. */
  lemma ReadsBack(plan: Plan)
    requires IsPlan(plan)
    ensures ReadDirectives(Unlines(PlanLines(plan))) == Some(Directives(plan))
  {
    var a, b, g, dns := Ipv4.Print(plan.start), Ipv4.Print(plan.end), Ipv4.Print(plan.gateway), PrintAll(plan.dns);
    Ipv4.PrintAlphabet(plan.start);
    Ipv4.PrintAlphabet(plan.end);
    Ipv4.PrintAlphabet(plan.gateway);
    PrintAllAvoids(plan.dns, '\n');
    PrintAllAvoids(plan.dns, ',');
    assert '\n' !in plan.interface && ',' !in plan.interface;
    Ipv4.PrintParses(plan.start);
    Ipv4.PrintParses(plan.end);
    Ipv4.PrintParses(plan.gateway);
    ParseAllOfPrintAll(plan.dns);
    ReadsBackText(plan, a, b, g, dns);
  }

  /** What a plan tells dnsmasq, line by line. */
  function Directives(plan: Plan): seq<Directive> {
    [Interface(plan.interface), BindInterfaces, Range(plan.start, plan.end, plan.lease),
     DhcpOption(3, [plan.gateway]), DhcpOption(6, plan.dns)]
  }

  lemma ReadsBackText(plan: Plan, a: string, b: string, g: string, dns: seq<string>)
    requires plan.interface != "" && '\n' !in plan.interface && '\n' !in plan.lease
    requires forall t :: t in [a, b, g] + dns ==> '\n' !in t && ',' !in t
    requires Ipv4.ParseAddr(a) == Some(plan.start) && Ipv4.ParseAddr(b) == Some(plan.end)
    requires Ipv4.ParseAddr(g) == Some(plan.gateway) && ParseAll(dns) == Some(plan.dns)
    ensures ReadDirectives(Unlines(FileLines(plan.interface, a, b, plan.lease, g, dns))) == Some(Directives(plan))
  {
    var plain := [a, b, g] + dns;
    assert a == plain[0] && b == plain[1] && g == plain[2] && forall t :: t in dns ==> t in plain;
    HeaderIsClean();
    KeysAreClean();
    ValuesAreClean(plan.interface, a, b, plan.lease, g, dns);
    DirectivesOfValues(plan, a, b, g, dns);
    ReadsLayout(HEADER, KEYS, Values(plan.interface, a, b, plan.lease, g, dns), Directives(plan));
  }

  ghost predicate ReadAs(k: seq<string>, v: seq<string>, ds: seq<Directive>) {
    && |k| == |v| == |ds| == 5
    && ReadDirective(Setting(k[0], v[0])) == Some(ds[0]) && ReadDirective(Setting(k[1], v[1])) == Some(ds[1])
    && ReadDirective(Setting(k[2], v[2])) == Some(ds[2]) && ReadDirective(Setting(k[3], v[3])) == Some(ds[3])
    && ReadDirective(Setting(k[4], v[4])) == Some(ds[4])
  }

  lemma DirectivesOfValues(plan: Plan, a: string, b: string, g: string, dns: seq<string>)
    requires plan.interface != "" && ',' !in a && ',' !in b && ',' !in g && forall t :: t in dns ==> ',' !in t
    requires Ipv4.ParseAddr(a) == Some(plan.start) && Ipv4.ParseAddr(b) == Some(plan.end)
    requires Ipv4.ParseAddr(g) == Some(plan.gateway) && ParseAll(dns) == Some(plan.dns)
    ensures ReadAs(KEYS, Values(plan.interface, a, b, plan.lease, g, dns), Directives(plan))
  {
    KeywordsDiffer();
    RangeReads(a, b, plan.lease, plan.start, plan.end);
    RouterReads(g, plan.gateway);
    ServersRead(dns, plan.dns);
    ValuesRead(KEYS,
      [plan.interface, "", Join([a, b, plan.lease], ","), Join([ROUTER, g], ","), Join([SERVER] + dns, ",")],
      [Interface(plan.interface), BindInterfaces, Range(plan.start, plan.end, plan.lease),
       DhcpOption(3, [plan.gateway]), DhcpOption(6, plan.dns)]);
  }

  lemma ValuesRead(k: seq<string>, v: seq<string>, ds: seq<Directive>)
    requires |k| == 5 && KeywordOf(k[0]) == KInterface && KeywordOf(k[1]) == KBind && KeywordOf(k[2]) == KRange
    requires KeywordOf(k[3]) == KOption && KeywordOf(k[4]) == KOption
    requires |v| == 5 && |ds| == 5 && v[0] != "" && v[1] == ""
    requires ds[0] == Interface(v[0]) && ds[1] == BindInterfaces
    requires ReadRange(Split(v[2], ',')) == Some(ds[2])
    requires ReadOption(Split(v[3], ',')) == Some(ds[3]) && ReadOption(Split(v[4], ',')) == Some(ds[4])
    ensures ReadAs(k, v, ds)
  {
    KeyedReads(k[0], v[0], ds[0]);
    KeyedReads(k[1], v[1], ds[1]);
    KeyedReads(k[2], v[2], ds[2]);
    KeyedReads(k[3], v[3], ds[3]);
    KeyedReads(k[4], v[4], ds[4]);
  }

  lemma KeyedReads(key: string, value: string, d: Directive)
    requires match KeywordOf(key)
             case KInterface => value != "" && d == Interface(value)
             case KBind => value == "" && d == BindInterfaces
             case KRange => ReadRange(Split(value, ',')) == Some(d)
             case KOption => ReadOption(Split(value, ',')) == Some(d)
             case KOther => false
    ensures ReadDirective(Setting(key, value)) == Some(d)
  {
  }

  lemma RouterReads(g: string, gateway: Ipv4.Addr)
    requires ',' !in g && Ipv4.ParseAddr(g) == Some(gateway)
    ensures ReadOption(Split(Join([ROUTER, g], ","), ',')) == Some(DhcpOption(3, [gateway]))
  {
    TagsAreClean();
    OptionsDiffer();
    OneAddress(g, gateway);
    OptionReads(ROUTER, 3, [g], [gateway]);
    assert [ROUTER] + [g] == [ROUTER, g];
  }

  lemma OneAddress(g: string, gateway: Ipv4.Addr)
    requires Ipv4.ParseAddr(g) == Some(gateway)
    ensures ParseAll([g]) == Some([gateway])
  {
    MapAllIsPointwise(Ipv4.ParseAddr, [g]);
    assert ParseAll([g]).value == [gateway];
  }

  lemma ServersRead(dns: seq<string>, addresses: seq<Ipv4.Addr>)
    requires (forall t :: t in dns ==> ',' !in t) && ParseAll(dns) == Some(addresses)
    ensures ReadOption(Split(Join([SERVER] + dns, ","), ',')) == Some(DhcpOption(6, addresses))
  {
    TagsAreClean();
    OptionsDiffer();
    OptionReads(SERVER, 6, dns, addresses);
  }

  lemma ReadsLayout(header: string, k: seq<string>, v: seq<string>, ds: seq<Directive>)
    requires header != "" && header[0] == '#' && '\n' !in header
    requires ReadAs(k, v, ds) && v[1] == "" && forall i :: 0 <= i < 5 ==> IsKey(k[i]) && '\n' !in v[i]
    ensures ReadDirectives(Unlines(Layout(header, k, v))) == Some(ds)
  {
    LinesOfLayout(header, k, v);
    SettingsOfLayout(header, k, v);
    FiveRead(k, v, ds);
  }

  /** Each of five settings read on its own. */
  lemma FiveRead(k: seq<string>, v: seq<string>, ds: seq<Directive>)
    requires ReadAs(k, v, ds)
    ensures MapAll(ReadDirective, [Setting(k[0], v[0]), Setting(k[1], v[1]), Setting(k[2], v[2]), Setting(k[3], v[3]),
              Setting(k[4], v[4])]) == Some(ds)
  {
    var s := [Setting(k[0], v[0]), Setting(k[1], v[1]), Setting(k[2], v[2]), Setting(k[3], v[3]), Setting(k[4], v[4])];
    MapAllIsPointwise(ReadDirective, s);
    assert MapAll(ReadDirective, s).value == ds;
  }

  lemma RangeReads(a: string, b: string, lease: string, first: Ipv4.Addr, last: Ipv4.Addr)
    requires ',' !in a && ',' !in b && Ipv4.ParseAddr(a) == Some(first) && Ipv4.ParseAddr(b) == Some(last)
    ensures ReadRange(Split(Join([a, b, lease], ","), ',')) == Some(Range(first, last, lease))
  {
    SplitRange(a, b, lease);
    JoinSplit(lease, ',');
    assert ([a, b] + Split(lease, ','))[2..] == Split(lease, ',');
  }

  lemma OptionReads(tag: string, code: nat, args: seq<string>, addresses: seq<Ipv4.Addr>)
    requires ',' !in tag && OptionCode(tag) == Some(code)
    requires (forall t :: t in args ==> ',' !in t) && ParseAll(args) == Some(addresses)
    ensures ReadOption(Split(Join([tag] + args, ","), ',')) == Some(DhcpOption(code, addresses))
  {
    SplitJoin([tag] + args, ',');
    assert ([tag] + args)[1..] == args;
  }

  lemma SplitRange(a: string, b: string, lease: string)
    requires ',' !in a && ',' !in b
    ensures Split(Join([a, b, lease], ","), ',') == [a, b] + Split(lease, ',')
  {
    var tail := b + [','] + lease;
    JoinPair(b, lease);
    assert [a, b, lease][1..] == [b, lease];
    assert Join([a, b, lease], ",") == a + [','] + tail;
    SplitCons(b, ',', lease);
    assert Split(tail, ',') == [b] + Split(lease, ',');
    SplitCons(a, ',', tail);
    assert [a] + ([b] + Split(lease, ',')) == [a, b] + Split(lease, ',');
  }

  lemma JoinPair(b: string, lease: string)
    ensures Join([b, lease], ",") == b + [','] + lease
  {
    assert [b, lease][1..] == [lease];
  }

  // ---- What an accepted request means ------------------------------------------------------

  /** A request is accepted exactly when every field parses and every address
      lies where it must. */
  predicate Acceptable(p: Params) {
    && IsValidName(p.interface)
    && Ipv4.ParsePrefix(p.subnetCidr).Some?
    && (var prefix := Ipv4.ParsePrefix(p.subnetCidr).value;
        && (forall t :: t in [p.gateway, p.poolStart, p.poolEnd] ==>
              Ipv4.ParseAddr(t).Some? && Ipv4.Contains(prefix, Ipv4.ParseAddr(t).value))
        && Ipv4.ParseAddr(p.poolStart).value <= Ipv4.ParseAddr(p.poolEnd).value)
    && IsLeaseTime(p.leaseTime)
    && p.dnsServers != []
    && forall t :: t in p.dnsServers ==> Ipv4.ParseAddr(t).Some?
  }

  lemma AcceptedIffAcceptable(p: Params)
    ensures Check(p).Ok? <==> Acceptable(p)
  {
    MapAllIsPointwise(Ipv4.ParseAddr, p.dnsServers);
    assert p.gateway in [p.gateway, p.poolStart, p.poolEnd];
    assert p.poolStart in [p.gateway, p.poolStart, p.poolEnd];
    assert p.poolEnd in [p.gateway, p.poolStart, p.poolEnd];
  }

  /** End to end: the text of every accepted request tells dnsmasq five things and no
      more, with the values the request spelled out, whatever their spelling. */
  lemma RenderedReadsBack(p: Params)
    requires Rendered(p).Ok?
    ensures var read := ReadDirectives(Rendered(p).value);
            && read.Some? && |read.value| == 5
            && var ds := read.value;
            && ds[0] == Interface(p.interface) && ds[1] == BindInterfaces
            && ds[2].Range? && ds[2].lease == p.leaseTime
            && Some(ds[2].first) == Ipv4.ParseAddr(p.poolStart) && Some(ds[2].last) == Ipv4.ParseAddr(p.poolEnd)
            && ds[3].DhcpOption? && ds[3].code == 3
            && |ds[3].addresses| == 1 && Some(ds[3].addresses[0]) == Ipv4.ParseAddr(p.gateway)
            && ds[4].DhcpOption? && ds[4].code == 6 && |ds[4].addresses| == |p.dnsServers|
            && forall i :: 0 <= i < |p.dnsServers| ==> Some(ds[4].addresses[i]) == Ipv4.ParseAddr(p.dnsServers[i])
  {
    CheckedFields(p, Check(p).value);
    ReadsBack(Check(p).value);
  }

  lemma CheckedFields(p: Params, plan: Plan)
    requires Check(p) == Ok(plan)
    ensures IsPlan(plan) && plan.interface == p.interface && plan.lease == p.leaseTime
    ensures Some(plan.start) == Ipv4.ParseAddr(p.poolStart) && Some(plan.end) == Ipv4.ParseAddr(p.poolEnd)
    ensures Some(plan.gateway) == Ipv4.ParseAddr(p.gateway) && |plan.dns| == |p.dnsServers|
    ensures forall i :: 0 <= i < |plan.dns| ==> Some(plan.dns[i]) == Ipv4.ParseAddr(p.dnsServers[i])
  {
    MapAllIsPointwise(Ipv4.ParseAddr, p.dnsServers);
  }

  /** Every address the server may hand out lies in the subnet, for every
      prefix length and also when the subnet is written with host bits set. */
  lemma PoolStaysInSubnet(p: Params, a: Ipv4.Addr)
    requires Rendered(p).Ok?
    ensures var read, prefix := ReadDirectives(Rendered(p).value), Ipv4.ParsePrefix(p.subnetCidr);
            && read.Some? && prefix.Some?
            && forall d :: d in read.value && d.Range? && d.first <= a <= d.last ==> Ipv4.Contains(prefix.value, a)
  {
    CheckedFields(p, Check(p).value);
    ReadsBack(Check(p).value);
    var prefix := Ipv4.ParsePrefix(p.subnetCidr).value;
    var first, last := Ipv4.ParseAddr(p.poolStart).value, Ipv4.ParseAddr(p.poolEnd).value;
    if first <= a <= last { Ipv4.ContainsIsConvex(prefix, first, a, last); }
  }

  // ---- The order of the checks ---------------------------------------------------------------

  predicate Inside(text: string, cidr: string) {
    && Ipv4.ParsePrefix(cidr).Some? && Ipv4.ParseAddr(text).Some?
    && Ipv4.Contains(Ipv4.ParsePrefix(cidr).value, Ipv4.ParseAddr(text).value)
  }

  /** What a request must satisfy for this fault not to be reported. */
  predicate Meets(p: Params, fault: Fault) {
    match fault
    case BadInterface => IsValidName(p.interface)
    case BadSubnet => Ipv4.ParsePrefix(p.subnetCidr).Some?
    case BadGateway => Inside(p.gateway, p.subnetCidr)
    case BadPoolStart => Inside(p.poolStart, p.subnetCidr)
    case BadPoolRange =>
      Inside(p.poolEnd, p.subnetCidr) &&
      (Ipv4.ParseAddr(p.poolStart).Some? ==>
        Ipv4.ParseAddr(p.poolStart).value <= Ipv4.ParseAddr(p.poolEnd).value)
    case BadLeaseTime => p.leaseTime != "" && '\n' !in p.leaseTime && '\r' !in p.leaseTime
    case BadDnsServer => forall t :: t in p.dnsServers ==> Ipv4.ParseAddr(t).Some?
    case NoDnsServer => p.dnsServers != []
  }

  lemma AcceptedMeetsAll(p: Params)
    requires Rendered(p).Ok?
    ensures forall f :: Meets(p, f)
  {
    MapAllIsPointwise(Ipv4.ParseAddr, p.dnsServers);
  }

  lemma ReportedIsUnmet(p: Params, f: Fault)
    requires Rendered(p) == Err(f)
    ensures !Meets(p, f)
  {
    if f.BadDnsServer? { MapAllIsPointwise(Ipv4.ParseAddr, p.dnsServers); }
  }

  lemma EarlierAreMet(p: Params, f: Fault)
    requires Rendered(p).Err? && Rank(f) < Rank(Rendered(p).error)
    ensures Meets(p, f)
  {
    MapAllIsPointwise(Ipv4.ParseAddr, p.dnsServers);
  }

  function Rank(f: Fault): nat {
    match f
    case BadInterface => 0
    case BadSubnet => 1
    case BadGateway => 2
    case BadPoolStart => 3
    case BadPoolRange => 4
    case BadLeaseTime => 5
    case BadDnsServer => 6
    case NoDnsServer => 7
  }

  /** The fault reported is the first, in the order of the checks, that the request
      does not avoid. */
  lemma FirstFaultIsReported(p: Params, f: Fault)
    ensures Rendered(p) == Err(f) <==> !Meets(p, f) && forall g :: Rank(g) < Rank(f) ==> Meets(p, g)
  {
    RankIsInjective(f);
    if Rendered(p).Ok? {
      AcceptedMeetsAll(p);
    } else {
      ReportedIsUnmet(p, Rendered(p).error);
      forall g | Rank(g) < Rank(Rendered(p).error) ensures Meets(p, g) {
        EarlierAreMet(p, g);
      }
    }
  }

  lemma RankIsInjective(f: Fault)
    ensures forall g :: Rank(g) == Rank(f) ==> g == f
  {
  }
}
