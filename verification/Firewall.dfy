/** The firewall generator: the rules it emits, what they decide in every state of
    connection tracking, and what repeated loads add up to. */
module Firewall {
  import opened Wrappers
  import opened Names

  type Port = n: nat | n < 0x1_0000

  datatype Params = Params(lan: string, wan: string, port: Port)

  datatype Fault = BadInterface | SameInterface | NoPort

  // ---- Rulesets ---------------------------------------------------------------------

  datatype Match =
    | IifName(name: string)
    | OifName(name: string)
    | CtState(states: set<CtClass>)
    | TcpDport(port: nat)
    | IpProtocolIcmp

  datatype Verdict = Accept | Masquerade

  datatype Rule = Rule(matches: seq<Match>, verdict: Verdict)

  datatype Hook = Input | Forward | Output | Postrouting

  datatype ChainType = Filter | Nat

  /** A base chain; `drops` is the policy for packets no rule decides. */
  datatype Chain = Chain(kind: ChainType, hook: Hook, drops: bool, rules: seq<Rule>)

  /** The table's chains in order of appearance. */
  type Ruleset = seq<Chain>

  datatype CtClass = New | Established | Related

  const KNOWN := CtState({Established, Related})

  function Check(p: Params): Result<Params, Fault> {
    if !IsValidName(p.lan) || !IsValidName(p.wan) then Err(BadInterface)
    else if p.lan == p.wan then Err(SameInterface)
    else if p.port == 0 then Err(NoPort)
    else Ok(p)
  }

  /** The emitted table. */
  function Program(p: Params): Ruleset {
    [Chain(Filter, Input, true,
       [Rule([IifName("lo")], Accept),
        Rule([KNOWN], Accept),
        Rule([IifName(p.lan), TcpDport(p.port)], Accept),
        Rule([IpProtocolIcmp], Accept)]),
     Chain(Filter, Forward, true,
       [Rule([KNOWN], Accept),
        Rule([IifName(p.lan), OifName(p.wan)], Accept)]),
     Chain(Nat, Postrouting, false,
       [Rule([OifName(p.wan)], Masquerade)])]
  }

  // ---- Packets and connection tracking -----------------------------------------------

  datatype Proto = Tcp | Udp | IcmpV4 | IcmpV6 | OtherProto

  /** A tracked connection, the same for both of its directions. Routing
      decides once whether it crosses the router or ends there. */
  datatype Flow = Flow(id: nat, forwarded: bool, proto: Proto)

  datatype Side = SideA | SideB

  /** `parent` names the flow a packet refers to: the subject of an ICMP error,
      or the control connection that announced this one. */
  datatype Packet = Packet(
    flow: Flow, side: Side, hook: Hook, iif: string, oif: string, dport: nat, parent: Option<Flow>)

  datatype Entry = Entry(opener: Side, replied: bool, expected: bool)

  type Conntrack = map<Flow, Entry>

  function Classify(ct: Conntrack, p: Packet): CtClass {
    if p.flow in ct then
      var e := ct[p.flow];
      if e.opener != p.side || e.replied then Established
      else if e.expected then Related
      else New
    else if p.parent.Some? && p.parent.value in ct then Related
    else New
  }

  predicate Holds(m: Match, p: Packet, state: CtClass) {
    match m
    case IifName(name) => p.iif == name
    case OifName(name) => p.oif == name
    case CtState(states) => state in states
    case TcpDport(port) => p.flow.proto == Tcp && p.dport == port
    case IpProtocolIcmp => p.flow.proto == IcmpV4
  }

  predicate Applies(r: Rule, p: Packet, state: CtClass) {
    forall m :: m in r.matches ==> Holds(m, p, state)
  }

  /** First applicable rule decides, otherwise the policy. */
  predicate Decides(rules: seq<Rule>, drops: bool, p: Packet, state: CtClass) {
    if rules == [] then !drops
    else if Applies(rules[0], p, state) then rules[0].verdict == Accept
    else Decides(rules[1..], drops, p, state)
  }

  /** A translating chain holds up nothing but by its policy. */
  predicate LetsPass(c: Chain, p: Packet, state: CtClass) {
    if c.kind.Nat? then !c.drops else Decides(c.rules, c.drops, p, state)
  }

  /** A packet passes a hook when every base chain on it lets it pass. */
  predicate Admits(rs: Ruleset, ct: Conntrack, p: Packet) {
    forall c :: c in rs && c.hook == p.hook ==> LetsPass(c, p, Classify(ct, p))
  }

  /** A tracked flow notes the first packet of its other side; an unknown flow
      is entered only when its packet is let through. */
  function Track(ct: Conntrack, p: Packet, admitted: bool): Conntrack {
    if p.flow in ct then ct[p.flow := ct[p.flow].(replied := ct[p.flow].replied || p.side != ct[p.flow].opener)]
    else if admitted then ct[p.flow := Entry(p.side, false, Classify(ct, p) == Related)]
    else ct
  }

  // ---- What the emitted rules decide --------------------------------------------------------

  /** An accepting chain with a drop policy passes exactly the packets some
      rule applies to. */
  lemma {:induction false} DecidesIffSomeApplies(rules: seq<Rule>, p: Packet, state: CtClass)
    requires forall r :: r in rules ==> r.verdict == Accept
    ensures Decides(rules, true, p, state) <==> exists r :: r in rules && Applies(r, p, state)
  {
    if rules != [] {
      DecidesIffSomeApplies(rules[1..], p, state);
      assert rules[0] in rules;
      assert forall r :: r in rules ==> r == rules[0] || r in rules[1..];
    }
  }

  /** What the generated input chain lets in. */
  predicate InputPasses(q: Params, p: Packet, state: CtClass) {
    || p.iif == "lo"
    || state != New
    || (p.iif == q.lan && p.flow.proto == Tcp && p.dport == q.port)
    || p.flow.proto == IcmpV4
  }

  /** What the generated forward chain lets across. */
  predicate ForwardPasses(q: Params, p: Packet, state: CtClass) {
    state != New || (p.iif == q.lan && p.oif == q.wan)
  }

  lemma ProgramDecides(q: Params, ct: Conntrack, p: Packet)
    ensures Admits(Program(q), ct, p) <==>
            match p.hook
            case Input => InputPasses(q, p, Classify(ct, p))
            case Forward => ForwardPasses(q, p, Classify(ct, p))
            case _ => true
  {
    var state := Classify(ct, p);
    InputChainDecides(q, p, state);
    ForwardChainDecides(q, p, state);
    var rs := Program(q);
    assert rs[0] in rs && rs[1] in rs && rs[0].hook == Input && rs[1].hook == Forward && rs[2].hook == Postrouting;
    forall c | c in rs && c.hook == p.hook ensures c == rs[0] || c == rs[1] || c == rs[2] {
    }
  }

  lemma InputChainDecides(q: Params, p: Packet, state: CtClass)
    ensures Decides(Program(q)[0].rules, true, p, state) <==> InputPasses(q, p, state)
  {
    var rules := Program(q)[0].rules;
    RuleApplies1(IifName("lo"), p, state);
    RuleApplies1(KNOWN, p, state);
    RuleApplies2(IifName(q.lan), TcpDport(q.port), p, state);
    RuleApplies1(IpProtocolIcmp, p, state);
    assert rules[1..][1..][1..] == [rules[3]] && rules[1..][1..] == [rules[2], rules[3]]
        && rules[1..] == [rules[1], rules[2], rules[3]];
    assert Decides([rules[3]], true, p, state) <==> p.flow.proto == IcmpV4;
    assert Decides([rules[2], rules[3]], true, p, state) <==>
           (p.iif == q.lan && p.flow.proto == Tcp && p.dport == q.port) || p.flow.proto == IcmpV4;
  }

  lemma ForwardChainDecides(q: Params, p: Packet, state: CtClass)
    ensures Decides(Program(q)[1].rules, true, p, state) <==> ForwardPasses(q, p, state)
  {
    var rules := Program(q)[1].rules;
    RuleApplies1(KNOWN, p, state);
    RuleApplies2(IifName(q.lan), OifName(q.wan), p, state);
    assert rules[1..] == [rules[1]];
    assert Decides([rules[1]], true, p, state) <==> p.iif == q.lan && p.oif == q.wan;
  }

  lemma RuleApplies1(m: Match, p: Packet, state: CtClass)
    ensures Applies(Rule([m], Accept), p, state) <==> Holds(m, p, state)
  {
    assert m in [m];
  }

  lemma RuleApplies2(m: Match, n: Match, p: Packet, state: CtClass)
    ensures Applies(Rule([m, n], Accept), p, state) <==> Holds(m, p, state) && Holds(n, p, state)
  {
    assert m in [m, n] && n in [m, n];
  }

  /** A packet from the LAN interface out of the WAN interface. */
  predicate LanToWan(q: Params, p: Packet) {
    p.hook == Forward && p.iif == q.lan && p.oif == q.wan
  }

  /** The ways a conversation with the router itself may begin. */
  predicate LocalOpening(q: Params, p: Packet) {
    || p.hook == Output
    || (p.hook == Input && p.iif == "lo")
    || (p.hook == Input && p.iif == q.lan && p.flow.proto == Tcp && p.dport == q.port)
  }

  // ---- Loading ------------------------------------------------------------------------------

  /** `nft -f` without a flush: a chain that already exists on the hook gets the
      new rules appended, another one is added. */
  function Load(live: Ruleset, file: Ruleset): Ruleset
    decreases |file|
  {
    if file == [] then live else Load(AddChain(live, file[0]), file[1..])
  }

  function AddChain(live: Ruleset, c: Chain): Ruleset
    decreases |live|
  {
    if live == [] then [c]
    else if live[0].hook == c.hook then [live[0].(rules := live[0].rules + c.rules)] + live[1..]
    else [live[0]] + AddChain(live[1..], c)
  }

  /** The kernel's table after loading the generated files in turn. */
  function Live(loads: seq<Params>): Ruleset
    decreases |loads|
  {
    if loads == [] then [] else Load(Live(loads[..|loads| - 1]), Program(loads[|loads| - 1]))
  }

  function Flatten(blocks: seq<seq<Rule>>): seq<Rule>
    decreases |blocks|
  {
    if blocks == [] then [] else Flatten(blocks[..|blocks| - 1]) + blocks[|blocks| - 1]
  }

  lemma FlattenSnoc(blocks: seq<seq<Rule>>, last: seq<Rule>)
    ensures Flatten(blocks + [last]) == Flatten(blocks) + last
    ensures Flatten([last]) == last
  {
    assert (blocks + [last])[..|blocks|] == blocks;
    assert [last][..0] == [];
  }

  /** The rules of chain `k` of every loaded file, in load order. */
  function RulesPerLoad(loads: seq<Params>, k: nat): seq<seq<Rule>>
    requires k < 3
  {
    seq(|loads|, i requires 0 <= i < |loads| => Program(loads[i])[k].rules)
  }

  function ChainRules(loads: seq<Params>, k: nat): seq<Rule>
    requires k < 3
  {
    Flatten(RulesPerLoad(loads, k))
  }

  lemma LoadThree(a: Chain, b: Chain, c: Chain, x: Chain, y: Chain, z: Chain)
    requires a.hook == x.hook == Input && b.hook == y.hook == Forward && c.hook == z.hook == Postrouting
    ensures Load([a, b, c], [x, y, z])
            == [a.(rules := a.rules + x.rules), b.(rules := b.rules + y.rules), c.(rules := c.rules + z.rules)]
    ensures Load([], [x, y, z]) == [x, y, z]
  {
    var a', b', c' := a.(rules := a.rules + x.rules), b.(rules := b.rules + y.rules), c.(rules := c.rules + z.rules);
    assert [x, y, z][1..] == [y, z] && [y, z][1..] == [z] && [z][1..] == [];
    assert [a, b, c][1..] == [b, c] && [b, c][1..] == [c] && [a', b, c][1..] == [b, c] && [a', b', c][1..] == [b', c]
        && [b', c][1..] == [c];
    assert AddChain([a, b, c], x) == [a', b, c];
    assert AddChain([b, c], y) == [b', c];
    assert AddChain([a', b, c], y) == [a', b', c];
    assert AddChain([c], z) == [c'];
    assert AddChain([b', c], z) == [b', c'];
    assert AddChain([a', b', c], z) == [a', b', c'];
    assert Load([a', b', c'], []) == [a', b', c'];
    assert Load([a', b', c], [z]) == [a', b', c'];
    assert Load([a', b, c], [y, z]) == [a', b', c'];
    assert AddChain([], x) == [x];
    assert [x][1..] == [] && [x, y][1..] == [y];
    assert AddChain([x], y) == [x, y];
    assert AddChain([y], z) == [y, z];
    assert AddChain([x, y], z) == [x, y, z];
    assert Load([x, y], [z]) == [x, y, z];
    assert Load([x], [y, z]) == [x, y, z];
  }

  lemma ChainRulesSnoc(loads: seq<Params>, k: nat)
    requires loads != [] && k < 3
    ensures ChainRules(loads, k) == ChainRules(loads[..|loads| - 1], k) + Program(loads[|loads| - 1])[k].rules
    ensures |loads| == 1 ==> ChainRules(loads, k) == Program(loads[0])[k].rules
  {
    var n := |loads| - 1;
    var rules := Program(loads[n])[k].rules;
    assert RulesPerLoad(loads, k) == RulesPerLoad(loads[..n], k) + [rules];
    FlattenSnoc(RulesPerLoad(loads[..n], k), rules);
    if n == 0 { assert RulesPerLoad(loads, k) == [rules]; }
  }

  /** Loads only ever add rules: the live chains are the concatenation of
      every chain loaded so far. */
  lemma {:induction false} LiveChains(loads: seq<Params>)
    requires loads != []
    ensures Live(loads) ==
            [Chain(Filter, Input, true, ChainRules(loads, 0)), Chain(Filter, Forward, true, ChainRules(loads, 1)),
             Chain(Nat, Postrouting, false, ChainRules(loads, 2))]
    decreases |loads|
  {
    var n := |loads| - 1;
    var earlier, file := loads[..n], Program(loads[n]);
    assert file == [file[0], file[1], file[2]];
    forall k | 0 <= k < 3
      ensures ChainRules(loads, k) == ChainRules(earlier, k) + file[k].rules
      ensures n == 0 ==> ChainRules(loads, k) == file[k].rules
    {
      ChainRulesSnoc(loads, k);
    }
    if n == 0 {
      LoadThree(file[0], file[1], file[2], file[0], file[1], file[2]);
    } else {
      LiveChains(earlier);
      var live := Live(earlier);
      LoadThree(live[0], live[1], live[2], file[0], file[1], file[2]);
    }
  }

  lemma DecidesAppend(a: seq<Rule>, b: seq<Rule>, p: Packet, state: CtClass)
    requires forall r :: r in a ==> r.verdict == Accept
    requires forall r :: r in b ==> r.verdict == Accept
    ensures Decides(a + b, true, p, state) <==> Decides(a, true, p, state) || Decides(b, true, p, state)
  {
    assert forall r :: r in a + b <==> r in a || r in b;
    DecidesIffSomeApplies(a, p, state);
    DecidesIffSomeApplies(b, p, state);
    DecidesIffSomeApplies(a + b, p, state);
  }

  lemma {:induction false} FlattenAccepts(blocks: seq<seq<Rule>>)
    requires forall b, r :: b in blocks && r in b ==> r.verdict == Accept
    ensures forall r :: r in Flatten(blocks) ==> r.verdict == Accept
    decreases |blocks|
  {
    if blocks != [] {
      FlattenAccepts(blocks[..|blocks| - 1]);
    }
  }

  lemma {:induction false} FlattenDecides(blocks: seq<seq<Rule>>, p: Packet, state: CtClass)
    requires forall b, r :: b in blocks && r in b ==> r.verdict == Accept
    ensures Decides(Flatten(blocks), true, p, state) <==>
            exists i :: 0 <= i < |blocks| && Decides(blocks[i], true, p, state)
    decreases |blocks|
  {
    if blocks != [] {
      var n := |blocks| - 1;
      var earlier := blocks[..n];
      FlattenDecides(earlier, p, state);
      FlattenAccepts(earlier);
      DecidesAppend(Flatten(earlier), blocks[n], p, state);
      assert forall i :: 0 <= i < n ==> earlier[i] == blocks[i];
    }
  }

  lemma AdmitsByChain(a: Chain, b: Chain, c: Chain, ct: Conntrack, p: Packet)
    requires a.hook == Input && b.hook == Forward && c.hook == Postrouting && p.hook in {Input, Forward}
    requires a.kind.Filter? && b.kind.Filter?
    ensures Admits([a, b, c], ct, p) <==>
            if p.hook == Input then Decides(a.rules, a.drops, p, Classify(ct, p))
                else Decides(b.rules, b.drops, p, Classify(ct, p))
  {
    var rs := [a, b, c];
    assert a in rs && b in rs;
    assert forall d :: d in rs ==> d == a || d == b || d == c;
  }

  /** The chain a packet on the input or forward hook meets. */
  function ChainIndex(p: Packet): nat {
    if p.hook == Input then 0 else 1
  }

  lemma ProgramAdmits(q: Params, ct: Conntrack, p: Packet)
    requires p.hook in {Input, Forward}
    ensures Admits(Program(q), ct, p) <==> Decides(Program(q)[ChainIndex(p)].rules, true, p, Classify(ct, p))
  {
    var file := Program(q);
    assert file == [file[0], file[1], file[2]];
    AdmitsByChain(file[0], file[1], file[2], ct, p);
  }

  lemma LiveAdmits(loads: seq<Params>, ct: Conntrack, p: Packet)
    requires loads != [] && p.hook in {Input, Forward}
    ensures Admits(Live(loads), ct, p) <==> Decides(ChainRules(loads, ChainIndex(p)), true, p, Classify(ct, p))
  {
    LiveChains(loads);
    var live := Live(loads);
    AdmitsByChain(live[0], live[1], live[2], ct, p);
  }

  lemma ProgramAccepts(q: Params, k: nat)
    requires k < 2
    ensures forall r :: r in Program(q)[k].rules ==> r.verdict == Accept
  {
  }

  lemma LoadedRulesDecide(loads: seq<Params>, k: nat, p: Packet, state: CtClass)
    requires k < 2
    ensures Decides(ChainRules(loads, k), true, p, state) <==>
            exists i :: 0 <= i < |loads| && Decides(RulesPerLoad(loads, k)[i], true, p, state)
  {
    var blocks := RulesPerLoad(loads, k);
    forall b, r | b in blocks && r in b ensures r.verdict == Accept {
      var i :| 0 <= i < |loads| && blocks[i] == b;
      ProgramAccepts(loads[i], k);
    }
    FlattenDecides(blocks, p, state);
  }

  /** After any loads the router lets through exactly what any one of the
      loaded files lets through. */
  lemma LiveIsUnion(loads: seq<Params>, ct: Conntrack, p: Packet)
    requires loads != [] && p.hook in {Input, Forward}
    ensures Admits(Live(loads), ct, p) <==> exists i :: 0 <= i < |loads| && Admits(Program(loads[i]), ct, p)
  {
    var state, k := Classify(ct, p), ChainIndex(p);
    LiveAdmits(loads, ct, p);
    LoadedRulesDecide(loads, k, p, state);
    forall i | 0 <= i < |loads|
      ensures Admits(Program(loads[i]), ct, p) <==> Decides(RulesPerLoad(loads, k)[i], true, p, state)
    {
      ProgramAdmits(loads[i], ct, p);
    }
  }

  /** Two rulesets that let the same packets through in every tracking state. */
  ghost predicate SameVerdicts(a: Ruleset, b: Ruleset) {
    forall ct: Conntrack, p: Packet :: p.hook in {Input, Forward} ==> Admits(a, ct, p) == Admits(b, ct, p)
  }

  /** After any history, loading a file once more changes no verdict. */
  lemma ReloadIsIdempotent(loads: seq<Params>, q: Params)
    requires q in loads
    ensures SameVerdicts(Live(loads + [q]), Live(loads))
  {
    var more := loads + [q];
    var k :| 0 <= k < |loads| && loads[k] == q;
    forall ct: Conntrack, p: Packet | p.hook in {Input, Forward}
      ensures Admits(Live(more), ct, p) == Admits(Live(loads), ct, p)
    {
      LiveIsUnion(more, ct, p);
      LiveIsUnion(loads, ct, p);
      assert forall i :: 0 <= i < |loads| ==> more[i] == loads[i];
    }
  }

  /** `a` lets through nothing that `b` would not. */
  predicate Subsumed(a: Params, b: Params) {
    a.lan == b.lan && a.wan == b.wan && (a.port == b.port || a.lan == "lo")
  }

  /** The live rules decide as the last loaded file alone would, exactly when
      every earlier load named the same interfaces and, unless the LAN is the
      loopback, the same port. */
  lemma LiveMatchesLastIff(loads: seq<Params>)
    requires loads != []
    ensures SameVerdicts(Live(loads), Program(loads[|loads| - 1])) <==>
            forall i :: 0 <= i < |loads| ==> Subsumed(loads[i], loads[|loads| - 1])
  {
    var last := loads[|loads| - 1];
    if forall i :: 0 <= i < |loads| ==> Subsumed(loads[i], last) {
      forall ct: Conntrack, p: Packet | p.hook in {Input, Forward}
        ensures Admits(Live(loads), ct, p) == Admits(Program(last), ct, p)
      {
        LiveIsUnion(loads, ct, p);
        forall i | 0 <= i < |loads| ensures Admits(Program(loads[i]), ct, p) ==> Admits(Program(last), ct, p) {
          ProgramDecides(loads[i], ct, p);
          ProgramDecides(last, ct, p);
        }
      }
    }
    if SameVerdicts(Live(loads), Program(last)) {
      forall i | 0 <= i < |loads| ensures Subsumed(loads[i], last) {
        LeftoverRulesShow(loads, i);
      }
    }
  }

  lemma LeftoverRulesShow(loads: seq<Params>, i: nat)
    requires i < |loads| && SameVerdicts(Live(loads), Program(loads[|loads| - 1]))
    ensures Subsumed(loads[i], loads[|loads| - 1])
  {
    var q, last := loads[i], loads[|loads| - 1];
    var across := Packet(Flow(0, true, Udp), SideA, Forward, q.lan, q.wan, 0, None);
    var manage := Packet(Flow(1, false, Tcp), SideA, Input, q.lan, "", q.port, None);
    LiveIsUnion(loads, map[], across);
    LiveIsUnion(loads, map[], manage);
    ProgramDecides(q, map[], across);
    ProgramDecides(q, map[], manage);
    ProgramDecides(last, map[], across);
    ProgramDecides(last, map[], manage);
  }
}
