/** The nftables file the firewall generator writes, and a reader for it. */
module FirewallText {
  import opened Wrappers
  import opened Text
  import opened Names
  import opened Firewall
  import opened FirewallNat

  // ---- Writing -------------------------------------------------------------------------

  function Spaces(n: nat): string {
    seq(n, _ => ' ')
  }

  function Line(indent: nat, words: seq<string>): string {
    Spaces(indent) + Join(words, " ")
  }

  function Quoted(name: string): string {
    "\"" + name + "\""
  }

  const INPUT_HEAD := [["chain", "input", "{"],
      ["type", "filter", "hook", "input", "priority", "filter;", "policy", "drop;"]]
  const FORWARD_HEAD := [["chain", "forward", "{"],
      ["type", "filter", "hook", "forward", "priority", "filter;", "policy", "drop;"]]
  const POSTROUTING_HEAD := [["chain", "postrouting", "{"],
      ["type", "nat", "hook", "postrouting", "priority", "srcnat;"]]

  function InputRuleWords(p: Params): seq<seq<string>> {
    [["iifname", "\"lo\"", "accept"],
     ["ct", "state", "established,related", "accept"],
     ["iifname", Quoted(p.lan), "tcp", "dport", Dec(p.port), "accept"],
     ["ip", "protocol", "icmp", "accept"]]
  }

  function ForwardRuleWords(p: Params): seq<seq<string>> {
    [["ct", "state", "established,related", "accept"],
     ["iifname", Quoted(p.lan), "oifname", Quoted(p.wan), "accept"]]
  }

  function PostroutingRuleWords(p: Params): seq<seq<string>> {
    [["oifname", Quoted(p.wan), "masquerade"]]
  }

  function InputWords(p: Params): seq<seq<string>> {
    INPUT_HEAD + InputRuleWords(p) + [["}"]]
  }

  function ForwardWords(p: Params): seq<seq<string>> {
    FORWARD_HEAD + ForwardRuleWords(p) + [["}"]]
  }

  function PostroutingWords(p: Params): seq<seq<string>> {
    POSTROUTING_HEAD + PostroutingRuleWords(p) + [["}"]]
  }

  /** A chain's lines: header and closing brace at two spaces, the rest at four. */
  function ChainLines(words: seq<seq<string>>): seq<string> {
    seq(|words|, i requires 0 <= i < |words| => Line(if i == 0 || i == |words| - 1 then 2 else 4, words[i]))
  }

  function FileLines(p: Params): seq<string> {
    [Line(0, ["table", "inet", "netrouter", "{"])]
    + ChainLines(InputWords(p)) + ChainLines(ForwardWords(p)) + ChainLines(PostroutingWords(p))
    + [Line(0, ["}"])]
  }

  function RenderFirewall(p: Params): Result<string, Fault> {
    match Check(p)
    case Ok(q) => Ok(Unlines(FileLines(q)))
    case Err(fault) => Err(fault)
  }

  // ---- Reading -------------------------------------------------------------------------

  function NonEmpty(parts: seq<string>): seq<string>
    decreases |parts|
  {
    if parts == [] then []
    else (if parts[0] == "" then [] else [parts[0]]) + NonEmpty(parts[1..])
  }

  function Words(line: string): seq<string> {
    NonEmpty(Split(line, ' '))
  }

  datatype Keyword = KIif | KOif | KCt | KTcp | KIp | KAccept | KMasquerade | KOther

  function KeywordOf(w: string): Keyword {
    if w == "iifname" then KIif
    else if w == "oifname" then KOif
    else if w == "ct" then KCt
    else if w == "tcp" then KTcp
    else if w == "ip" then KIp
    else if w == "accept" then KAccept
    else if w == "masquerade" then KMasquerade
    else KOther
  }

  function Unquoted(w: string): Option<string> {
    if |w| >= 2 && w[0] == '"' && w[|w| - 1] == '"' then Some(w[1..|w| - 1]) else None
  }

  function StateOf(w: string): Option<CtClass> {
    if w == "new" then Some(New)
    else if w == "established" then Some(Established)
    else if w == "related" then Some(Related)
    else None
  }

  function StatesOf(w: string): Option<set<CtClass>> {
    var states := MapAll(StateOf, Split(w, ','));
    if states.Some? then Some(set s | s in states.value) else None
  }

  function Prepend(m: Match, rule: Option<Rule>): Option<Rule> {
    if rule.Some? then Some(Rule([m] + rule.value.matches, rule.value.verdict)) else None
  }

  /** Matches from left to right, then the verdict. */
  function ReadRule(words: seq<string>): Option<Rule>
    decreases |words|
  {
    if words == [] then None
    else
      var rest := words[1..];
      match KeywordOf(words[0])
      case KAccept => if rest == [] then Some(Rule([], Accept)) else None
      case KMasquerade => if rest == [] then Some(Rule([], Masquerade)) else None
      case KIif =>
        if rest != [] && Unquoted(rest[0]).Some?
        then Prepend(IifName(Unquoted(rest[0]).value), ReadRule(rest[1..]))
        else None
      case KOif =>
        if rest != [] && Unquoted(rest[0]).Some?
        then Prepend(OifName(Unquoted(rest[0]).value), ReadRule(rest[1..]))
        else None
      case KCt =>
        if |rest| >= 2 && rest[0] == "state" && StatesOf(rest[1]).Some?
        then Prepend(CtState(StatesOf(rest[1]).value), ReadRule(rest[2..]))
        else None
      case KTcp =>
        if |rest| >= 2 && rest[0] == "dport" && ParseField(rest[1], 65535).Some?
        then Prepend(TcpDport(ParseField(rest[1], 65535).value), ReadRule(rest[2..]))
        else None
      case KIp =>
        if |rest| >= 2 && rest[0] == "protocol" && rest[1] == "icmp"
        then Prepend(IpProtocolIcmp, ReadRule(rest[2..]))
        else None
      case _ => None
  }

  function HookOf(w: string): Option<Hook> {
    if w == "input" then Some(Input)
    else if w == "forward" then Some(Forward)
    else if w == "output" then Some(Output)
    else if w == "postrouting" then Some(Postrouting)
    else None
  }

  function TypeOf(w: string): Option<ChainType> {
    if w == "filter" then Some(Filter) else if w == "nat" then Some(Nat) else None
  }

  /** The priority each type of chain belongs at: filtering, and source translation. */
  function PriorityOf(kind: ChainType): string {
    if kind.Filter? then "filter;" else "srcnat;"
  }

  function DropsOf(policy: seq<string>): Option<bool> {
    if policy == ["policy", "drop;"] then Some(true)
    else if policy == [] || policy == ["policy", "accept;"] then Some(false)
    else None
  }

  datatype Block = Block(rules: seq<Rule>, rest: seq<seq<string>>)

  /** Rules up to the closing brace. */
  function ReadRules(lines: seq<seq<string>>): Option<Block>
    decreases |lines|
  {
    if lines == [] || lines[0] == [] then None
    else if lines[0] == ["}"] then Some(Block([], lines[1..]))
    else
      var rule, more := ReadRule(lines[0]), ReadRules(lines[1..]);
      if rule.Some? && more.Some? then Some(Block([rule.value] + more.value.rules, more.value.rest)) else None
  }

  datatype ChainBlock = ChainBlock(chain: Chain, rest: seq<seq<string>>)

  /** `chain NAME {`, its type line, its rules and the closing brace. */
  function ReadChain(lines: seq<seq<string>>): Option<ChainBlock> {
    if |lines| < 2 || |lines[0]| != 3 || |lines[1]| < 6 then None
    else if lines[0][0] != "chain" || lines[0][2] != "{" || lines[1][0] != "type" || lines[1][2] != "hook" then None
    else
      var kind, hook, drops := TypeOf(lines[1][1]), HookOf(lines[1][3]), DropsOf(lines[1][6..]);
      var body := ReadRules(lines[2..]);
      if kind.None? || hook.None? || drops.None? || body.None? then None
      else if lines[1][4] != "priority" || lines[1][5] != PriorityOf(kind.value) then None
      else Some(ChainBlock(Chain(kind.value, hook.value, drops.value, body.value.rules), body.value.rest))
  }

  /** The three chains of the table and nothing else. */
  function ReadTable(lines: seq<seq<string>>): Option<Ruleset> {
    if lines == [] || lines[0] != ["table", "inet", "netrouter", "{"] then None
    else
      var a := ReadChain(lines[1..]);
      if a.None? then None
      else
        var b := ReadChain(a.value.rest);
        if b.None? then None
        else
          var c := ReadChain(b.value.rest);
          if c.None? || c.value.rest != [["}"]] then None
          else Some([a.value.chain, b.value.chain, c.value.chain])
  }

  /** Blank lines carry no words and are skipped. */
  function WordLines(lines: seq<string>): seq<seq<string>>
    decreases |lines|
  {
    if lines == [] then []
    else (if Words(lines[0]) == [] then [] else [Words(lines[0])]) + WordLines(lines[1..])
  }

  function ReadRuleset(text: string): Option<Ruleset> {
    ReadTable(WordLines(Split(text, '\n')))
  }

  // ---- The reader inverts the generator ---------------------------------------------------

  predicate IsWord(w: string) {
    w != "" && ' ' !in w && '\n' !in w
  }

  predicate AreWords(words: seq<string>) {
    words != [] && forall w :: w in words ==> IsWord(w)
  }

  lemma {:induction false} NonEmptyKeeps(parts: seq<string>)
    requires forall p :: p in parts ==> p != ""
    ensures NonEmpty(parts) == parts
  {
    if parts != [] {
      assert parts[0] in parts && forall p :: p in parts[1..] ==> p in parts;
      NonEmptyKeeps(parts[1..]);
      assert parts == [parts[0]] + parts[1..];
    }
  }

  lemma {:induction false} WordsOfLine(indent: nat, words: seq<string>)
    requires AreWords(words)
    ensures Words(Line(indent, words)) == words && '\n' !in Line(indent, words)
  {
    if indent == 0 {
      assert Line(0, words) == Join(words, " ");
      SplitJoin(words, ' ');
      NonEmptyKeeps(words);
      JoinHasNo(words, '\n');
    } else {
      WordsOfLine(indent - 1, words);
      var rest := Line(indent - 1, words);
      assert Line(indent, words) == [] + [' '] + rest;
      SplitCons([], ' ', rest);
      assert ([""] + Split(rest, ' '))[1..] == Split(rest, ' ');
    }
  }

  lemma {:induction false} JoinHasNo(words: seq<string>, c: char)
    requires c != ' ' && forall w :: w in words ==> c !in w
    ensures c !in Join(words, " ")
  {
    if |words| > 1 {
      JoinHasNo(words[1..], c);
    }
  }

  lemma {:induction false} WordLinesOf(lines: seq<string>, words: seq<seq<string>>)
    requires |lines| == |words|
    requires forall i :: 0 <= i < |lines| ==> Words(lines[i]) == words[i] && words[i] != []
    ensures WordLines(lines + [""]) == words
  {
    if lines == [] {
      assert lines + [""] == [""];
      SplitAtom("", ' ');
      assert [""][1..] == [];
    } else {
      WordLinesOf(lines[1..], words[1..]);
      assert (lines + [""])[1..] == lines[1..] + [""];
      assert words == [words[0]] + words[1..];
    }
  }

  lemma KeywordsAreDistinct()
    ensures KeywordOf("iifname") == KIif && KeywordOf("oifname") == KOif
    ensures KeywordOf("ct") == KCt && KeywordOf("tcp") == KTcp && KeywordOf("ip") == KIp
    ensures KeywordOf("accept") == KAccept && KeywordOf("masquerade") == KMasquerade
  {
    var i, o, c, t, p, a, m := "iifname", "oifname", "ct", "tcp", "ip", "accept", "masquerade";
    assert |i| == 7 && |o| == 7 && |c| == 2 && |t| == 3 && |p| == 2 && |a| == 6 && |m| == 10;
    assert i[0] != o[0] && c[0] != p[0];
  }

  lemma HooksAreDistinct()
    ensures HookOf("input") == Some(Input) && HookOf("forward") == Some(Forward)
        && HookOf("postrouting") == Some(Postrouting)
  {
    var i, f, o, p := "input", "forward", "output", "postrouting";
    assert |i| == 5 && |f| == 7 && |o| == 6 && |p| == 11;
  }

  lemma StateNames()
    ensures StateOf("established") == Some(Established) && StateOf("related") == Some(Related)
  {
    var n, e, r := "new", "established", "related";
    assert |n| == 3 && |e| == 11 && |r| == 7;
  }

  lemma KnownParts()
    ensures Split("established,related", ',') == ["established", "related"]
  {
    var e, r := "established", "related";
    assert ',' !in e && ',' !in r;
    SplitAtom(r, ',');
    SplitCons(e, ',', r);
    assert "established,related" == e + [','] + r;
  }

  lemma KnownMapped()
    ensures MapAll(StateOf, Split("established,related", ',')) == Some([Established, Related])
  {
    KnownParts();
    StateNames();
    MapAllTwo(StateOf, "established", "related", Established, Related);
  }

  lemma KnownSet()
    ensures (set s | s in [Established, Related]) == {Established, Related}
  {
    var states := [Established, Related];
    assert states[0] in states && states[1] in states;
  }

  lemma KnownStates()
    ensures StatesOf("established,related") == Some({Established, Related})
  {
    KnownMapped();
    KnownSet();
  }

  lemma QuotedReads(name: string)
    ensures Unquoted(Quoted(name)) == Some(name)
  {
    assert Quoted(name)[1..|Quoted(name)| - 1] == name;
  }

  lemma ReadAccept()
    ensures ReadRule(["accept"]) == Some(Rule([], Accept))
    ensures ReadRule(["masquerade"]) == Some(Rule([], Masquerade))
  {
    KeywordsAreDistinct();
  }

  lemma ReadIif(name: string, tail: seq<string>)
    ensures ReadRule(["iifname", Quoted(name)] + tail) == Prepend(IifName(name), ReadRule(tail))
  {
    KeywordsAreDistinct();
    QuotedReads(name);
    assert (["iifname", Quoted(name)] + tail)[1..][1..] == tail;
  }

  lemma ReadOif(name: string, tail: seq<string>)
    ensures ReadRule(["oifname", Quoted(name)] + tail) == Prepend(OifName(name), ReadRule(tail))
  {
    KeywordsAreDistinct();
    QuotedReads(name);
    assert (["oifname", Quoted(name)] + tail)[1..][1..] == tail;
  }

  lemma ReadKnown(tail: seq<string>)
    ensures ReadRule(["ct", "state", "established,related"] + tail) == Prepend(KNOWN, ReadRule(tail))
  {
    KeywordsAreDistinct();
    KnownStates();
    assert (["ct", "state", "established,related"] + tail)[1..][2..] == tail;
  }

  lemma ReadTcp(port: Port, tail: seq<string>)
    ensures ReadRule(["tcp", "dport", Dec(port)] + tail) == Prepend(TcpDport(port), ReadRule(tail))
  {
    KeywordsAreDistinct();
    ParseFieldOfDec(port, 65535);
    assert (["tcp", "dport", Dec(port)] + tail)[1..][2..] == tail;
  }

  lemma ReadIcmp(tail: seq<string>)
    ensures ReadRule(["ip", "protocol", "icmp"] + tail) == Prepend(IpProtocolIcmp, ReadRule(tail))
  {
    KeywordsAreDistinct();
    assert (["ip", "protocol", "icmp"] + tail)[1..][2..] == tail;
  }

  lemma {:induction false} ReadRulesUpTo(words: seq<seq<string>>, rules: seq<Rule>, rest: seq<seq<string>>)
    requires |words| == |rules|
    requires forall i :: 0 <= i < |words| ==> |words[i]| > 1 && ReadRule(words[i]) == Some(rules[i])
    ensures ReadRules(words + [["}"]] + rest) == Some(Block(rules, rest))
  {
    var lines := words + [["}"]] + rest;
    if words == [] {
      assert lines[0] == ["}"] && lines[1..] == rest;
    } else {
      ReadRulesUpTo(words[1..], rules[1..], rest);
      assert lines[1..] == words[1..] + [["}"]] + rest;
      assert rules == [rules[0]] + rules[1..];
    }
  }

  /** One match, or two, before the verdict. */
  lemma PrependOnce(m: Match, v: Verdict)
    ensures Prepend(m, Some(Rule([], v))) == Some(Rule([m], v))
  {
    assert [m] + [] == [m];
  }

  lemma LoopbackRule()
    ensures ReadRule(["iifname", "\"lo\"", "accept"]) == Some(Rule([IifName("lo")], Accept))
  {
    ReadAccept();
    ReadIif("lo", ["accept"]);
    PrependOnce(IifName("lo"), Accept);
    assert Quoted("lo") == "\"lo\"";
    assert ["iifname", "\"lo\"", "accept"] == ["iifname", Quoted("lo")] + ["accept"];
  }

  lemma KnownRule()
    ensures ReadRule(["ct", "state", "established,related", "accept"]) == Some(Rule([KNOWN], Accept))
  {
    ReadAccept();
    ReadKnown(["accept"]);
    PrependOnce(KNOWN, Accept);
    assert ["ct", "state", "established,related", "accept"] == ["ct", "state", "established,related"] + ["accept"];
  }

  lemma ManagementRule(lan: string, port: Port)
    ensures ReadRule(["iifname", Quoted(lan), "tcp", "dport", Dec(port), "accept"])
        == Some(Rule([IifName(lan), TcpDport(port)], Accept))
  {
    ReadAccept();
    ReadTcp(port, ["accept"]);
    PrependOnce(TcpDport(port), Accept);
    ReadIif(lan, ["tcp", "dport", Dec(port)] + ["accept"]);
    assert ["iifname", Quoted(lan), "tcp", "dport", Dec(port), "accept"]
        == ["iifname", Quoted(lan)] + (["tcp", "dport", Dec(port)] + ["accept"]);
    assert [IifName(lan)] + [TcpDport(port)] == [IifName(lan), TcpDport(port)];
  }

  lemma IcmpRule()
    ensures ReadRule(["ip", "protocol", "icmp", "accept"]) == Some(Rule([IpProtocolIcmp], Accept))
  {
    ReadAccept();
    ReadIcmp(["accept"]);
    PrependOnce(IpProtocolIcmp, Accept);
    assert ["ip", "protocol", "icmp", "accept"] == ["ip", "protocol", "icmp"] + ["accept"];
  }

  lemma AcrossRule(lan: string, wan: string)
    ensures ReadRule(["iifname", Quoted(lan), "oifname", Quoted(wan), "accept"])
        == Some(Rule([IifName(lan), OifName(wan)], Accept))
  {
    ReadAccept();
    ReadOif(wan, ["accept"]);
    PrependOnce(OifName(wan), Accept);
    ReadIif(lan, ["oifname", Quoted(wan)] + ["accept"]);
    assert ["iifname", Quoted(lan), "oifname", Quoted(wan), "accept"] == ["iifname", Quoted(lan)]
        + (["oifname", Quoted(wan)] + ["accept"]);
    assert [IifName(lan)] + [OifName(wan)] == [IifName(lan), OifName(wan)];
  }

  lemma MasqueradeRule(wan: string)
    ensures ReadRule(["oifname", Quoted(wan), "masquerade"]) == Some(Rule([OifName(wan)], Masquerade))
  {
    ReadAccept();
    ReadOif(wan, ["masquerade"]);
    PrependOnce(OifName(wan), Masquerade);
    assert ["oifname", Quoted(wan), "masquerade"] == ["oifname", Quoted(wan)] + ["masquerade"];
  }

  /** A chain's first two lines, for a type, a hook and a policy. */
  predicate IsHead(head: seq<seq<string>>, kind: ChainType, hook: Hook, drops: bool) {
    && |head| == 2 && |head[0]| == 3 && head[0][0] == "chain" && head[0][2] == "{"
    && |head[1]| >= 6 && head[1][0] == "type" && TypeOf(head[1][1]) == Some(kind)
    && head[1][2] == "hook" && HookOf(head[1][3]) == Some(hook)
    && head[1][4] == "priority" && head[1][5] == PriorityOf(kind)
    && DropsOf(head[1][6..]) == Some(drops)
  }

  predicate ReadsAs(words: seq<seq<string>>, rules: seq<Rule>) {
    |words| == |rules| && forall i :: 0 <= i < |words| ==> |words[i]| > 1 && ReadRule(words[i]) == Some(rules[i])
  }

  /** A chain of header, type line, rules and closing brace. */
  lemma ChainReads(head: seq<seq<string>>, words: seq<seq<string>>, rules: seq<Rule>, rest: seq<seq<string>>,
      kind: ChainType, hook: Hook, drops: bool)
    requires IsHead(head, kind, hook, drops) && ReadsAs(words, rules)
    ensures ReadChain(head + words + [["}"]] + rest) == Some(ChainBlock(Chain(kind, hook, drops, rules), rest))
  {
    ReadRulesUpTo(words, rules, rest);
    assert (head + words + [["}"]] + rest)[2..] == words + [["}"]] + rest;
  }

  lemma TypesAreDistinct()
    ensures TypeOf("filter") == Some(Filter) && TypeOf("nat") == Some(Nat)
  {
    var f, n := "filter", "nat";
    assert |f| == 6 && |n| == 3;
  }

  lemma InputHead()
    ensures IsHead(INPUT_HEAD, Filter, Input, true)
  {
    HooksAreDistinct();
    TypesAreDistinct();
    assert INPUT_HEAD[1][6..] == ["policy", "drop;"];
  }

  lemma ForwardHead()
    ensures IsHead(FORWARD_HEAD, Filter, Forward, true)
  {
    HooksAreDistinct();
    TypesAreDistinct();
    assert FORWARD_HEAD[1][6..] == ["policy", "drop;"];
  }

  lemma PostroutingHead()
    ensures IsHead(POSTROUTING_HEAD, Nat, Postrouting, false)
  {
    HooksAreDistinct();
    TypesAreDistinct();
    assert POSTROUTING_HEAD[1][6..] == [];
  }

  lemma ReadsAsFour(words: seq<seq<string>>, rules: seq<Rule>)
    requires |words| == |rules| == 4 && |words[0]| > 1 && |words[1]| > 1 && |words[2]| > 1 && |words[3]| > 1
    requires ReadRule(words[0]) == Some(rules[0]) && ReadRule(words[1]) == Some(rules[1])
    requires ReadRule(words[2]) == Some(rules[2]) && ReadRule(words[3]) == Some(rules[3])
    ensures ReadsAs(words, rules)
  {
    forall i | 0 <= i < |words| ensures |words[i]| > 1 && ReadRule(words[i]) == Some(rules[i]) {
      assert i == 0 || i == 1 || i == 2 || i == 3;
    }
  }

  lemma InputRulesRead(p: Params)
    ensures ReadsAs(InputRuleWords(p), Program(p)[0].rules)
  {
    LoopbackRule();
    KnownRule();
    ManagementRule(p.lan, p.port);
    IcmpRule();
    ReadsAsFour(InputRuleWords(p), Program(p)[0].rules);
  }

  lemma ForwardRulesRead(p: Params)
    ensures ReadsAs(ForwardRuleWords(p), Program(p)[1].rules)
  {
    KnownRule();
    AcrossRule(p.lan, p.wan);
  }

  lemma PostroutingRulesRead(p: Params)
    ensures ReadsAs(PostroutingRuleWords(p), Program(p)[2].rules)
  {
    MasqueradeRule(p.wan);
  }

  function FileWords(p: Params): seq<seq<string>> {
    [["table", "inet", "netrouter", "{"]] + InputWords(p) + ForwardWords(p) + PostroutingWords(p) + [["}"]]
  }

  lemma TableReads(p: Params)
    ensures ReadTable(FileWords(p)) == Some(Program(p))
  {
    var lines := FileWords(p);
    var end := [["}"]];
    var c := PostroutingWords(p) + end;
    var b := ForwardWords(p) + c;
    assert lines[1..] == InputWords(p) + b;
    InputHead();
    InputRulesRead(p);
    ChainReads(INPUT_HEAD, InputRuleWords(p), Program(p)[0].rules, b, Filter, Input, true);
    ForwardHead();
    ForwardRulesRead(p);
    ChainReads(FORWARD_HEAD, ForwardRuleWords(p), Program(p)[1].rules, c, Filter, Forward, true);
    PostroutingHead();
    PostroutingRulesRead(p);
    ChainReads(POSTROUTING_HEAD, PostroutingRuleWords(p), Program(p)[2].rules, end, Nat, Postrouting, false);
  }

  lemma NameIsWord(name: string)
    requires IsValidName(name)
    ensures IsWord(Quoted(name))
  {
  }

  lemma HeadersAreWords()
    ensures AreWords(["chain", "input", "{"]) && AreWords(["chain", "forward", "{"])
        && AreWords(["chain", "postrouting", "{"])
    ensures AreWords(["table", "inet", "netrouter", "{"]) && AreWords(["}"])
  {
  }

  lemma FilterTypeIsWords()
    ensures AreWords(["type", "filter", "hook", "input", "priority", "filter;", "policy", "drop;"])
    ensures AreWords(["type", "filter", "hook", "forward", "priority", "filter;", "policy", "drop;"])
  {
  }

  lemma RulesAreWords()
    ensures AreWords(["iifname", "\"lo\"", "accept"])
    ensures AreWords(["ct", "state", "established,related", "accept"])
    ensures AreWords(["ip", "protocol", "icmp", "accept"])
  {
  }

  lemma ManagementIsWords(lan: string, port: Port)
    requires IsWord(Quoted(lan))
    ensures AreWords(["iifname", Quoted(lan), "tcp", "dport", Dec(port), "accept"])
  {
    DecReadsBack(port);
  }

  lemma InputAreWords(p: Params)
    requires IsValidName(p.lan)
    ensures forall i :: 0 <= i < |InputWords(p)| ==> AreWords(InputWords(p)[i])
  {
    NameIsWord(p.lan);
    HeadersAreWords();
    FilterTypeIsWords();
    RulesAreWords();
    ManagementIsWords(p.lan, p.port);
  }

  lemma ForwardAreWords(p: Params)
    requires IsValidName(p.lan) && IsValidName(p.wan)
    ensures forall i :: 0 <= i < |ForwardWords(p)| ==> AreWords(ForwardWords(p)[i])
  {
    NameIsWord(p.lan);
    NameIsWord(p.wan);
    HeadersAreWords();
    FilterTypeIsWords();
    RulesAreWords();
    assert AreWords(["iifname", Quoted(p.lan), "oifname", Quoted(p.wan), "accept"]);
  }

  lemma NatTypeIsWords()
    ensures AreWords(["type", "nat", "hook", "postrouting", "priority", "srcnat;"])
  {
  }

  lemma MasqueradeIsWords(wan: string)
    requires IsWord(Quoted(wan))
    ensures AreWords(["oifname", Quoted(wan), "masquerade"])
  {
  }

  lemma PostroutingAreWords(p: Params)
    requires IsValidName(p.wan)
    ensures forall i :: 0 <= i < |PostroutingWords(p)| ==> AreWords(PostroutingWords(p)[i])
  {
    NameIsWord(p.wan);
    HeadersAreWords();
    NatTypeIsWords();
    MasqueradeIsWords(p.wan);
  }

  /** A list of indented word lines reads as the words and holds no newline. */
  predicate Spells(lines: seq<string>, words: seq<seq<string>>) {
    && |lines| == |words|
    && forall i :: 0 <= i < |lines| ==> '\n' !in lines[i] && Words(lines[i]) == words[i] && words[i] != []
  }

  lemma ChainSpells(words: seq<seq<string>>)
    requires forall i :: 0 <= i < |words| ==> AreWords(words[i])
    ensures Spells(ChainLines(words), words)
  {
    forall i | 0 <= i < |words|
      ensures '\n' !in ChainLines(words)[i] && Words(ChainLines(words)[i]) == words[i]
    {
      WordsOfLine(if i == 0 || i == |words| - 1 then 2 else 4, words[i]);
    }
  }

  lemma SpellsAppend(a: seq<string>, v: seq<seq<string>>, b: seq<string>, w: seq<seq<string>>)
    requires Spells(a, v) && Spells(b, w)
    ensures Spells(a + b, v + w)
  {
  }

  lemma SingleSpells(words: seq<string>)
    requires AreWords(words)
    ensures Spells([Line(0, words)], [words])
  {
    WordsOfLine(0, words);
  }

  lemma FileSpells(p: Params)
    requires IsValidName(p.lan) && IsValidName(p.wan)
    ensures Spells(FileLines(p), FileWords(p))
  {
    var head := ["table", "inet", "netrouter", "{"];
    HeadersAreWords();
    SingleSpells(head);
    SingleSpells(["}"]);
    InputAreWords(p);
    ForwardAreWords(p);
    PostroutingAreWords(p);
    var a, b, c := InputWords(p), ForwardWords(p), PostroutingWords(p);
    ChainSpells(a);
    ChainSpells(b);
    ChainSpells(c);
    SpellsAppend([Line(0, head)], [head], ChainLines(a), a);
    SpellsAppend([Line(0, head)] + ChainLines(a), [head] + a, ChainLines(b), b);
    SpellsAppend([Line(0, head)] + ChainLines(a) + ChainLines(b), [head] + a + b, ChainLines(c), c);
    SpellsAppend([Line(0, head)] + ChainLines(a) + ChainLines(b) + ChainLines(c), [head] + a + b + c,
      [Line(0, ["}"])], [["}"]]);
  }

  /** The text of every accepted request denotes exactly the intended table:
      no interface name can add, split or change a rule. */
  lemma RenderedDenotesProgram(p: Params)
    requires RenderFirewall(p).Ok?
    ensures ReadRuleset(RenderFirewall(p).value) == Some(Program(p))
  {
    FileSpells(p);
    var lines := FileLines(p);
    SplitUnlines(lines);
    WordLinesOf(lines, FileWords(p));
    TableReads(p);
  }

  /** What the written file does, read back from its text: which packets it lets in
      and across, and whose sources it rewrites. */
  lemma RenderedDecides(p: Params, ct: Conntrack, x: Packet)
    requires RenderFirewall(p).Ok?
    ensures var rs := ReadRuleset(RenderFirewall(p).value);
            && rs.Some?
            && (Admits(rs.value, ct, x) <==>
                  match x.hook
                  case Input =>
                    || x.iif == "lo" || Classify(ct, x) in {Established, Related} || x.flow.proto == IcmpV4
                    || (x.iif == p.lan && x.flow.proto == Tcp && x.dport == p.port)
                  case Forward => Classify(ct, x) in {Established, Related} || (x.iif == p.lan && x.oif == p.wan)
                  case _ => true)
            && (Translated(rs.value, ct, x) <==> x.hook == Postrouting && x.oif == p.wan)
  {
    RenderedDenotesProgram(p);
    ProgramDecides(p, ct, x);
    ProgramTranslatesIff(p, ct, x);
  }

  /** The first fault in the order of the checks, and none exactly when the names are
      valid and differ and there is a port. */
  lemma RenderedIff(p: Params)
    ensures RenderFirewall(p) == Err(BadInterface) <==> !(IsValidName(p.lan) && IsValidName(p.wan))
    ensures RenderFirewall(p) == Err(SameInterface) <==> IsValidName(p.lan) && p.lan == p.wan
    ensures RenderFirewall(p) == Err(NoPort) <==>
            IsValidName(p.lan) && IsValidName(p.wan) && p.lan != p.wan && p.port == 0
    ensures RenderFirewall(p).Ok? <==> IsValidName(p.lan) && IsValidName(p.wan) && p.lan != p.wan && 0 < p.port < 65536
  {
  }
}
