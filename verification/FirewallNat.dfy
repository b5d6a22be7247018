/** Whose source addresses the router rewrites, under any history of loads. */
module FirewallNat {
  import opened Wrappers
  import opened Firewall

  /** The first applicable rule says whether the source address becomes that of the
      outgoing interface. */
  predicate Rewrites(rules: seq<Rule>, p: Packet, state: CtClass) {
    rules != [] &&
    if Applies(rules[0], p, state) then rules[0].verdict == Masquerade else Rewrites(rules[1..], p, state)
  }

  /** Some translating chain rewrites the source of the flow whose first packet is
      `p`; later packets of the flow follow it. */
  predicate Translated(rs: Ruleset, ct: Conntrack, p: Packet) {
    exists c :: c in rs && c.kind.Nat? && c.hook == p.hook && Rewrites(c.rules, p, Classify(ct, p))
  }

  predicate AllMasquerade(rules: seq<Rule>) {
    forall r :: r in rules ==> r.verdict == Masquerade
  }

  lemma {:induction false} RewritesAppend(a: seq<Rule>, b: seq<Rule>, p: Packet, state: CtClass)
    requires AllMasquerade(a) && AllMasquerade(b)
    ensures Rewrites(a + b, p, state) <==> Rewrites(a, p, state) || Rewrites(b, p, state)
  {
    if a == [] {
      assert a + b == b;
    } else {
      assert a[0] in a && forall r :: r in a[1..] ==> r in a;
      assert (a + b)[1..] == a[1..] + b;
      RewritesAppend(a[1..], b, p, state);
    }
  }

  predicate LeavesByWan(loads: seq<Params>, p: Packet) {
    exists i :: 0 <= i < |loads| && p.oif == loads[i].wan
  }

  lemma LeavesSnoc(loads: seq<Params>, p: Packet)
    requires loads != []
    ensures LeavesByWan(loads, p) <==>
            LeavesByWan(loads[..|loads| - 1], p) || p.oif == loads[|loads| - 1].wan
  {
    var n := |loads| - 1;
    assert forall i :: 0 <= i < n ==> loads[..n][i] == loads[i];
    assert p.oif == loads[n].wan ==> LeavesByWan(loads, p);
  }

  /** The translating rules of every loaded file, in load order. */
  lemma {:induction false} LoadedRulesRewrite(loads: seq<Params>, p: Packet, state: CtClass)
    ensures AllMasquerade(ChainRules(loads, 2))
    ensures Rewrites(ChainRules(loads, 2), p, state) <==> LeavesByWan(loads, p)
    decreases |loads|
  {
    if loads != [] {
      var n := |loads| - 1;
      LoadedRulesRewrite(loads[..n], p, state);
      ChainRulesSnoc(loads, 2);
      OneRuleRewrites(loads[n], p, state);
      RewritesAppend(ChainRules(loads[..n], 2), Program(loads[n])[2].rules, p, state);
      LeavesSnoc(loads, p);
    }
  }

  lemma OneRuleRewrites(q: Params, p: Packet, state: CtClass)
    ensures AllMasquerade(Program(q)[2].rules)
    ensures Rewrites(Program(q)[2].rules, p, state) <==> p.oif == q.wan
  {
    var rules := Program(q)[2].rules;
    assert OifName(q.wan) in rules[0].matches;
  }

  lemma TranslatedByChain(a: Chain, b: Chain, c: Chain, ct: Conntrack, p: Packet)
    requires a.kind.Filter? && b.kind.Filter? && c.kind.Nat? && c.hook == Postrouting
    ensures Translated([a, b, c], ct, p) <==> p.hook == Postrouting && Rewrites(c.rules, p, Classify(ct, p))
  {
    assert c in [a, b, c];
  }

  /** After any loads, exactly those flows are rewritten whose first packet leaves by
      the WAN interface of some loaded file. */
  lemma LiveTranslatesIff(loads: seq<Params>, ct: Conntrack, p: Packet)
    ensures Translated(Live(loads), ct, p) <==>
            p.hook == Postrouting && exists i :: 0 <= i < |loads| && p.oif == loads[i].wan
  {
    if loads != [] {
      LiveChains(loads);
      var live := Live(loads);
      TranslatedByChain(live[0], live[1], live[2], ct, p);
      LoadedRulesRewrite(loads, p, Classify(ct, p));
    }
  }

  lemma ProgramTranslatesIff(q: Params, ct: Conntrack, p: Packet)
    ensures Translated(Program(q), ct, p) <==> p.hook == Postrouting && p.oif == q.wan
  {
    var file := Program(q);
    assert file == [file[0], file[1], file[2]];
    TranslatedByChain(file[0], file[1], file[2], ct, p);
    OneRuleRewrites(q, p, Classify(ct, p));
  }

  /** Whatever has been loaded: a new flow that is forwarded leaves translated. */
  lemma NewForwardIsTranslated(loads: seq<Params>, ct: Conntrack, p: Packet)
    requires loads != [] && p.hook == Forward && Classify(ct, p) == New && Admits(Live(loads), ct, p)
    ensures Translated(Live(loads), ct, p.(hook := Postrouting))
  {
    LiveIsUnion(loads, ct, p);
    var i :| 0 <= i < |loads| && Admits(Program(loads[i]), ct, p);
    ProgramDecides(loads[i], ct, p);
    LiveTranslatesIff(loads, ct, p.(hook := Postrouting));
  }

  ghost predicate SameTranslations(a: Ruleset, b: Ruleset) {
    forall ct: Conntrack, p: Packet :: Translated(a, ct, p) == Translated(b, ct, p)
  }

  /** The kernel translates as the last file alone would exactly when every earlier
      file named the same WAN interface. */
  lemma LiveTranslatesAsLastIff(loads: seq<Params>)
    requires loads != []
    ensures SameTranslations(Live(loads), Program(loads[|loads| - 1])) <==>
            forall i :: 0 <= i < |loads| ==> loads[i].wan == loads[|loads| - 1].wan
  {
    var last := loads[|loads| - 1];
    if forall i :: 0 <= i < |loads| ==> loads[i].wan == last.wan {
      forall ct: Conntrack, p: Packet ensures Translated(Live(loads), ct, p) == Translated(Program(last), ct, p) {
        LiveTranslatesIff(loads, ct, p);
        ProgramTranslatesIff(last, ct, p);
      }
    }
    if SameTranslations(Live(loads), Program(last)) {
      forall i | 0 <= i < |loads| ensures loads[i].wan == last.wan {
        var p := Packet(Flow(0, true, Udp), SideA, Postrouting, "", loads[i].wan, 0, None);
        LiveTranslatesIff(loads, map[], p);
        ProgramTranslatesIff(last, map[], p);
        assert Translated(Live(loads), map[], p) == Translated(Program(last), map[], p);
      }
    }
  }
}
