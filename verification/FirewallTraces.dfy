/** What the firewall lets through over whole traces of packets, expiring flows and
    files loaded in between. */
module FirewallTraces {
  import opened Wrappers
  import opened Firewall
  import opened FirewallNat

  /** Packets arrive and tracked flows time out in any order; in between a file is
      loaded, which the generator may have made for `q`. */
  datatype Event = Arrive(packet: Packet) | Expire(flow: Flow) | Install(q: Params, file: Ruleset)

  /** The kernel's rules; none before the first load. */
  function RulesAfter(trace: seq<Event>): Ruleset
    decreases |trace|
  {
    if trace == [] then []
    else
      var rules := RulesAfter(trace[..|trace| - 1]);
      match trace[|trace| - 1] case Install(_, file) => Load(rules, file) case _ => rules
  }

  function CtAfter(trace: seq<Event>): Conntrack
    decreases |trace|
  {
    if trace == [] then map[]
    else
      var init := trace[..|trace| - 1];
      var ct := CtAfter(init);
      match trace[|trace| - 1]
      case Arrive(p) => Track(ct, p, Admits(RulesAfter(init), ct, p))
      case Expire(f) => ct - {f}
      case Install(_, _) => ct
  }

  /** The packet of step `i` was let through. */
  predicate Passed(trace: seq<Event>, i: nat)
    requires i < |trace|
  {
    trace[i].Arrive? && Admits(RulesAfter(trace[..i]), CtAfter(trace[..i]), trace[i].packet)
  }

  // ---- Where admitted traffic comes from ------------------------------------------------

  /** Step `j` opened a flow: unknown, related to nothing, and let through. */
  predicate Opening(trace: seq<Event>, j: nat)
    requires j < |trace|
  {
    && Passed(trace, j)
    && (var ct, p := CtAfter(trace[..j]), trace[j].packet;
        p.flow !in ct && Classify(ct, p) == New)
  }

  /** `f` is `g`, or some packet of `f` referred to a flow descending from `g`. */
  ghost predicate Descends(trace: seq<Event>, f: Flow, g: Flow)
    decreases |trace|
  {
    f == g || exists k ::
      0 <= k < |trace| && Refers(trace[k], f) && Descends(trace[..k], trace[k].packet.parent.value, g)
  }

  predicate Refers(e: Event, f: Flow) {
    e.Arrive? && e.packet.flow == f && e.packet.parent.Some?
  }

  ghost predicate RootedAt(trace: seq<Event>, f: Flow, j: int) {
    0 <= j < |trace| && Opening(trace, j) && Descends(trace, f, trace[j].packet.flow)
  }

  /** The flow of step `i` descends from the flow opened at step `j <= i`. */
  ghost predicate RootedBy(trace: seq<Event>, i: nat, j: int)
    requires i < |trace| && trace[i].Arrive?
  {
    RootedAt(trace[..i + 1], trace[i].packet.flow, j)
  }

  lemma DescendsExtends(trace: seq<Event>, n: nat, f: Flow, g: Flow)
    requires n <= |trace| && Descends(trace[..n], f, g)
    ensures Descends(trace, f, g)
  {
    if f != g {
      var k :| 0 <= k < n && Refers(trace[..n][k], f) && Descends(trace[..n][..k], trace[k].packet.parent.value, g);
      assert trace[..n][..k] == trace[..k];
      assert Refers(trace[k], f);
    }
  }

  lemma RootExtends(trace: seq<Event>, n: nat, f: Flow, j: int)
    requires n <= |trace| && RootedAt(trace[..n], f, j)
    ensures RootedAt(trace, f, j)
  {
    assert trace[..n][..j] == trace[..j];
    DescendsExtends(trace, n, f, trace[j].packet.flow);
  }

  /** Whatever rules are loaded when, every tracked flow descends from a flow that
      was opened by a packet they let through as new. */
  lemma {:induction false} TrackedIsRooted(trace: seq<Event>, f: Flow)
    requires f in CtAfter(trace)
    ensures exists j :: RootedAt(trace, f, j)
    decreases |trace|, 0
  {
    var n := |trace| - 1;
    var before := trace[..n];
    if f in CtAfter(before) {
      TrackedIsRooted(before, f);
      var j :| RootedAt(before, f, j);
      RootExtends(trace, n, f, j);
    } else {
      AdmittedIsRooted(trace, n);
      var j :| RootedBy(trace, n, j);
      assert trace[..n + 1] == trace;
    }
  }

  /** Whatever rules are loaded when, every packet let through belongs or relates to
      such an opened flow. */
  lemma {:induction false} AdmittedIsRooted(trace: seq<Event>, i: nat)
    requires i < |trace| && Passed(trace, i)
    ensures exists j :: RootedBy(trace, i, j)
    decreases i, 1
  {
    var upTo := trace[..i + 1];
    var before := trace[..i];
    var ct, p := CtAfter(before), trace[i].packet;
    assert upTo[..i] == before && upTo[i] == trace[i];
    if p.flow in ct {
      TrackedIsRooted(before, p.flow);
      var j :| RootedAt(before, p.flow, j);
      RootExtends(upTo, i, p.flow, j);
      assert RootedBy(trace, i, j);
    } else if p.parent.Some? && p.parent.value in ct {
      TrackedIsRooted(before, p.parent.value);
      var j :| RootedAt(before, p.parent.value, j);
      assert Refers(upTo[i], p.flow) && Descends(upTo[..i], p.parent.value, trace[j].packet.flow);
      assert Descends(upTo, p.flow, trace[j].packet.flow);
      assert upTo[..j] == before[..j];
      assert RootedBy(trace, i, j);
    } else {
      assert Opening(upTo, i);
      assert RootedBy(trace, i, i);
    }
  }

  /** Forwarded flows meet the forward hook, others the router's own hooks; a
      flow refers only to flows of its own kind, and only ICMP refers to ICMP. */
  predicate WellRouted(p: Packet) {
    && p.hook != Postrouting
    && (p.hook == Forward <==> p.flow.forwarded)
    && (p.parent.Some? ==>
          && p.parent.value.forwarded == p.flow.forwarded
          && (p.parent.value.proto == IcmpV4 ==> p.flow.proto == IcmpV4))
  }

  predicate WellRoutedTrace(trace: seq<Event>) {
    forall i :: 0 <= i < |trace| && trace[i].Arrive? ==> WellRouted(trace[i].packet)
  }

  lemma {:induction false} DescentKeepsKind(trace: seq<Event>, f: Flow, g: Flow)
    requires WellRoutedTrace(trace) && Descends(trace, f, g)
    ensures f.forwarded == g.forwarded && (g.proto == IcmpV4 ==> f.proto == IcmpV4)
    decreases |trace|
  {
    if f != g {
      var k :| 0 <= k < |trace| && Refers(trace[k], f) && Descends(trace[..k], trace[k].packet.parent.value, g);
      DescentKeepsKind(trace[..k], trace[k].packet.parent.value, g);
    }
  }

  // ---- Files from the generator ------------------------------------------------------------

  /** Every file loaded is the one generated for its parameters. */
  predicate Generated(trace: seq<Event>) {
    forall i :: 0 <= i < |trace| && trace[i].Install? ==> trace[i].file == Program(trace[i].q)
  }

  /** The parameters loaded so far, oldest first. */
  function Loads(trace: seq<Event>): seq<Params>
    decreases |trace|
  {
    if trace == [] then []
    else Loads(trace[..|trace| - 1]) + match trace[|trace| - 1] case Install(q, _) => [q] case _ => []
  }

  lemma {:induction false} RulesAreLive(trace: seq<Event>)
    requires Generated(trace)
    ensures RulesAfter(trace) == Live(Loads(trace))
    decreases |trace|
  {
    if trace != [] {
      var init, last := trace[..|trace| - 1], trace[|trace| - 1];
      RulesAreLive(init);
      if last.Install? {
        assert Loads(trace)[..|Loads(trace)| - 1] == Loads(init);
      } else {
        assert Loads(trace) == Loads(init) + [] == Loads(init);
      }
    }
  }

  /** Verdicts on the trace so far, in terms of the files loaded. */
  lemma PassedMeans(trace: seq<Event>, i: nat)
    requires i < |trace| && trace[i].Arrive? && Generated(trace) && trace[i].packet.hook in {Input, Forward}
    ensures var loads, ct, p := Loads(trace[..i]), CtAfter(trace[..i]), trace[i].packet;
            Passed(trace, i) <==> loads == [] || exists m :: 0 <= m < |loads| && Admits(Program(loads[m]), ct, p)
  {
    RulesAreLive(trace[..i]);
    var loads := Loads(trace[..i]);
    if loads != [] { LiveIsUnion(loads, CtAfter(trace[..i]), trace[i].packet); }
  }

  /** Step `j` went from the LAN to the WAN of some file loaded before it, or came
      before any was. */
  ghost predicate OpenedAcross(trace: seq<Event>, j: nat)
    requires j < |trace| && trace[j].Arrive?
  {
    var loads := Loads(trace[..j]);
    loads == [] || exists m :: 0 <= m < |loads| && LanToWan(loads[m], trace[j].packet)
  }

  /** Over every trace, with files loaded at any time: a forwarded packet belongs or
      relates to a flow whose first packet went from the LAN to the WAN of a file
      loaded before that packet. */
  lemma ForwardedComesFromLan(trace: seq<Event>, i: nat)
    requires i < |trace| && WellRoutedTrace(trace) && Generated(trace)
    requires Passed(trace, i) && trace[i].packet.hook == Forward
    ensures exists j :: RootedBy(trace, i, j) && j <= i && trace[j].packet.hook == Forward && OpenedAcross(trace, j)
  {
    AdmittedIsRooted(trace, i);
    var j :| RootedBy(trace, i, j);
    RootKeepsKind(trace, i, j);
    PassedMeans(trace, j);
    var loads, ct := Loads(trace[..j]), CtAfter(trace[..j]);
    if loads != [] {
      var m :| 0 <= m < |loads| && Admits(Program(loads[m]), ct, trace[j].packet);
      ProgramDecides(loads[m], ct, trace[j].packet);
      assert LanToWan(loads[m], trace[j].packet);
    }
  }

  /** The packet of step `j` has its source rewritten on its way out. */
  predicate LeavesTranslated(trace: seq<Event>, j: nat)
    requires j < |trace| && trace[j].Arrive?
  {
    Translated(RulesAfter(trace[..j]), CtAfter(trace[..j]), trace[j].packet.(hook := Postrouting))
  }

  /** Over every such trace: a forwarded packet belongs or relates to a flow that was
      opened before any file was loaded, or left with the router's own address. */
  lemma ForwardedIsTranslated(trace: seq<Event>, i: nat)
    requires i < |trace| && WellRoutedTrace(trace) && Generated(trace)
    requires Passed(trace, i) && trace[i].packet.hook == Forward
    ensures exists j :: RootedBy(trace, i, j) && (Loads(trace[..j]) == [] || LeavesTranslated(trace, j))
  {
    ForwardedComesFromLan(trace, i);
    var j :| RootedBy(trace, i, j) && j <= i && trace[j].packet.hook == Forward && OpenedAcross(trace, j);
    RootKeepsKind(trace, i, j);
    RulesAreLive(trace[..j]);
    LiveTranslatesIff(Loads(trace[..j]), CtAfter(trace[..j]), trace[j].packet.(hook := Postrouting));
  }

  lemma RootKeepsKind(trace: seq<Event>, i: nat, j: nat)
    requires i < |trace| && WellRoutedTrace(trace) && trace[i].Arrive? && RootedBy(trace, i, j)
    ensures j <= i && Opening(trace, j) && trace[j].packet.flow.forwarded == trace[i].packet.flow.forwarded
    ensures WellRouted(trace[i].packet) && WellRouted(trace[j].packet)
    ensures trace[j].packet.flow.proto == IcmpV4 ==> trace[i].packet.flow.proto == IcmpV4
  {
    var upTo := trace[..i + 1];
    DescentKeepsKind(upTo, trace[i].packet.flow, trace[j].packet.flow);
    assert upTo[..j] == trace[..j] && upTo[j] == trace[j];
  }

  /** Step `j` began a conversation with the router in a way some file loaded before
      it provides for, or came before any was. */
  ghost predicate OpenedLocally(trace: seq<Event>, j: nat)
    requires j < |trace| && trace[j].Arrive?
  {
    var loads := Loads(trace[..j]);
    loads == [] || exists m :: 0 <= m < |loads| && LocalOpening(loads[m], trace[j].packet)
  }

  /** Over every such trace: a packet admitted on input that is not ICMP belongs or
      relates to a flow opened by the router, over loopback, or from the LAN to the
      management port of a file loaded before. */
  lemma AdmittedInputIsLocal(trace: seq<Event>, i: nat)
    requires i < |trace| && WellRoutedTrace(trace) && Generated(trace)
    requires Passed(trace, i) && trace[i].packet.hook == Input && trace[i].packet.flow.proto != IcmpV4
    ensures exists j :: RootedBy(trace, i, j) && j <= i && trace[j].packet.hook != Forward && OpenedLocally(trace, j)
  {
    AdmittedIsRooted(trace, i);
    var j :| RootedBy(trace, i, j);
    RootKeepsKind(trace, i, j);
    var loads, ct, p := Loads(trace[..j]), CtAfter(trace[..j]), trace[j].packet;
    if p.hook == Input {
      PassedMeans(trace, j);
      if loads != [] {
        var m :| 0 <= m < |loads| && Admits(Program(loads[m]), ct, p);
        ProgramDecides(loads[m], ct, p);
        assert LocalOpening(loads[m], p);
      }
    } else if loads != [] {
      assert LocalOpening(loads[0], p);
    }
  }

  /** An entry stays, with the same opener, until it expires. */
  lemma {:induction false} EntryStays(trace: seq<Event>, j: nat, i: nat)
    requires j < i <= |trace| && trace[j].Arrive? && Passed(trace, j)
    requires forall k :: j < k < i ==> trace[k] != Expire(trace[j].packet.flow)
    ensures var f := trace[j].packet.flow;
            f in CtAfter(trace[..i]) &&
            (f !in CtAfter(trace[..j]) ==> CtAfter(trace[..i])[f].opener == trace[j].packet.side)
    decreases i
  {
    assert trace[..i][..i - 1] == trace[..i - 1];
    if i > j + 1 { EntryStays(trace, j, i - 1); }
  }

  /** Replies pass: once a flow has been opened, every later packet from the other
      side passes until the entry expires, whatever is loaded meanwhile. */
  lemma RepliesPass(trace: seq<Event>, j: nat, i: nat)
    requires j < i < |trace| && trace[i].Arrive? && Generated(trace) && Opening(trace, j)
    requires var f := trace[j].packet.flow;
             && trace[i].packet.flow == f && trace[i].packet.side != trace[j].packet.side
             && trace[i].packet.hook in {Input, Forward}
             && forall k :: j < k < i ==> trace[k] != Expire(f)
    ensures Passed(trace, i)
  {
    EntryStays(trace, j, i);
    PassedMeans(trace, i);
    var loads, ct := Loads(trace[..i]), CtAfter(trace[..i]);
    if loads != [] {
      ProgramDecides(loads[0], ct, trace[i].packet);
      assert Admits(Program(loads[0]), ct, trace[i].packet);
    }
  }

  // ---- The last file loaded --------------------------------------------------------------------

  /** Loading generated files in turn. */
  function Installing(loads: seq<Params>): (trace: seq<Event>)
    ensures |trace| == |loads|
  {
    seq(|loads|, i requires 0 <= i < |loads| => Install(loads[i], Program(loads[i])))
  }

  predicate NoInstall(trace: seq<Event>) {
    forall i :: 0 <= i < |trace| ==> !trace[i].Install?
  }

  lemma {:induction false} LoadsOfInstalling(loads: seq<Params>)
    ensures Loads(Installing(loads)) == loads
    decreases |loads|
  {
    if loads != [] {
      var init := loads[..|loads| - 1];
      LoadsOfInstalling(init);
      assert Installing(loads)[..|loads| - 1] == Installing(init);
      assert init + [loads[|loads| - 1]] == loads;
    }
  }

  lemma {:induction false} LoadsKeep(trace: seq<Event>, rest: seq<Event>)
    requires NoInstall(rest)
    ensures Loads(trace + rest) == Loads(trace)
    decreases |rest|
  {
    if rest == [] {
      assert trace + rest == trace;
    } else {
      assert (trace + rest)[..|trace + rest| - 1] == trace + rest[..|rest| - 1];
      LoadsKeep(trace, rest[..|rest| - 1]);
    }
  }

  /** What the last file loaded provides for. */
  predicate Provided(last: Params, p: Packet) {
    if p.hook == Forward then LanToWan(last, p) else LocalOpening(last, p)
  }

  /** After these loads, packet `i` of `rest` descends from a flow that the last file
      provides for. */
  ghost predicate Accounted(loads: seq<Params>, rest: seq<Event>, i: nat)
    requires loads != [] && i < |rest| && rest[i].Arrive?
  {
    var trace, n := Installing(loads) + rest, |loads|;
    exists j :: RootedBy(trace, n + i, j) && 0 <= j < |trace| && trace[j].Arrive?
        && Provided(loads[n - 1], trace[j].packet)
  }

  /** Packets the theorems above speak of. */
  predicate Judged(loads: seq<Params>, rest: seq<Event>, i: nat) {
    && i < |rest| && NoInstall(rest) && WellRoutedTrace(rest)
    && Passed(Installing(loads) + rest, |loads| + i)
    && (rest[i].packet.hook == Forward || (rest[i].packet.hook == Input && rest[i].packet.flow.proto != IcmpV4))
  }

  /** Everything let through after these loads is accounted for by the last file
      exactly when every earlier file named the same interfaces and, unless the
      LAN is the loopback, the same port. */
  lemma LastFileAccountsIff(loads: seq<Params>)
    requires loads != []
    ensures (forall rest, i :: Judged(loads, rest, i) ==> Accounted(loads, rest, i)) <==>
            forall m :: 0 <= m < |loads| ==> Subsumed(loads[m], loads[|loads| - 1])
  {
    if forall m :: 0 <= m < |loads| ==> Subsumed(loads[m], loads[|loads| - 1]) {
      forall rest, i | Judged(loads, rest, i) ensures Accounted(loads, rest, i) {
        SubsumedAccounts(loads, rest, i);
      }
    } else {
      var m :| 0 <= m < |loads| && !Subsumed(loads[m], loads[|loads| - 1]);
      var p := LeftoverPacket(loads[m], loads[|loads| - 1]);
      LeftoverUnaccounted(loads, m, p);
      assert Judged(loads, [Arrive(p)], 0) && !Accounted(loads, [Arrive(p)], 0);
    }
  }

  lemma SubsumedAccounts(loads: seq<Params>, rest: seq<Event>, i: nat)
    requires loads != [] && Judged(loads, rest, i)
    requires forall m :: 0 <= m < |loads| ==> Subsumed(loads[m], loads[|loads| - 1])
    ensures Accounted(loads, rest, i)
  {
    var trace, n := Installing(loads) + rest, |loads|;
    GeneratedFirst(loads, rest);
    assert trace[n + i] == rest[i];
    forall j | n <= j <= n + i ensures Loads(trace[..j]) == loads {
      LoadsBefore(loads, rest, j);
    }
    if rest[i].packet.hook == Forward {
      var j := AcrossForLast(trace, loads, n + i);
    } else {
      var j := LocalForLast(trace, loads, n + i);
    }
  }

  lemma AcrossForLast(trace: seq<Event>, loads: seq<Params>, i: nat) returns (j: nat)
    requires loads != [] && forall m :: 0 <= m < |loads| ==> Subsumed(loads[m], loads[|loads| - 1])
    requires i < |trace| && WellRoutedTrace(trace) && Generated(trace)
    requires forall j :: 0 <= j <= i && trace[j].Arrive? ==> Loads(trace[..j]) == loads
    requires Passed(trace, i) && trace[i].packet.hook == Forward
    ensures RootedBy(trace, i, j) && j < |trace| && trace[j].Arrive? && Provided(loads[|loads| - 1], trace[j].packet)
  {
    ForwardedComesFromLan(trace, i);
    j :| RootedBy(trace, i, j) && j <= i && trace[j].packet.hook == Forward && OpenedAcross(trace, j);
  }

  lemma LocalForLast(trace: seq<Event>, loads: seq<Params>, i: nat) returns (j: nat)
    requires loads != [] && forall m :: 0 <= m < |loads| ==> Subsumed(loads[m], loads[|loads| - 1])
    requires i < |trace| && WellRoutedTrace(trace) && Generated(trace)
    requires forall j :: 0 <= j <= i && trace[j].Arrive? ==> Loads(trace[..j]) == loads
    requires Passed(trace, i) && trace[i].packet.hook == Input && trace[i].packet.flow.proto != IcmpV4
    ensures RootedBy(trace, i, j) && j < |trace| && trace[j].Arrive? && Provided(loads[|loads| - 1], trace[j].packet)
  {
    AdmittedInputIsLocal(trace, i);
    j :| RootedBy(trace, i, j) && j <= i && trace[j].packet.hook != Forward && OpenedLocally(trace, j);
  }

  lemma GeneratedFirst(loads: seq<Params>, rest: seq<Event>)
    requires NoInstall(rest) && WellRoutedTrace(rest)
    ensures Generated(Installing(loads) + rest) && WellRoutedTrace(Installing(loads) + rest)
    ensures forall j :: 0 <= j < |loads| ==> !(Installing(loads) + rest)[j].Arrive?
  {
  }

  lemma LoadsBefore(loads: seq<Params>, rest: seq<Event>, j: nat)
    requires NoInstall(rest) && |loads| <= j <= |loads| + |rest|
    ensures Loads((Installing(loads) + rest)[..j]) == loads
  {
    var some := rest[..j - |loads|];
    assert (Installing(loads) + rest)[..j] == Installing(loads) + some;
    LoadsOfInstalling(loads);
    LoadsKeep(Installing(loads), some);
  }

  /** A new packet that `q` lets through and `last` does not provide for. */
  lemma LeftoverPacket(q: Params, last: Params) returns (p: Packet)
    requires !Subsumed(q, last)
    ensures WellRouted(p) && !Provided(last, p) && p.parent.None?
    ensures p.hook == Forward || (p.hook == Input && p.flow.proto != IcmpV4)
    ensures Admits(Program(q), map[], p)
  {
    if q.lan != last.lan || q.wan != last.wan {
      p := Packet(Flow(0, true, Udp), SideA, Forward, q.lan, q.wan, 0, None);
    } else {
      p := Packet(Flow(1, false, Tcp), SideA, Input, q.lan, "", q.port, None);
    }
    ProgramDecides(q, map[], p);
  }

  lemma LeftoverPasses(loads: seq<Params>, m: nat, p: Packet)
    requires m < |loads| && WellRouted(p) && p.parent.None? && Admits(Program(loads[m]), map[], p)
        && p.hook in {Input, Forward}
    ensures Opening(Installing(loads) + [Arrive(p)], |loads|)
  {
    var trace, n := Installing(loads) + [Arrive(p)], |loads|;
    assert trace[..n] == Installing(loads) && trace[n] == Arrive(p);
    LoadsOfInstalling(loads);
    NothingTracked(loads);
    GeneratedFirst(loads, [Arrive(p)]);
    PassedMeans(trace, n);
  }

  lemma LeftoverUnaccounted(loads: seq<Params>, m: nat, p: Packet)
    requires m < |loads| && WellRouted(p) && p.parent.None? && Admits(Program(loads[m]), map[], p)
        && !Provided(loads[|loads| - 1], p)
    requires p.hook == Forward || (p.hook == Input && p.flow.proto != IcmpV4)
    ensures Judged(loads, [Arrive(p)], 0) && !Accounted(loads, [Arrive(p)], 0)
    ensures Opening(Installing(loads) + [Arrive(p)], |loads|)
  {
    LeftoverPasses(loads, m, p);
    GeneratedFirst(loads, [Arrive(p)]);
    assert (Installing(loads) + [Arrive(p)])[|loads|] == Arrive(p);
  }

  lemma {:induction false} NothingTracked(loads: seq<Params>)
    ensures CtAfter(Installing(loads)) == map[]
    decreases |loads|
  {
    if loads != [] {
      assert Installing(loads)[..|loads| - 1] == Installing(loads[..|loads| - 1]);
      NothingTracked(loads[..|loads| - 1]);
    }
  }

  /** Swapping the interfaces in a second file leaves the old direction open: a new
      packet from what is now the WAN to what is now the LAN is forwarded. */
  lemma SwappedInterfacesStayOpen(a: string, b: string, port: Port)
    requires a != b
    ensures var loads := [Params(a, b, port), Params(b, a, port)];
            var p := Packet(Flow(0, true, Udp), SideA, Forward, a, b, 0, None);
            Opening(Installing(loads) + [Arrive(p)], 2) && !LanToWan(loads[1], p) && !Accounted(loads, [Arrive(p)], 0)
  {
    var loads := [Params(a, b, port), Params(b, a, port)];
    var p := Packet(Flow(0, true, Udp), SideA, Forward, a, b, 0, None);
    ProgramDecides(loads[0], map[], p);
    LeftoverUnaccounted(loads, 0, p);
  }
}
