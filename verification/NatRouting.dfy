/**
 Where the nat table built by proxy_init.sh sends each packet. The table it starts from has none of
 the script's own chains; other chains may be present, and rules that do not apply to the packet.
 */
module NatRouting {
  import opened NatRules

  // ----- the routing that the options ask for

  predicate Whitelisted(ports: seq<nat>, p: Packet) {
    p.dport in ports && p.state in {New, Established}
  }

  function InboundSpec(o: Options, p: Packet): Verdict
    requires o.inPort.Some?
  {
    if p.tcp && !Whitelisted(o.whitelist, p) then ToPort(o.inPort.value) else Accept
  }

  predicate IsLocalhost(p: Packet) {
    p.destination == 0x7f00_0001
  }

  predicate Captured(ranges: seq<Cidr>, p: Packet) {
    ranges == [] || exists c :: c in ranges && Covers(c, p.destination)
  }

  function OutboundSpec(o: Options, p: Packet): Verdict
    requires o.inPort.Some? && o.uid.Some?
  {
    if !p.tcp || o.outPort.None? then Accept
    else if p.outInterface == "lo" && !IsLocalhost(p) && !Whitelisted(o.whitelist, p) then ToPort(o.inPort.value)
    else if p.owner == o.uid || IsLocalhost(p) then Accept
    else if Captured(o.ranges, p) then ToPort(o.outPort.value)
    else Accept
  }

  predicate NoneApplies(rules: seq<Rule>, p: Packet) {
    forall i | 0 <= i < |rules| :: !rules[i].Applies(p)
  }

  /** The table has none of the script's chains, and no rule of its built-in chains takes the packet. */
  predicate FreshFor(t: Table, p: Packet) {
    && BuiltInsExist(t) && ENVOY_IN !in t && ENVOY_OUT !in t
    && NoneApplies(t[PREROUTING], p) && NoneApplies(t[OUTPUT], p)
  }

  predicate Complete(o: Options) {
    o.inPort.Some? && o.uid.Some?
  }

  // ----- walking the parts

  lemma {:induction false} WalkWhitelist(t: Table, ports: seq<nat>, rest: seq<Rule>, p: Packet,
                                         unvisited: set<ChainName>)
    requires p.tcp
    ensures Walk(t, WhitelistRules(ports) + rest, p, unvisited) ==
            if Whitelisted(ports, p) then Back else Walk(t, rest, p, unvisited)
  {
    var rules := WhitelistRules(ports) + rest;
    if ports == [] {
      assert rules == rest;
    } else {
      assert rules[1..] == WhitelistRules(ports[1..]) + rest;
      WalkWhitelist(t, ports[1..], rest, p, unvisited);
      var m := rules[0].matches;
      assert m[0].Holds(p) && (m[1].Holds(p) <==> p.dport == ports[0]);
      assert m[2].Holds(p) <==> p.state in {New, Established};
      assert rules[0].Applies(p) <==> Whitelisted([ports[0]], p);
    }
  }

  lemma {:induction false} WalkRanges(t: Table, ranges: seq<Cidr>, outPort: nat, rest: seq<Rule>, p: Packet,
                                      unvisited: set<ChainName>)
    requires p.tcp
    ensures Walk(t, RangeRules(ranges, outPort) + rest, p, unvisited) ==
            if exists c :: c in ranges && Covers(c, p.destination) then Redirected(outPort)
            else Walk(t, rest, p, unvisited)
  {
    var rules := RangeRules(ranges, outPort) + rest;
    if ranges == [] {
      assert rules == rest;
    } else {
      assert rules[1..] == RangeRules(ranges[1..], outPort) + rest;
      WalkRanges(t, ranges[1..], outPort, rest, p, unvisited);
      var m := rules[0].matches;
      assert (m[0].Holds(p) <==> Covers(ranges[0], p.destination)) && m[1].Holds(p);
      assert rules[0].Applies(p) <==> Covers(ranges[0], p.destination);
      assert ranges[0] in ranges;
    }
  }

  lemma WalkTcpRule(t: Table, target: Target, rest: seq<Rule>, p: Packet, unvisited: set<ChainName>)
    requires target.Return? || target.Redirect?
    ensures Walk(t, [Rule([Tcp], target)] + rest, p, unvisited) ==
            if !p.tcp then Walk(t, rest, p, unvisited)
            else if target.Return? then Back else Redirected(target.port)
  {
    var rules := [Rule([Tcp], target)] + rest;
    assert rules[1..] == rest;
    assert rules[0].matches[0].Holds(p) <==> p.tcp;
  }

  lemma WalkInbound(t: Table, ports: seq<nat>, inPort: nat, p: Packet, unvisited: set<ChainName>)
    requires p.tcp
    ensures Walk(t, InboundRules(ports, inPort), p, unvisited) ==
            if Whitelisted(ports, p) then Back else Redirected(inPort)
  {
    WalkWhitelist(t, ports, [Rule([Tcp], Redirect(inPort))], p, unvisited);
    WalkTcpRule(t, Redirect(inPort), [], p, unvisited);
    assert [Rule([Tcp], Redirect(inPort))] + [] == [Rule([Tcp], Redirect(inPort))];
  }

  lemma WalkCapture(t: Table, ranges: seq<Cidr>, outPort: nat, p: Packet, unvisited: set<ChainName>)
    requires p.tcp
    ensures Walk(t, CaptureRules(ranges, outPort), p, unvisited) ==
            if Captured(ranges, p) then Redirected(outPort) else Back
  {
    var last := if ranges == [] then Redirect(outPort) else Return;
    WalkTcpRule(t, last, [], p, unvisited);
    assert [Rule([Tcp], last)] + [] == [Rule([Tcp], last)];
    WalkRanges(t, ranges, outPort, [Rule([Tcp], last)], p, unvisited);
  }

  lemma LocalhostIsOneAddress(p: Packet)
    ensures Covers(LOCALHOST, p.destination) <==> IsLocalhost(p)
  {
  }

  /** The three bypass rules: an unlisted loopback packet ends in the inbound chain. */
  lemma WalkBypass(t: Table, o: Options, rest: seq<Rule>, p: Packet, unvisited: set<ChainName>)
    requires p.tcp && o.inPort.Some? && o.uid.Some?
    requires ENVOY_IN in unvisited && ENVOY_IN in t && t[ENVOY_IN] == InboundRules(o.whitelist, o.inPort.value)
    ensures Walk(t, BypassRules(o.uid.value) + rest, p, unvisited) ==
            if p.outInterface == "lo" && !IsLocalhost(p) && !Whitelisted(o.whitelist, p)
            then Redirected(o.inPort.value)
            else if p.owner == o.uid || IsLocalhost(p) then Back
            else Walk(t, rest, p, unvisited)
  {
    LocalhostIsOneAddress(p);
    WalkInbound(t, o.whitelist, o.inPort.value, p, unvisited - {ENVOY_IN});
    var r0 := BypassRules(o.uid.value) + rest;
    var r1, r2, r3 := r0[1..], r0[2..], r0[3..];
    assert r1[1..] == r2 && r2[1..] == r3 == rest;
    assert r0[0].matches[0].Holds(p) <==> p.outInterface == "lo";
    assert r0[0].matches[1].Holds(p) <==> !IsLocalhost(p);
    assert r0[0].Applies(p) <==> p.outInterface == "lo" && !IsLocalhost(p);
    assert r1[0].matches[0].Holds(p) <==> p.owner == o.uid;
    assert r1[0].Applies(p) <==> p.owner == o.uid;
    assert r2[0].matches[0].Holds(p) <==> IsLocalhost(p);
    assert r2[0].Applies(p) <==> IsLocalhost(p);
    assert Walk(t, r2, p, unvisited) == if IsLocalhost(p) then Back else Walk(t, rest, p, unvisited);
    assert Walk(t, r1, p, unvisited) == if p.owner == o.uid then Back else Walk(t, r2, p, unvisited);
  }

  lemma {:induction false} WalkPast(t: Table, rules: seq<Rule>, rest: seq<Rule>, p: Packet, unvisited: set<ChainName>)
    requires NoneApplies(rules, p)
    ensures Walk(t, rules + rest, p, unvisited) == Walk(t, rest, p, unvisited)
  {
    if rules == [] {
      assert rules + rest == rest;
    } else {
      assert (rules + rest)[1..] == rules[1..] + rest;
      WalkPast(t, rules[1..], rest, p, unvisited);
    }
  }

  /** A chain that ends in an unconditional TCP jump, and whose other rules do not apply, does what that chain does. */
  lemma WalkTcpJump(t: Table, before: seq<Rule>, chain: ChainName, p: Packet, unvisited: set<ChainName>)
    requires chain in unvisited && chain in t && NoneApplies(before, p)
    ensures Walk(t, before + [Rule([Tcp], Jump(chain))], p, unvisited) ==
            if p.tcp then Walk(t, t[chain], p, unvisited - {chain}) else Back
  {
    WalkPast(t, before, [Rule([Tcp], Jump(chain))], p, unvisited);
    var rules := [Rule([Tcp], Jump(chain))];
    assert rules[0].matches[0].Holds(p) <==> p.tcp;
    assert rules[1..] == [];
  }

  // ----- the theorems

  /** Every inbound packet goes where the options say. */
  lemma InboundRouting(t: Table, o: Options, p: Packet)
    requires FreshFor(t, p) && Complete(o)
    ensures Run(t, o).0 == 0
    ensures Decide(Run(t, o).1, PREROUTING, p) == InboundSpec(o, p)
  {
    var built := Run(t, o).1;
    assert built[PREROUTING] == t[PREROUTING] + [Rule([Tcp], Jump(ENVOY_IN))];
    WalkTcpJump(built, t[PREROUTING], ENVOY_IN, p, built.Keys - {PREROUTING});
    if p.tcp {
      WalkInbound(built, o.whitelist, o.inPort.value, p, built.Keys - {PREROUTING} - {ENVOY_IN});
    }
  }

  /** Every locally generated packet goes where the options say. */
  lemma OutboundRouting(t: Table, o: Options, p: Packet)
    requires FreshFor(t, p) && Complete(o)
    ensures Decide(Run(t, o).1, OUTPUT, p) == OutboundSpec(o, p)
  {
    var built := Run(t, o).1;
    if o.outPort.Some? {
      assert built[OUTPUT] == t[OUTPUT] + [Rule([Tcp], Jump(ENVOY_OUT))];
      WalkTcpJump(built, t[OUTPUT], ENVOY_OUT, p, built.Keys - {OUTPUT});
      if p.tcp {
        var unvisited := built.Keys - {OUTPUT} - {ENVOY_OUT};
        WalkBypass(built, o, CaptureRules(o.ranges, o.outPort.value), p, unvisited);
        WalkCapture(built, o.ranges, o.outPort.value, p, unvisited);
      }
    } else {
      assert built[OUTPUT] + [] == built[OUTPUT];
      WalkPast(built, built[OUTPUT], [], p, built.Keys - {OUTPUT});
    }
  }

  /** Envoy's own traffic is redirected only on loopback, to another address, and never when it leaves the host. */
  lemma EnvoyIsNotLooped(t: Table, o: Options, p: Packet)
    requires FreshFor(t, p) && Complete(o) && p.owner == o.uid
    ensures Decide(Run(t, o).1, OUTPUT, p) != Accept <==>
            p.tcp && o.outPort.Some? && p.outInterface == "lo" && !IsLocalhost(p) && !Whitelisted(o.whitelist, p)
    ensures Decide(Run(t, o).1, OUTPUT, p) in {Accept, ToPort(o.inPort.value)}
  {
    OutboundRouting(t, o, p);
  }

  /** Order and repetition in the two lists do not matter. */
  lemma ListsAreSets(t: Table, o1: Options, o2: Options, p: Packet)
    requires FreshFor(t, p) && Complete(o1)
    requires o2 == o1.(whitelist := o2.whitelist, ranges := o2.ranges)
    requires forall port :: port in o1.whitelist <==> port in o2.whitelist
    requires forall range :: range in o1.ranges <==> range in o2.ranges
    ensures Decide(Run(t, o1).1, PREROUTING, p) == Decide(Run(t, o2).1, PREROUTING, p)
    ensures Decide(Run(t, o1).1, OUTPUT, p) == Decide(Run(t, o2).1, OUTPUT, p)
  {
    InboundRouting(t, o1, p);
    InboundRouting(t, o2, p);
    OutboundRouting(t, o1, p);
    OutboundRouting(t, o2, p);
    if o1.ranges != [] {
      assert o1.ranges[0] in o2.ranges;
    }
    if o2.ranges != [] {
      assert o2.ranges[0] in o1.ranges;
    }
  }

  /** Once the inbound chain exists no run, with whatever options, changes the table again. */
  lemma RerunChangesNothing(t: Table, o1: Options, o2: Options)
    requires BuiltInsExist(t)
    ensures BuiltInsExist(Run(t, o1).1)
    ensures ENVOY_IN in t || Complete(o1) ==> Run(Run(t, o1).1, o2).1 == Run(t, o1).1
    ensures ENVOY_IN in t || Complete(o1) ==> (Run(Run(t, o1).1, o2).0 == 0 <==> Complete(o2))
  {
    assert Complete(o1) ==> ENVOY_IN in Run(t, o1).1;
  }

  /**
   The script succeeds exactly with all of its required options, unless it would have to create an
   outbound chain that exists already.
   */
  lemma ExitCodeExactly(t: Table, o: Options)
    requires BuiltInsExist(t)
    ensures Run(t, o).0 == 0 <==> Complete(o) && (ENVOY_IN in t || o.outPort.None? || ENVOY_OUT !in t)
    ensures Run(t, o).0 in {0, 1}
  {
  }

  /** Whatever the options, it only adds: a built-in chain grows by one rule at most, other chains stay. */
  lemma OtherRulesStay(t: Table, o: Options)
    requires BuiltInsExist(t)
    ensures forall c :: c in t && c !in {PREROUTING, OUTPUT} ==> c in Run(t, o).1 && Run(t, o).1[c] == t[c]
    ensures forall c :: c in Run(t, o).1 && c !in {ENVOY_IN, ENVOY_OUT} ==> c in t
    ensures PREROUTING in Run(t, o).1 && t[PREROUTING] <= Run(t, o).1[PREROUTING]
    ensures |Run(t, o).1[PREROUTING]| <= |t[PREROUTING]| + 1
    ensures OUTPUT in Run(t, o).1 && t[OUTPUT] <= Run(t, o).1[OUTPUT] && |Run(t, o).1[OUTPUT]| <= |t[OUTPUT]| + 1
  {
  }

  // ----- ranges

  /** Bit k of a 32-bit address, counted from the most significant one. */
  function Bit(address: nat, k: nat): nat
    requires k < 32
  {
    ShiftRight(address, 31 - k) % 2
  }

  lemma {:induction false} ShiftHalves(n: nat, bits: nat)
    ensures ShiftRight(n, bits + 1) == ShiftRight(n, bits) / 2
  {
    if bits > 0 {
      ShiftHalves(n / 2, bits - 1);
    }
  }

  /** Coverage is agreement on the leading bits, for addresses of 32 bits. */
  lemma {:induction false} CoversMeansPrefix(c: Cidr, address: nat)
    requires c.prefix <= 32
    requires ShiftRight(address, 32) == 0 && ShiftRight(c.base, 32) == 0
    ensures Covers(c, address) <==> forall k :: 0 <= k < c.prefix ==> Bit(address, k) == Bit(c.base, k)
    decreases c.prefix
  {
    if c.prefix > 0 {
      var shorter := c.(prefix := c.prefix - 1);
      CoversMeansPrefix(shorter, address);
      ShiftHalves(address, 32 - c.prefix);
      ShiftHalves(c.base, 32 - c.prefix);
      var k := c.prefix - 1;
      assert Bit(address, k) == ShiftRight(address, 32 - c.prefix) % 2;
      assert Bit(c.base, k) == ShiftRight(c.base, 32 - c.prefix) % 2;
    }
  }
}
