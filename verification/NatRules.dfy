/**
 The nat table that proxy_init/proxy_init.sh builds, and how the kernel walks it. Only the matches
 and targets the script uses are modelled.
 */
module NatRules {
  import opened Outcomes

  /** The chains by name; `Other` is any chain the script does not mention. */
  datatype ChainName = PREROUTING | OUTPUT | ENVOY_IN | ENVOY_OUT | Other(name: string)

  datatype CtState = New | Established | Related | Invalid | Untracked

  /** An IPv4 range in CIDR form; the address is one 32-bit number. */
  datatype Cidr = Cidr(base: nat, prefix: nat)

  const LOCALHOST := Cidr(0x7f00_0001, 32)

  function ShiftRight(n: nat, bits: nat): nat {
    if bits == 0 then n else ShiftRight(n / 2, bits - 1)
  }

  /** The two addresses agree on the first `prefix` of their 32 bits (section 3.1 of RFC 4632). */
  predicate Covers(c: Cidr, address: nat) {
    c.prefix <= 32 && ShiftRight(address, 32 - c.prefix) == ShiftRight(c.base, 32 - c.prefix)
  }

  datatype Packet = Packet(
    tcp: bool,
    dport: nat,
    state: CtState,
    outInterface: string,
    owner: Option<nat>,
    destination: nat
  )

  datatype Match =
    | Tcp
    | DestinationPort(port: nat)
    | CtStateIn(states: set<CtState>)
    | OutInterface(name: string)
    | Owner(uid: nat)
    | Destination(range: Cidr)
    | NotDestination(range: Cidr)
  {
    predicate Holds(p: Packet) {
      match this
      case Tcp => p.tcp
      case DestinationPort(port) => p.dport == port
      case CtStateIn(states) => p.state in states
      case OutInterface(name) => p.outInterface == name
      case Owner(uid) => p.owner == Some(uid)
      case Destination(range) => Covers(range, p.destination)
      case NotDestination(range) => !Covers(range, p.destination)
    }
  }

  datatype Target = Jump(chain: ChainName) | Return | Redirect(port: nat)

  datatype Rule = Rule(matches: seq<Match>, target: Target) {
    predicate Applies(p: Packet) {
      forall i | 0 <= i < |matches| :: matches[i].Holds(p)
    }
  }

  type Table = map<ChainName, seq<Rule>>

  /**
   What a list of rules does with a packet. `Back` is falling off the end or RETURN; `Stuck` is a
   jump to a missing chain or to one that is already being walked, which the kernel never loads.
   */
  datatype Outcome = Back | Redirected(port: nat) | Stuck

  function Walk(t: Table, rules: seq<Rule>, p: Packet, unvisited: set<ChainName>): Outcome
    decreases unvisited, |rules|
  {
    if rules == [] then Back
    else if !rules[0].Applies(p) then Walk(t, rules[1..], p, unvisited)
    else
      match rules[0].target
      case Return => Back
      case Redirect(port) => Redirected(port)
      case Jump(chain) =>
        if chain !in unvisited || chain !in t then Stuck
        else
          match Walk(t, t[chain], p, unvisited - {chain})
          case Back => Walk(t, rules[1..], p, unvisited)
          case Redirected(port) => Redirected(port)
          case Stuck => Stuck
  }

  datatype Verdict = Accept | ToPort(port: nat) | Rejected

  /** A built-in chain accepts what comes back to it (its policy). */
  function Decide(t: Table, builtIn: ChainName, p: Packet): Verdict
    requires builtIn in t
  {
    match Walk(t, t[builtIn], p, t.Keys - {builtIn})
    case Back => Accept
    case Redirected(port) => ToPort(port)
    case Stuck => Rejected
  }

  /** The script's options; None is an option that was not given or was empty. */
  datatype Options = Options(
    inPort: Option<nat>,
    outPort: Option<nat>,
    uid: Option<nat>,
    ranges: seq<Cidr>,
    whitelist: seq<nat>
  )

  // ----- the rules, as lists

  function WhitelistRule(port: nat): Rule {
    Rule([Tcp, DestinationPort(port), CtStateIn({New, Established})], Return)
  }

  function WhitelistRules(ports: seq<nat>): seq<Rule> {
    seq(|ports|, i requires 0 <= i < |ports| => WhitelistRule(ports[i]))
  }

  function InboundRules(ports: seq<nat>, inPort: nat): seq<Rule> {
    WhitelistRules(ports) + [Rule([Tcp], Redirect(inPort))]
  }

  function RangeRule(range: Cidr, outPort: nat): Rule {
    Rule([Destination(range), Tcp], Redirect(outPort))
  }

  function RangeRules(ranges: seq<Cidr>, outPort: nat): seq<Rule> {
    seq(|ranges|, i requires 0 <= i < |ranges| => RangeRule(ranges[i], outPort))
  }

  function CaptureRules(ranges: seq<Cidr>, outPort: nat): seq<Rule> {
    if ranges == [] then [Rule([Tcp], Redirect(outPort))]
    else RangeRules(ranges, outPort) + [Rule([Tcp], Return)]
  }

  function BypassRules(uid: nat): seq<Rule> {
    [Rule([OutInterface("lo"), NotDestination(LOCALHOST)], Jump(ENVOY_IN)),
     Rule([Owner(uid)], Return),
     Rule([Destination(LOCALHOST)], Return)]
  }

  function OutboundRules(uid: nat, ranges: seq<Cidr>, outPort: nat): seq<Rule> {
    BypassRules(uid) + CaptureRules(ranges, outPort)
  }

  predicate BuiltInsExist(t: Table) {
    PREROUTING in t && OUTPUT in t
  }

  function WithInbound(t: Table, o: Options): Table
    requires BuiltInsExist(t) && o.inPort.Some?
  {
    t[ENVOY_IN := InboundRules(o.whitelist, o.inPort.value)]
     [PREROUTING := t[PREROUTING] + [Rule([Tcp], Jump(ENVOY_IN))]]
  }

  function WithOutbound(t: Table, o: Options): Table
    requires BuiltInsExist(t) && o.uid.Some? && o.outPort.Some?
  {
    t[OUTPUT := t[OUTPUT] + [Rule([Tcp], Jump(ENVOY_OUT))]]
     [ENVOY_OUT := OutboundRules(o.uid.value, o.ranges, o.outPort.value)]
  }

  /** The exit code of the script, and the table it leaves. */
  function Run(t: Table, o: Options): (int, Table)
    requires BuiltInsExist(t)
  {
    if o.inPort.None? || o.uid.None? then (1, t)
    else if ENVOY_IN in t then (0, t)
    else if o.outPort.None? then (0, WithInbound(t, o))
    else if ENVOY_OUT in t then (1, WithInbound(t, o))
    else (0, WithOutbound(WithInbound(t, o), o))
  }

  // ----- the script

  /** The nat table as the iptables commands change it. */
  class NatTable {
    var chains: Table

    constructor (t: Table)
      ensures chains == t
    {
      chains := t;
    }

    /** `iptables -t nat -L name`. */
    method List(name: ChainName) returns (ok: bool)
      ensures ok <==> name in chains
    {
      ok := name in chains;
    }

    /** `iptables -t nat -N name`: fails if the chain exists. */
    method NewChain(name: ChainName) returns (ok: bool)
      modifies this
      ensures ok <==> name !in old(chains)
      ensures chains == if ok then old(chains)[name := []] else old(chains)
    {
      ok := name !in chains;
      if ok {
        chains := chains[name := []];
      }
    }

    /** `iptables -t nat -A name rule`. */
    method Append(name: ChainName, rule: Rule)
      requires name in chains
      modifies this
      ensures name in old(chains) && chains == old(chains)[name := old(chains)[name] + [rule]]
    {
      chains := chains[name := chains[name] + [rule]];
    }
  }

  /** The script; the result is its exit code. */
  method ProxyInit(table: NatTable, o: Options) returns (exit: int)
    requires BuiltInsExist(table.chains)
    modifies table
    ensures (exit, table.chains) == Run(old(table.chains), o)
  {
    if o.inPort.None? || o.uid.None? {
      return 1;
    }
    var found := table.List(ENVOY_IN);
    if found {
      return 0;
    }
    var created := table.NewChain(ENVOY_IN);

    ghost var before := table.chains;
    assert WhitelistRules(o.whitelist[..0]) == [];
    assert before == before[ENVOY_IN := []];
    for i := 0 to |o.whitelist|
      invariant table.chains == before[ENVOY_IN := WhitelistRules(o.whitelist[..i])]
    {
      table.Append(ENVOY_IN, WhitelistRule(o.whitelist[i]));
      assert WhitelistRules(o.whitelist[..i + 1]) ==
             WhitelistRules(o.whitelist[..i]) + [WhitelistRule(o.whitelist[i])];
    }
    assert o.whitelist[..|o.whitelist|] == o.whitelist;
    table.Append(ENVOY_IN, Rule([Tcp], Redirect(o.inPort.value)));
    table.Append(PREROUTING, Rule([Tcp], Jump(ENVOY_IN)));
    assert table.chains[ENVOY_IN] == InboundRules(o.whitelist, o.inPort.value);
    assert table.chains == WithInbound(old(table.chains), o);

    if o.outPort.Some? {
      created := table.NewChain(ENVOY_OUT);
      if !created {
        return 1;
      }
      AppendOutbound(table, o);
      ghost var inbound := WithInbound(old(table.chains), o);
      assert WithOutbound(inbound[ENVOY_OUT := []], o) == WithOutbound(inbound, o);
    }
    return 0;
  }

  /** The outbound half of the script, from the OUTPUT jump on. */
  method AppendOutbound(table: NatTable, o: Options)
    requires BuiltInsExist(table.chains) && ENVOY_OUT in table.chains && table.chains[ENVOY_OUT] == []
    requires o.uid.Some? && o.outPort.Some?
    modifies table
    ensures BuiltInsExist(old(table.chains)) && table.chains == WithOutbound(old(table.chains), o)
  {
    table.Append(OUTPUT, Rule([Tcp], Jump(ENVOY_OUT)));
    ghost var before := table.chains;
    table.Append(ENVOY_OUT, Rule([OutInterface("lo"), NotDestination(LOCALHOST)], Jump(ENVOY_IN)));
    table.Append(ENVOY_OUT, Rule([Owner(o.uid.value)], Return));
    table.Append(ENVOY_OUT, Rule([Destination(LOCALHOST)], Return));
    assert table.chains[ENVOY_OUT] == BypassRules(o.uid.value);
    assert table.chains == before[ENVOY_OUT := BypassRules(o.uid.value)];
    if o.ranges != [] {
      assert BypassRules(o.uid.value) + RangeRules(o.ranges[..0], o.outPort.value) == BypassRules(o.uid.value);
      for i := 0 to |o.ranges|
        invariant table.chains ==
                  before[ENVOY_OUT := BypassRules(o.uid.value) + RangeRules(o.ranges[..i], o.outPort.value)]
      {
        table.Append(ENVOY_OUT, RangeRule(o.ranges[i], o.outPort.value));
        assert RangeRules(o.ranges[..i + 1], o.outPort.value) ==
               RangeRules(o.ranges[..i], o.outPort.value) + [RangeRule(o.ranges[i], o.outPort.value)];
        assert table.chains[ENVOY_OUT] ==
               BypassRules(o.uid.value) + RangeRules(o.ranges[..i + 1], o.outPort.value);
      }
      assert o.ranges[..|o.ranges|] == o.ranges;
      table.Append(ENVOY_OUT, Rule([Tcp], Return));
      assert table.chains[ENVOY_OUT] == OutboundRules(o.uid.value, o.ranges, o.outPort.value);
    } else {
      table.Append(ENVOY_OUT, Rule([Tcp], Redirect(o.outPort.value)));
    }
  }
}
