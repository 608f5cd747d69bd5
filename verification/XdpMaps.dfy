// The BPF maps, the program that scans them for every packet, and the manager that rewrites them.
module XdpMaps {
  import opened Wrappers
  import opened CidrMask
  import opened XdpTables
  import opened XdpPacket

  datatype Verdict = XdpPass | XdpDrop

  // What the program does with a frame, over the contents of the maps.
  ghost function Decision(rules: seq<Rule>, ports: seq<int>, p: Parsed): Verdict {
    match p
    case PassUnfiltered => XdpPass
    case DropMalformed => XdpDrop
    case Filtered(src, port, _) =>
      if PortAllowed(ports, port) && SourceAllowed(rules, src, port) then XdpPass else XdpDrop
  }

  ghost function Counted(s: Stats, size: int, verdict: Verdict, p: Parsed): Stats {
    if p.Filtered? then Add(s, One(size, verdict == XdpPass, p.protocol, p.port)) else s
  }

  lemma CountedIsBalanced(s: Stats, size: int, verdict: Verdict, p: Parsed)
    requires Balanced(s)
    ensures Balanced(Counted(s, size, verdict, p))
  {
    hide Balanced, Add, One;
    if p.Filtered? {
      OneIsBalanced(size, verdict == XdpPass, p.protocol, p.port);
      AddKeepsBalance(s, One(size, verdict == XdpPass, p.protocol, p.port));
    }
  }

  class BpfMaps {
    const cidrRules: array<Rule>
    const allowedPorts: array<int>
    const perCpu: array<Stats>

    constructor (cpus: nat)
      ensures Sized() && perCpu.Length == cpus
      ensures fresh(cidrRules) && fresh(allowedPorts) && fresh(perCpu)
      ensures forall i :: 0 <= i < cpus ==> perCpu[i] == ZERO
    {
      cidrRules := new Rule[MAX_CIDR_RULES](_ => CLEARED);
      allowedPorts := new int[MAX_PORT_RULES](_ => 0);
      perCpu := new Stats[cpus](_ => ZERO);
    }

    predicate Sized() {
      cidrRules.Length == MAX_CIDR_RULES && allowedPorts.Length == MAX_PORT_RULES
    }

    // check_port_allowed
    method CheckPortAllowed(port: int) returns (allowed: bool)
      requires Sized()
      ensures allowed <==> PortAllowed(allowedPorts[..], port)
    {
      for i := 0 to allowedPorts.Length
        invariant forall j :: 0 <= j < i ==> allowedPorts[j] != 0 && allowedPorts[j] != port
      {
        if allowedPorts[i] == 0 {
          return false;
        }
        if allowedPorts[i] == port {
          assert allowedPorts[..][i] == port;
          return true;
        }
      }
      return false;
    }

    // The rule loop of xdp_filter_func.
    method CheckSourceAllowed(src: bv32, port: int) returns (allowed: bool)
      requires Sized()
      ensures allowed <==> SourceAllowed(cidrRules[..], src, port)
    {
      hide MaskedEqual;
      for i := 0 to cidrRules.Length
        invariant forall j :: 0 <= j < i ==> !Matches(cidrRules[j], src, port)
      {
        var rule := cidrRules[i];
        if rule.enabled && (rule.port == 0 || rule.port == port) {
          if MaskedEqual(src, rule.network, rule.mask) {
            assert Matches(cidrRules[..][i], src, port);
            return true;
          }
        }
      }
      return false;
    }

    // xdp_filter_func
    method Filter(order: ByteOrder, frame: seq<bv8>, cpu: nat) returns (verdict: Verdict)
      requires Sized() && cpu < perCpu.Length
      modifies perCpu
      ensures verdict == Decision(cidrRules[..], allowedPorts[..], Parse(order, frame))
      ensures perCpu[..] == old(perCpu[..])[cpu := Counted(old(perCpu[cpu]), |frame|, verdict, Parse(order, frame))]
      ensures old(Balanced(perCpu[cpu])) ==> Balanced(perCpu[cpu])
      ensures |frame| < 14 || !(frame[12] == 0x08 && frame[13] == 0x00) || |frame| < 34 ==>
        verdict == XdpPass && perCpu[..] == old(perCpu[..])
    {
      ParseByBytes(order, frame);
      if Balanced(perCpu[cpu]) {
        CountedIsBalanced(perCpu[cpu], |frame|, XdpPass, Parse(order, frame));
        CountedIsBalanced(perCpu[cpu], |frame|, XdpDrop, Parse(order, frame));
      }
      hide Balanced, Parse, Add, One, PortAllowed, SourceAllowed;
      match Parse(order, frame) {
        case PassUnfiltered =>
          return XdpPass;
        case DropMalformed =>
          return XdpDrop;
        case Filtered(src, port, protocol) =>
          var allowed := CheckPortAllowed(port);
          if allowed {
            allowed := CheckSourceAllowed(src, port);
          }
          perCpu[cpu] := Add(perCpu[cpu], One(|frame|, allowed, protocol, port));
          return if allowed then XdpPass else XdpDrop;
      }
    }

    // get_statistics: the totals over the processors.
    method GetStatistics() returns (total: Stats)
      ensures total == Sum(perCpu[..])
      ensures (forall i :: 0 <= i < perCpu.Length ==> Balanced(perCpu[i])) ==> Balanced(total)
    {
      hide Add;
      total := ZERO;
      for i := 0 to perCpu.Length
        invariant total == Sum(perCpu[..i])
      {
        assert perCpu[..i + 1][..i] == perCpu[..i];
        total := Add(total, perCpu[i]);
      }
      assert perCpu[..perCpu.Length] == perCpu[..];
      if forall i :: 0 <= i < perCpu.Length ==> Balanced(perCpu[i]) {
        SumIsBalanced(perCpu[..]);
      }
    }
  }

  class XdpFilterManager {
    const available: bool
    var maps: BpfMaps?

    constructor (available: bool)
      ensures this.available == available && maps == null
    {
      this.available := available;
      maps := null;
    }

    predicate Loaded()
      reads this
    {
      available && maps != null && maps.Sized()
    }

    // update_cidr_rules: clear every slot, then write the valid entries in place.
    method UpdateCidrRules(rules: seq<RuleData>) returns (ok: bool)
      requires maps != null ==> maps.Sized()
      modifies if maps != null then {maps.cidrRules} else {}
      ensures ok <==> Loaded()
      ensures Loaded() ==> maps.cidrRules[..] == CompiledRules(rules)
      ensures !Loaded() && maps != null ==> maps.cidrRules[..] == old(maps.cidrRules[..])
    {
      if !available || maps == null {
        return false;
      }
      hide NetworkOf, PrefixMask;
      var table := maps.cidrRules;
      for i := 0 to MAX_CIDR_RULES
        invariant forall j :: 0 <= j < i ==> table[j] == CLEARED
      {
        table[i] := CLEARED;
      }
      for i := 0 to Min(MAX_CIDR_RULES, |rules|)
        invariant forall j :: 0 <= j < i ==> table[j] == CompiledRule(rules, j)
        invariant forall j :: i <= j < MAX_CIDR_RULES ==> table[j] == CLEARED
      {
        if rules[i].RuleData? {
          table[i] := Rule(NetworkOf(rules[i].address, rules[i].prefix), PrefixMask(rules[i].prefix),
                           Low16(rules[i].port), rules[i].enabled);
        }
      }
      return true;
    }

    // update_allowed_ports: an entry that is no port ends the update, after the table was cleared.
    method UpdateAllowedPorts(ports: seq<PortData>) returns (ok: bool)
      requires maps != null ==> maps.Sized()
      modifies if maps != null then {maps.allowedPorts} else {}
      ensures ok <==> Loaded() && PortsWritten(ports) == Min(MAX_PORT_RULES, |ports|)
      ensures Loaded() ==> maps.allowedPorts[..] == CompiledPorts(ports)
      ensures !Loaded() && maps != null ==> maps.allowedPorts[..] == old(maps.allowedPorts[..])
    {
      if !available || maps == null {
        return false;
      }
      var table := maps.allowedPorts;
      for i := 0 to MAX_PORT_RULES
        invariant forall j :: 0 <= j < i ==> table[j] == 0
      {
        table[i] := 0;
      }
      for i := 0 to Min(MAX_PORT_RULES, |ports|)
        invariant i <= PortsWritten(ports)
        invariant forall j :: 0 <= j < i ==> table[j] == CompiledPort(ports, j)
        invariant forall j :: i <= j < MAX_PORT_RULES ==> table[j] == 0
      {
        if ports[i].NotAPort? {
          assert i == PortsWritten(ports);
          return false;
        }
        table[i] := Low16(ports[i].value);
      }
      return true;
    }

    // reload_config: the outcomes of the two updates are ignored.
    method ReloadConfig(rules: seq<RuleData>, ports: seq<PortData>) returns (ok: bool)
      requires maps != null ==> maps.Sized()
      modifies if maps != null then {maps.cidrRules, maps.allowedPorts} else {}
      ensures ok == available
      ensures Loaded() ==> maps.cidrRules[..] == CompiledRules(rules) && maps.allowedPorts[..] == CompiledPorts(ports)
    {
      if !available {
        return false;
      }
      var _ := UpdateCidrRules(rules);
      var _ := UpdateAllowedPorts(ports);
      return true;
    }
  }

  // The program on compiled tables, frame by frame, decides what the configuration says about the address it loads.
  lemma FilterRefinesConfig(rules: seq<RuleData>, ports: seq<PortData>, order: ByteOrder, frame: seq<bv8>)
    requires Parse(order, frame).Filtered?
    ensures var p := Parse(order, frame);
      Decision(CompiledRules(rules), CompiledPorts(ports), p) == XdpPass
      <==> PortListed(ports, p.port) && RuleListed(rules, p.src, p.port)
  {
    hide Parse, CompiledRules, CompiledPorts;
    PortsRefine(ports, Parse(order, frame).port);
    RulesRefine(rules, Parse(order, frame).src, Parse(order, frame).port);
  }

  // A well-formed TCP or UDP packet, whatever its options, passes on a big-endian machine exactly when its port is
  // listed and its source address is covered.
  lemma PacketPasses(rules: seq<RuleData>, ports: seq<PortData>, p: Packet, src: bv32)
    requires WellFormed(p) && ((p.protocol == 6 && |p.rest| >= 16) || (p.protocol == 17 && |p.rest| >= 4))
    requires HasBytes(src, p.a, p.b, p.c, p.d)
    ensures var port := 256 * (p.high as int) + (p.low as int);
      Decision(CompiledRules(rules), CompiledPorts(ports), Parse(BigEndian, Frame(p))) == XdpPass
      <==> PortListed(ports, port) && RuleListed(rules, src, port)
  {
    hide HasBytes, Combine, Parse, CompiledRules, CompiledPorts, PortListed, RuleListed, Decision, WellFormed, Frame;
    WordOfBytes(src, p.a, p.b, p.c, p.d);
    ParseFindsFields(BigEndian, p);
    FilterRefinesConfig(rules, ports, BigEndian, Frame(p));
  }

  // The program gives this verdict on a frame, and leaves the counters as they are.
  ghost predicate Treats(rules: seq<Rule>, ports: seq<int>, s: Stats, order: ByteOrder, frame: seq<bv8>,
      verdict: Verdict)
  {
    var p := Parse(order, frame);
    Decision(rules, ports, p) == verdict && Counted(s, |frame|, verdict, p) == s
  }

  // It does so whatever is in the maps.
  ghost predicate AlwaysTreats(order: ByteOrder, frame: seq<bv8>, verdict: Verdict) {
    forall rules, ports, s :: Treats(rules, ports, s, order, frame, verdict)
  }

  lemma AlwaysTreatsUnfiltered(order: ByteOrder, frame: seq<bv8>, verdict: Verdict)
    ensures AlwaysTreats(order, frame, verdict)
      <==> Parse(order, frame) == if verdict == XdpPass then PassUnfiltered else DropMalformed
  {
    hide Parse;
    assert AlwaysTreats(order, frame, verdict) ==> Treats([], [], ZERO, order, frame, verdict);
  }

  // By its bytes: the program passes a frame unseen exactly when it is too short, no IPv4 packet, or of another
  // protocol than TCP (6) and UDP (17);
  lemma UnseenExactly(order: ByteOrder, frame: seq<bv8>)
    ensures AlwaysTreats(order, frame, XdpPass) <==>
      || |frame| < 14 || !(frame[12] == 0x08 && frame[13] == 0x00) || |frame| < 34
      || ((frame[14] & 0x0F) as int >= 5 && frame[23] != 6 && frame[23] != 17)
  {
    AlwaysTreatsUnfiltered(order, frame, XdpPass);
    ParseByBytes(order, frame);
    hide Parse, AlwaysTreats;
  }

  // and drops it unseen exactly when its header length or its transport header is impossible.
  lemma MalformedExactly(order: ByteOrder, frame: seq<bv8>)
    ensures AlwaysTreats(order, frame, XdpDrop) <==>
      && |frame| >= 34 && frame[12] == 0x08 && frame[13] == 0x00
      && (var ihl := (frame[14] & 0x0F) as int;
          || ihl < 5 || (frame[23] == 6 && |frame| < 14 + 4 * ihl + 20)
          || (frame[23] == 17 && |frame| < 14 + 4 * ihl + 8))
  {
    AlwaysTreatsUnfiltered(order, frame, XdpDrop);
    ParseByBytes(order, frame);
    hide Parse, AlwaysTreats;
  }
}
