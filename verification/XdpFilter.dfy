// The packet filter and the manager that compiles its tables.
module XdpTables {
  import opened Wrappers
  import opened CidrMask

  const MAX_CIDR_RULES: nat := 1024
  const MAX_PORT_RULES: nat := 64

  // A slot of the cidr_rules map.
  datatype Rule = Rule(network: bv32, mask: bv32, port: int, enabled: bool)

  const CLEARED := Rule(0, 0, 0, false)

  // An entry of the configured rule list; Invalid is one whose conversion raises.
  datatype RuleData = Invalid | RuleData(address: bv32, prefix: Prefix, port: int, enabled: bool)

  // An entry of the configured port list; converting NotAPort raises and ends the update.
  datatype PortData = NotAPort | Port(value: int)

  // ctypes.c_uint16 keeps the low 16 bits.
  function Low16(value: int): int {
    value % 65536
  }

  // ---------------------------------------------------------------- what the filter decides

  // check_port_allowed stops at the first empty slot.
  ghost predicate PortAllowed(ports: seq<int>, port: int) {
    exists i :: 0 <= i < |ports| && ports[i] == port && forall j :: 0 <= j <= i ==> ports[j] != 0
  }

  predicate Matches(rule: Rule, src: bv32, port: int) {
    rule.enabled && (rule.port == 0 || rule.port == port) && MaskedEqual(src, rule.network, rule.mask)
  }

  ghost predicate SourceAllowed(rules: seq<Rule>, src: bv32, port: int) {
    exists i :: 0 <= i < |rules| && Matches(rules[i], src, port)
  }

  // ---------------------------------------------------------------- what the manager compiles

  function Compile(data: RuleData): Rule {
    match data
    case Invalid => CLEARED
    case RuleData(address, prefix, port, enabled) =>
      Rule(NetworkOf(address, prefix), PrefixMask(prefix), Low16(port), enabled)
  }

  function CompiledRule(rules: seq<RuleData>, i: nat): Rule {
    if i < |rules| then Compile(rules[i]) else CLEARED
  }

  // The ports written before the first entry that is not a port, at most 64.
  function PortsWritten(ports: seq<PortData>): (n: nat)
    ensures n <= |ports| && n <= MAX_PORT_RULES
    ensures forall i :: 0 <= i < n ==> ports[i].Port?
    ensures n < |ports| && n < MAX_PORT_RULES ==> ports[n].NotAPort?
  {
    WrittenFrom(ports, 0)
  }

  function WrittenFrom(ports: seq<PortData>, i: nat): (n: nat)
    requires i <= |ports| && i <= MAX_PORT_RULES
    ensures i <= n <= |ports| && n <= MAX_PORT_RULES
    ensures forall j :: i <= j < n ==> ports[j].Port?
    ensures n < |ports| && n < MAX_PORT_RULES ==> ports[n].NotAPort?
    decreases |ports| - i
  {
    if i < |ports| && i < MAX_PORT_RULES && ports[i].Port? then WrittenFrom(ports, i + 1) else i
  }

  function CompiledPort(ports: seq<PortData>, i: nat): int {
    if i < PortsWritten(ports) then Low16(ports[i].value) else 0
  }

  function CompiledRules(rules: seq<RuleData>): (r: seq<Rule>)
    ensures |r| == MAX_CIDR_RULES && forall i :: 0 <= i < MAX_CIDR_RULES ==> r[i] == CompiledRule(rules, i)
  {
    seq(MAX_CIDR_RULES, i requires 0 <= i < MAX_CIDR_RULES => CompiledRule(rules, i))
  }

  function CompiledPorts(ports: seq<PortData>): (r: seq<int>)
    ensures |r| == MAX_PORT_RULES && forall i :: 0 <= i < MAX_PORT_RULES ==> r[i] == CompiledPort(ports, i)
  {
    seq(MAX_PORT_RULES, i requires 0 <= i < MAX_PORT_RULES => CompiledPort(ports, i))
  }

  // ---------------------------------------------------------------- what the configuration means

  // A port is listed if it is among the first 64 entries and neither a zero nor an invalid entry comes before it.
  ghost predicate PortListed(ports: seq<PortData>, port: int) {
    exists i :: 0 <= i < |ports| && i < 64 && ports[i].Port? && ports[i].value % 65536 == port
      && forall j :: 0 <= j <= i ==> ports[j].Port? && ports[j].value % 65536 != 0
  }

  // A rule covers a source if it is valid and enabled, its port is any or this one, and the source agrees with its
  // address in the first bits, as many as the prefix says.
  ghost predicate Covers(data: RuleData, src: bv32, port: int) {
    && data.RuleData? && data.enabled
    && (data.port % 65536 == 0 || data.port % 65536 == port)
    && SamePrefix(src, data.address, data.prefix)
  }

  ghost predicate RuleListed(rules: seq<RuleData>, src: bv32, port: int) {
    exists i :: 0 <= i < |rules| && i < 1024 && Covers(rules[i], src, port)
  }

  lemma CompiledMatches(data: RuleData, src: bv32, port: int)
    ensures Matches(Compile(data), src, port) <==> Covers(data, src, port)
  {
    hide MaskedEqual, NetworkOf, PrefixMask, SamePrefix;
    if data.RuleData? {
      MaskIsPrefix(src, data.address, data.prefix);
    }
  }

  // The filter on the compiled ports decides exactly what the port list says.
  lemma PortsRefine(ports: seq<PortData>, port: int)
    ensures PortAllowed(CompiledPorts(ports), port) <==> PortListed(ports, port)
  {
    var table := CompiledPorts(ports);
    if PortAllowed(table, port) {
      var i :| 0 <= i < |table| && table[i] == port && forall j :: 0 <= j <= i ==> table[j] != 0;
      assert i < PortsWritten(ports);
      assert forall j :: 0 <= j <= i ==> table[j] == Low16(ports[j].value);
    }
    if PortListed(ports, port) {
      var i :| 0 <= i < |ports| && i < 64 && ports[i].Port? && ports[i].value % 65536 == port
        && forall j :: 0 <= j <= i ==> ports[j].Port? && ports[j].value % 65536 != 0;
      assert i < PortsWritten(ports);
      assert forall j :: 0 <= j <= i ==> table[j] == Low16(ports[j].value);
    }
  }

  // The filter on the compiled rules decides exactly what the rule list says; invalid rules leave harmless holes.
  lemma RulesRefine(rules: seq<RuleData>, src: bv32, port: int)
    ensures SourceAllowed(CompiledRules(rules), src, port) <==> RuleListed(rules, src, port)
  {
    hide MaskedEqual, NetworkOf, PrefixMask, InBlock, Compile, Matches, Covers;
    var table := CompiledRules(rules);
    forall i | 0 <= i < MAX_CIDR_RULES
      ensures Matches(table[i], src, port) <==> i < |rules| && Covers(rules[i], src, port)
    {
      if i < |rules| {
        CompiledMatches(rules[i], src, port);
      } else {
        ClearedNeverMatches(src, port);
      }
    }
  }

  lemma ClearedNeverMatches(src: bv32, port: int)
    ensures !Matches(CLEARED, src, port)
  {
  }
}

// The packet as the program reads it, and the counters it keeps.
module XdpPacket {
  import opened CidrMask

  const ETH_HEADER: nat := 14
  const IP_HEADER: nat := 20

  datatype Protocol = Tcp | Udp

  // What parsing a frame comes to: it is passed or dropped unseen, or it goes to the tables.
  datatype Parsed = PassUnfiltered | DropMalformed | Filtered(src: bv32, port: int, protocol: Protocol)

  function Combine(a: bv8, b: bv8, c: bv8, d: bv8): bv32 {
    (a as bv32 << 24) | (b as bv32 << 16) | (c as bv32 << 8) | (d as bv32)
  }

  // The program loads the four address bytes as one word, in the byte order of the machine.
  function LoadWord(order: ByteOrder, a: bv8, b: bv8, c: bv8, d: bv8): bv32 {
    if order == BigEndian then Combine(a, b, c, d) else Combine(d, c, b, a)
  }

  // The header length in bytes: the low half of the first byte counts 32-bit words (section 3.1 of RFC 791).
  function HeaderWords(frame: seq<bv8>): int
    requires |frame| > ETH_HEADER
  {
    (frame[ETH_HEADER] & 0x0F) as int
  }

  function BigEndian16(a: bv8, b: bv8): int {
    256 * (a as int) + (b as int)
  }

  function Parse(order: ByteOrder, frame: seq<bv8>): Parsed {
    if |frame| < ETH_HEADER || frame[12] != 8 || frame[13] != 0 then PassUnfiltered
    else if |frame| < ETH_HEADER + IP_HEADER then PassUnfiltered
    else if HeaderWords(frame) < 5 then DropMalformed
    else
      var src := LoadWord(order, frame[26], frame[27], frame[28], frame[29]);
      var transport := ETH_HEADER + HeaderWords(frame) * 4;
      if frame[23] == 6 then
        if |frame| < transport + 20 then DropMalformed
        else Filtered(src, BigEndian16(frame[transport + 2], frame[transport + 3]), Tcp)
      else if frame[23] == 17 then
        if |frame| < transport + 8 then DropMalformed
        else Filtered(src, BigEndian16(frame[transport + 2], frame[transport + 3]), Udp)
      else PassUnfiltered
  }

  // An IPv4 packet in an Ethernet frame, field by field. rest is what follows the two ports.
  datatype Packet = Packet(
    macs: seq<bv8>, words: bv8, middle: seq<bv8>, protocol: bv8, checksum: seq<bv8>,
    a: bv8, b: bv8, c: bv8, d: bv8, destination: seq<bv8>, options: seq<bv8>,
    sourcePort: seq<bv8>, high: bv8, low: bv8, rest: seq<bv8>)

  // The lengths are those of the formats; the header has as many options as its length says.
  predicate WellFormed(p: Packet) {
    && |p.macs| == 12 && 5 <= p.words <= 15 && |p.middle| == 8 && |p.checksum| == 2 && |p.destination| == 4
    && |p.options| == 4 * (p.words as int) - 20 && |p.sourcePort| == 2
  }

  function Header(p: Packet): seq<bv8> {
    p.macs + [8, 0] + [0x40 | p.words] + p.middle + [p.protocol] + p.checksum + [p.a, p.b, p.c, p.d] + p.destination
  }

  function Frame(p: Packet): seq<bv8> {
    Header(p) + p.options + p.sourcePort + [p.high, p.low] + p.rest
  }

  lemma HeaderFields(p: Packet)
    requires WellFormed(p)
    ensures |Header(p)| == 34 && Header(p)[12] == 8 && Header(p)[13] == 0 && Header(p)[14] == 0x40 | p.words
    ensures Header(p)[23] == p.protocol
    ensures Header(p)[26] == p.a && Header(p)[27] == p.b && Header(p)[28] == p.c && Header(p)[29] == p.d
  {
  }

  lemma LowHalf(words: bv8)
    requires words <= 15
    ensures (0x40 | words) & 0x0F == words
  {
  }

  lemma FrameFields(p: Packet)
    requires WellFormed(p)
    ensures var frame, transport := Frame(p), 14 + 4 * (p.words as int);
      && |frame| == transport + 4 + |p.rest| && transport >= 34
      && frame[12] == 8 && frame[13] == 0 && HeaderWords(frame) == p.words as int && frame[23] == p.protocol
      && frame[26] == p.a && frame[27] == p.b && frame[28] == p.c && frame[29] == p.d
      && frame[transport + 2] == p.high && frame[transport + 3] == p.low
  {
    HeaderFields(p);
    LowHalf(p.words);
    var frame, h := Frame(p), Header(p);
    hide Header;
    assert forall i :: 0 <= i < 34 ==> frame[i] == h[i];
  }

  // Parsing finds the fields of a well-formed packet wherever its options put them.
  lemma ParseFindsFields(order: ByteOrder, p: Packet)
    requires WellFormed(p) && (p.protocol == 6 ==> |p.rest| >= 16) && (p.protocol == 17 ==> |p.rest| >= 4)
    ensures Parse(order, Frame(p)) ==
      if p.protocol == 6 then Filtered(LoadWord(order, p.a, p.b, p.c, p.d), BigEndian16(p.high, p.low), Tcp)
      else if p.protocol == 17 then Filtered(LoadWord(order, p.a, p.b, p.c, p.d), BigEndian16(p.high, p.low), Udp)
      else PassUnfiltered
  {
    hide LoadWord, BigEndian16, Frame, WellFormed;
    FrameFields(p);
  }

  // What becomes of a frame, by its bytes: it is passed unseen if it is too short, no IPv4 packet, or of a
  // protocol other than TCP (6) and UDP (17); it is dropped if its header length or its transport header is
  // impossible.
  lemma ParseByBytes(order: ByteOrder, frame: seq<bv8>)
    ensures Parse(order, frame) == PassUnfiltered <==>
      || |frame| < 14 || !(frame[12] == 0x08 && frame[13] == 0x00) || |frame| < 34
      || ((frame[14] & 0x0F) as int >= 5 && frame[23] != 6 && frame[23] != 17)
    ensures Parse(order, frame) == DropMalformed <==>
      && |frame| >= 34 && frame[12] == 0x08 && frame[13] == 0x00
      && (var ihl := (frame[14] & 0x0F) as int;
          || ihl < 5 || (frame[23] == 6 && |frame| < 14 + 4 * ihl + 20)
          || (frame[23] == 17 && |frame| < 14 + 4 * ihl + 8))
    ensures Parse(order, frame).Filtered? ==>
      && |frame| >= 34
      && (var ports, p := 14 + 4 * ((frame[14] & 0x0F) as int), Parse(order, frame);
          && ports + 4 <= |frame| && p.src == LoadWord(order, frame[26], frame[27], frame[28], frame[29])
          && p.port == 256 * (frame[ports + 2] as int) + (frame[ports + 3] as int)
          && p.protocol == if frame[23] == 6 then Tcp else Udp)
  {
    hide LoadWord;
  }

  // A word is put together from its bytes, the highest first.
  lemma WordFromBytes(word: bv32)
    ensures word == ((word >> 24) << 24) | (((word >> 16) & 0xFF) << 16) | (((word >> 8) & 0xFF) << 8) | (word & 0xFF)
  {
  }

  // The word with these bytes in network order.
  predicate HasBytes(word: bv32, a: bv8, b: bv8, c: bv8, d: bv8) {
    && word >> 24 == a as bv32 && (word >> 16) & 0xFF == b as bv32
    && (word >> 8) & 0xFF == c as bv32 && word & 0xFF == d as bv32
  }

  lemma WordOfBytes(word: bv32, a: bv8, b: bv8, c: bv8, d: bv8)
    requires HasBytes(word, a, b, c, d)
    ensures word == Combine(a, b, c, d)
  {
    WordFromBytes(word);
  }

  lemma CombineIsInjective(a: bv8, b: bv8, c: bv8, d: bv8)
    ensures Combine(d, c, b, a) == Combine(a, b, c, d) <==> a == d && b == c
  {
  }

  lemma FullPrefix(x: bv32, y: bv32)
    ensures PrefixMask(32) == 0xFFFF_FFFF && LastOffset(32) == 0
    ensures NetworkOf(y, 32) == y && (MaskedEqual(x, y, 0xFFFF_FFFF) <==> x == y)
  {
  }

  // The manager stores addresses as numbers and the program compares them with the word it loads. The two mean
  // the same address, for every block, exactly on a big-endian machine or for an address that reads the same backwards.
  lemma ByteOrderAgrees(order: ByteOrder, a: bv8, b: bv8, c: bv8, d: bv8)
    ensures (forall address: bv32, p: Prefix ::
                MaskedEqual(LoadWord(order, a, b, c, d), NetworkOf(address, p), PrefixMask(p))
                <==> InBlock(LoadWord(BigEndian, a, b, c, d), NetworkOf(address, p), p))
      <==> order == BigEndian || (a == d && b == c)
  {
    hide MaskedEqual, NetworkOf, PrefixMask, InBlock, Combine, LastOffset;
    var seen, ip := LoadWord(order, a, b, c, d), LoadWord(BigEndian, a, b, c, d);
    CombineIsInjective(a, b, c, d);
    forall address: bv32, p: Prefix
      ensures MaskedEqual(ip, NetworkOf(address, p), PrefixMask(p)) <==> InBlock(ip, NetworkOf(address, p), p)
    {
      MaskIsRange(ip, address, p);
    }
    if seen != ip {
      FullPrefix(seen, ip);
      FullPrefix(ip, ip);
      assert MaskedEqual(ip, NetworkOf(ip, 32), PrefixMask(32));
      assert InBlock(ip, NetworkOf(ip, 32), 32);
      assert !MaskedEqual(seen, NetworkOf(ip, 32), PrefixMask(32));
    }
  }

  // ---------------------------------------------------------------- statistics

  // Counters are 64 bits wide and wrap.
  const WIDTH: int := 0x1_0000_0000_0000_0000

  function Wrap(x: int): int {
    x % WIDTH
  }

  datatype Stats = Stats(
    packetsTotal: int, packetsAllowed: int, packetsBlocked: int,
    bytesTotal: int, bytesAllowed: int, bytesBlocked: int,
    tcp: int, udp: int, syslog: int, api: int)

  const ZERO := Stats(0, 0, 0, 0, 0, 0, 0, 0, 0, 0)

  predicate IsApi(p: Protocol, port: int) {
    p == Tcp && port in {80, 443, 8081, 8082}
  }

  predicate IsSyslog(p: Protocol, port: int) {
    p == Udp && 10000 <= port <= 11000
  }

  // The contribution of one packet.
  function One(size: int, allowed: bool, p: Protocol, port: int): Stats {
    Stats(1, if allowed then 1 else 0, if allowed then 0 else 1,
          size, if allowed then size else 0, if allowed then 0 else size,
          if p == Tcp then 1 else 0, if p == Udp then 1 else 0,
          if IsSyslog(p, port) then 1 else 0, if IsApi(p, port) then 1 else 0)
  }

  // Atomic 64-bit additions, counter by counter.
  function Add(s: Stats, t: Stats): Stats {
    Stats(Wrap(s.packetsTotal + t.packetsTotal), Wrap(s.packetsAllowed + t.packetsAllowed),
      Wrap(s.packetsBlocked + t.packetsBlocked),
          Wrap(s.bytesTotal + t.bytesTotal), Wrap(s.bytesAllowed + t.bytesAllowed),
            Wrap(s.bytesBlocked + t.bytesBlocked),
          Wrap(s.tcp + t.tcp), Wrap(s.udp + t.udp), Wrap(s.syslog + t.syslog), Wrap(s.api + t.api))
  }

  function Sum(perCpu: seq<Stats>): Stats {
    if perCpu == [] then ZERO else Add(Sum(perCpu[..|perCpu| - 1]), perCpu[|perCpu| - 1])
  }

  // What adds up, modulo 2^64: every counted packet is allowed or blocked, and is TCP or UDP.
  predicate Balanced(s: Stats) {
    && Wrap(s.packetsTotal) == Wrap(s.packetsAllowed + s.packetsBlocked)
    && Wrap(s.bytesTotal) == Wrap(s.bytesAllowed + s.bytesBlocked)
    && Wrap(s.packetsTotal) == Wrap(s.tcp + s.udp)
  }

  lemma WrapOfSum(a: int, b: int, x: int, y: int, m: int, n: int)
    requires Wrap(a) == Wrap(x + m) && Wrap(b) == Wrap(y + n)
    ensures Wrap(Wrap(a + b)) == Wrap(Wrap(x + y) + Wrap(m + n))
  {
    WrapDrops(a, b);
    var u, v := x + m, y + n;
    WrapDrops(u, v);
    assert Wrap(u + v) == Wrap(a + b) by {
      assert Wrap(Wrap(u) + Wrap(v)) == Wrap(Wrap(a) + Wrap(b));
    }
    hide Wrap;
    WrapDrops(x + y, m + n);
    WrapTwice(a + b);
    assert u + v == x + y + (m + n);
  }

  // Wrapping the summands first makes no difference.
  lemma WrapDrops(a: int, b: int)
    ensures Wrap(Wrap(a) + Wrap(b)) == Wrap(a + b)
  {
    var k := a / WIDTH + b / WIDTH;
    assert a + b == Wrap(a) + Wrap(b) + k * WIDTH;
    WrapShift(Wrap(a) + Wrap(b), k);
  }

  lemma WrapShift(a: int, k: int)
    ensures Wrap(a + k * WIDTH) == Wrap(a)
  {
    assert a + k * WIDTH == Wrap(a) + (a / WIDTH + k) * WIDTH;
  }

  lemma WrapTwice(a: int)
    ensures Wrap(Wrap(a)) == Wrap(a)
  {
  }

  lemma AddKeepsBalance(s: Stats, t: Stats)
    requires Balanced(s) && Balanced(t)
    ensures Balanced(Add(s, t))
  {
    WrapOfSum(s.packetsTotal, t.packetsTotal, s.packetsAllowed, t.packetsAllowed, s.packetsBlocked, t.packetsBlocked);
    WrapOfSum(s.bytesTotal, t.bytesTotal, s.bytesAllowed, t.bytesAllowed, s.bytesBlocked, t.bytesBlocked);
    WrapOfSum(s.packetsTotal, t.packetsTotal, s.tcp, t.tcp, s.udp, t.udp);
    hide Wrap;
  }

  // The totals over all processors balance when each processor's counters do.
  lemma {:induction false} SumIsBalanced(perCpu: seq<Stats>)
    requires forall s :: s in perCpu ==> Balanced(s)
    ensures Balanced(Sum(perCpu))
  {
    hide Balanced, Add;
    if perCpu == [] {
      ZeroIsBalanced();
    } else {
      SumIsBalanced(perCpu[..|perCpu| - 1]);
      AddKeepsBalance(Sum(perCpu[..|perCpu| - 1]), perCpu[|perCpu| - 1]);
    }
  }

  lemma ZeroIsBalanced()
    ensures Balanced(ZERO)
  {
  }

  lemma OneIsBalanced(size: int, allowed: bool, p: Protocol, port: int)
    ensures Balanced(One(size, allowed, p, port))
  {
  }
}
