// A reload interleaved with packets: the manager rewrites the maps slot by slot while the program scans them.
// Each slot read and each slot write is one atomic step.
module XdpReload {
  import opened Wrappers
  import opened CidrMask
  import opened XdpTables

  datatype Tables = Tables(rules: seq<Rule>, ports: seq<int>)

  predicate Sized(t: Tables) {
    |t.rules| == MAX_CIDR_RULES && |t.ports| == MAX_PORT_RULES
  }

  // One iteration of a loop of reload_config. An iteration whose entry is invalid writes nothing.
  datatype Write = WriteRule(slot: nat, rule: Rule) | WritePort(index: nat, port: int) | NoWrite

  function RulesDone(rules: seq<RuleData>): nat {
    MAX_CIDR_RULES + Min(MAX_CIDR_RULES, |rules|)
  }

  // The k-th iteration: clear all rules, write the rules, clear all ports, write the ports.
  function WriteAt(rules: seq<RuleData>, ports: seq<PortData>, k: nat): Write {
    var r := RulesDone(rules);
    if k < MAX_CIDR_RULES then WriteRule(k, CLEARED)
    else if k < r then
      var data := rules[k - MAX_CIDR_RULES];
      if data.RuleData? then WriteRule(k - MAX_CIDR_RULES, Compile(data)) else NoWrite
    else if k < r + MAX_PORT_RULES then WritePort(k - r, 0)
    else if k < r + MAX_PORT_RULES + PortsWritten(ports) then
      WritePort(k - r - MAX_PORT_RULES, Low16(ports[k - r - MAX_PORT_RULES].value))
    else NoWrite
  }

  function Apply(t: Tables, w: Write): Tables
    requires Sized(t)
    ensures Sized(Apply(t, w))
  {
    match w
    case WriteRule(i, rule) => if i < MAX_CIDR_RULES then t.(rules := t.rules[i := rule]) else t
    case WritePort(i, port) => if i < MAX_PORT_RULES then t.(ports := t.ports[i := port]) else t
    case NoWrite => t
  }

  // The maps after t iterations.
  function At(before: Tables, rules: seq<RuleData>, ports: seq<PortData>, t: nat): (r: Tables)
    requires Sized(before)
    ensures Sized(r)
  {
    if t == 0 then before else Apply(At(before, rules, ports, t - 1), WriteAt(rules, ports, t - 1))
  }

  // Every rule slot is old until it is cleared, then empty, then new.
  lemma {:induction false} RuleSlot(before: Tables, rules: seq<RuleData>, ports: seq<PortData>, t: nat, i: nat)
    requires Sized(before) && i < MAX_CIDR_RULES
    ensures At(before, rules, ports, t).rules[i] ==
      if t <= i then before.rules[i] else if t <= MAX_CIDR_RULES + i then CLEARED else CompiledRule(rules, i)
  {
    hide NetworkOf, PrefixMask;
    if t > 0 {
      RuleSlot(before, rules, ports, t - 1, i);
    }
  }

  // Likewise every port slot, once the rules are done.
  lemma {:induction false} PortSlot(before: Tables, rules: seq<RuleData>, ports: seq<PortData>, t: nat, i: nat)
    requires Sized(before) && i < MAX_PORT_RULES
    ensures var r := RulesDone(rules);
      At(before, rules, ports, t).ports[i] ==
      if t <= r + i then before.ports[i] else if t <= r + MAX_PORT_RULES + i then 0 else CompiledPort(ports, i)
  {
    hide Compile;
    if t > 0 {
      PortSlot(before, rules, ports, t - 1, i);
    }
  }

  // After the last iteration the maps hold exactly the compiled configuration.
  lemma ReloadCompletes(before: Tables, rules: seq<RuleData>, ports: seq<PortData>, t: nat)
    requires Sized(before) && t >= RulesDone(rules) + 2 * MAX_PORT_RULES && t >= 2 * MAX_CIDR_RULES
    ensures At(before, rules, ports, t) == Tables(CompiledRules(rules), CompiledPorts(ports))
  {
    hide Compile;
    var now := At(before, rules, ports, t);
    forall i: nat | i < MAX_CIDR_RULES ensures now.rules[i] == CompiledRules(rules)[i] {
      RuleSlot(before, rules, ports, t, i);
    }
    forall i: nat | i < MAX_PORT_RULES ensures now.ports[i] == CompiledPorts(ports)[i] {
      PortSlot(before, rules, ports, t, i);
    }
    assert now.rules == CompiledRules(rules) && now.ports == CompiledPorts(ports);
  }

  // ---------------------------------------------------------------- a packet scanned meanwhile

  // When the scan reads each slot: it goes through the ports first, then through the rules, and time never runs back.
  datatype Scan = Scan(portTimes: seq<nat>, ruleTimes: seq<nat>)

  ghost predicate InOrder(s: Scan) {
    && |s.portTimes| == MAX_PORT_RULES && |s.ruleTimes| == MAX_CIDR_RULES
    && (forall i, j :: 0 <= i <= j < MAX_PORT_RULES ==> s.portTimes[i] <= s.portTimes[j])
    && (forall i, j :: 0 <= i <= j < MAX_CIDR_RULES ==> s.ruleTimes[i] <= s.ruleTimes[j])
    && (forall i, j :: 0 <= i < MAX_PORT_RULES && 0 <= j < MAX_CIDR_RULES ==> s.portTimes[i] <= s.ruleTimes[j])
  }

  // What the scan sees.
  function Seen(before: Tables, rules: seq<RuleData>, ports: seq<PortData>, s: Scan): (r: Tables)
    requires Sized(before) && |s.portTimes| == MAX_PORT_RULES && |s.ruleTimes| == MAX_CIDR_RULES
    ensures Sized(r)
    ensures forall i :: 0 <= i < MAX_PORT_RULES ==> r.ports[i] == At(before, rules, ports, s.portTimes[i]).ports[i]
    ensures forall i :: 0 <= i < MAX_CIDR_RULES ==> r.rules[i] == At(before, rules, ports, s.ruleTimes[i]).rules[i]
  {
    Tables(seq(MAX_CIDR_RULES, i requires 0 <= i < MAX_CIDR_RULES => At(before, rules, ports, s.ruleTimes[i]).rules[i]),
           seq(MAX_PORT_RULES, i requires 0 <= i < MAX_PORT_RULES => At(before, rules, ports, s.portTimes[i]).ports[i]))
  }

  // The slot where the scan finds the port. If it was not yet cleared, neither were the slots before it, which were
  // read earlier: then the old table allows the port.
  lemma FoundPort(before: Tables, rules: seq<RuleData>, ports: seq<PortData>, s: Scan, port: int) returns (i: nat)
    requires Sized(before) && InOrder(s) && PortAllowed(Seen(before, rules, ports, s).ports, port)
    ensures i < MAX_PORT_RULES && Seen(before, rules, ports, s).ports[i] == port
    ensures forall j :: 0 <= j <= i ==> Seen(before, rules, ports, s).ports[j] != 0
    ensures s.portTimes[i] > RulesDone(rules) + i || PortAllowed(before.ports, port)
  {
    hide At, Compile;
    var seen := Seen(before, rules, ports, s).ports;
    i :| i < |seen| && seen[i] == port && forall j :: 0 <= j <= i ==> seen[j] != 0;
    if s.portTimes[i] <= RulesDone(rules) + i {
      forall j | 0 <= j <= i ensures before.ports[j] == seen[j] {
        PortSlot(before, rules, ports, s.portTimes[j], j);
      }
      assert before.ports[i] == port;
    }
  }

  lemma PassedPort(before: Tables, rules: seq<RuleData>, ports: seq<PortData>, s: Scan, port: int)
    requires Sized(before) && InOrder(s) && PortAllowed(Seen(before, rules, ports, s).ports, port)
    ensures PortAllowed(before.ports, port)
      || exists i :: 0 <= i < PortsWritten(ports) && Low16(ports[i].value) == port && port != 0
  {
    var i := FoundPort(before, rules, ports, s, port);
    hide At, Compile, PortAllowed;
    PortSlot(before, rules, ports, s.portTimes[i], i);
  }

  lemma PassedRule(before: Tables, rules: seq<RuleData>, ports: seq<PortData>, s: Scan, src: bv32, port: int)
    requires Sized(before) && InOrder(s) && SourceAllowed(Seen(before, rules, ports, s).rules, src, port)
    ensures SourceAllowed(before.rules, src, port) || RuleListed(rules, src, port)
  {
    hide At, Compile, Matches, Covers;
    var seen := Seen(before, rules, ports, s).rules;
    var i :| 0 <= i < |seen| && Matches(seen[i], src, port);
    RuleSlot(before, rules, ports, s.ruleTimes[i], i);
    ClearedNeverMatches(src, port);
    if seen[i] == before.rules[i] {
      assert Matches(before.rules[i], src, port);
    } else if i < |rules| {
      CompiledMatches(rules[i], src, port);
    }
  }

  // A port that is not allowed by the old table is read after the rules are done, so its packet meets the new rules.
  lemma NewPortMeetsNewRules(before: Tables, rules: seq<RuleData>, ports: seq<PortData>, s: Scan, src: bv32, port: int)
    requires Sized(before) && InOrder(s)
    requires PortAllowed(Seen(before, rules, ports, s).ports, port)
      && SourceAllowed(Seen(before, rules, ports, s).rules, src, port)
    ensures PortAllowed(before.ports, port) || RuleListed(rules, src, port)
  {
    var i := FoundPort(before, rules, ports, s, port);
    if s.portTimes[i] > RulesDone(rules) + i {
      hide At, Compile, Matches, Covers, PortAllowed;
      var seen := Seen(before, rules, ports, s).rules;
      var j :| 0 <= j < |seen| && Matches(seen[j], src, port);
      RuleSlot(before, rules, ports, s.ruleTimes[j], j);
      assert seen[j] == CompiledRule(rules, j);
      ClearedNeverMatches(src, port);
      CompiledMatches(rules[j], src, port);
    }
  }

  // A packet passed while the maps are being rewritten has its port allowed by the old ports or among the new
  // ports, and its source covered by the old rules or by the new rules; and unless the old ports allow its port,
  // the new rules cover its source.
  lemma PassedDuringReload(before: Tables, rules: seq<RuleData>, ports: seq<PortData>, s: Scan, src: bv32, port: int)
    requires Sized(before) && InOrder(s)
    requires PortAllowed(Seen(before, rules, ports, s).ports, port)
      && SourceAllowed(Seen(before, rules, ports, s).rules, src, port)
    ensures PortAllowed(before.ports, port)
      || exists i :: 0 <= i < PortsWritten(ports) && Low16(ports[i].value) == port && port != 0
    ensures SourceAllowed(before.rules, src, port) || RuleListed(rules, src, port)
    ensures PortAllowed(before.ports, port) || RuleListed(rules, src, port)
  {
    hide Seen, Matches, Covers;
    PassedPort(before, rules, ports, s, port);
    PassedRule(before, rules, ports, s, src, port);
    NewPortMeetsNewRules(before, rules, ports, s, src, port);
  }

  // ---------------------------------------------------------------- exactly what can pass meanwhile

  // Some scan during the reload passes the packet.
  ghost predicate CanPass(before: Tables, rules: seq<RuleData>, ports: seq<PortData>, src: bv32, port: int)
    requires Sized(before)
  {
    exists s :: InOrder(s) && Passes(Seen(before, rules, ports, s), src, port)
  }

  ghost predicate Passes(t: Tables, src: bv32, port: int) {
    PortAllowed(t.ports, port) && SourceAllowed(t.rules, src, port)
  }

  // The port is at slot k of the new ports, and slots of the old ports up to some m and of the new ports from there
  // on lead to it without a zero.
  ghost predicate Spliced(was: seq<int>, ports: seq<PortData>, port: int, m: nat, k: nat)
    requires |was| == MAX_PORT_RULES
  {
    && m <= k < MAX_PORT_RULES && CompiledPort(ports, k) == port
    && (forall j :: 0 <= j < m ==> was[j] != 0)
    && forall j :: m <= j <= k ==> CompiledPort(ports, j) != 0
  }

  // A slot that the scan passes is old if it was read before its clearing, and new otherwise; once a slot is new, so
  // are all later ones.
  lemma NewPortIsSpliced(before: Tables, rules: seq<RuleData>, ports: seq<PortData>, s: Scan, port: int)
    requires Sized(before) && InOrder(s) && PortAllowed(Seen(before, rules, ports, s).ports, port)
    ensures PortAllowed(before.ports, port) || exists m: nat, k: nat :: Spliced(before.ports, ports, port, m, k)
  {
    var i := FoundPort(before, rules, ports, s, port);
    if s.portTimes[i] > RulesDone(rules) + i {
      LateScanIsSpliced(before, rules, ports, s, port, i);
    }
  }

  lemma LateScanIsSpliced(before: Tables, rules: seq<RuleData>, ports: seq<PortData>, s: Scan, port: int, i: nat)
    requires Sized(before) && InOrder(s) && i < MAX_PORT_RULES && s.portTimes[i] > RulesDone(rules) + i
    requires Seen(before, rules, ports, s).ports[i] == port
    requires forall j :: 0 <= j <= i ==> Seen(before, rules, ports, s).ports[j] != 0
    ensures exists m: nat :: Spliced(before.ports, ports, port, m, i)
  {
    hide At, Compile;
    var r := RulesDone(rules);
    var m := FirstNew(s, r, i);
    forall j: nat | j <= i
      ensures if j < m then before.ports[j] != 0 else CompiledPort(ports, j) == Seen(before, rules, ports, s).ports[j]
    {
      PortSlot(before, rules, ports, s.portTimes[j], j);
    }
    assert Spliced(before.ports, ports, port, m, i);
  }

  lemma FirstNew(s: Scan, r: nat, i: nat) returns (m: nat)
    requires InOrder(s) && i < MAX_PORT_RULES && s.portTimes[i] > r + i
    ensures m <= i
    ensures forall j: nat :: j <= i ==> if j < m then s.portTimes[j] < r + MAX_PORT_RULES else s.portTimes[j] > r + j
  {
    m := i;
    while m > 0 && s.portTimes[m - 1] > r + m - 1
      invariant m <= i && forall j: nat :: m <= j <= i ==> s.portTimes[j] > r + j
    {
      m := m - 1;
    }
  }

  // Scans that show all this: everything read at one time, or the first m ports before the reload and the rest after.
  function ScanAt(ports: nat, m: nat, late: nat, rules: nat): Scan {
    Scan(seq(MAX_PORT_RULES, i => if i < m then ports else late), seq(MAX_CIDR_RULES, _ => rules))
  }

  function End(rules: seq<RuleData>): nat {
    RulesDone(rules) + 2 * MAX_PORT_RULES + 2 * MAX_CIDR_RULES
  }

  lemma OldPortCanPass(before: Tables, rules: seq<RuleData>, ports: seq<PortData>, src: bv32, port: int)
    requires Sized(before) && PortAllowed(before.ports, port)
    requires SourceAllowed(before.rules, src, port) || RuleListed(rules, src, port)
    ensures CanPass(before, rules, ports, src, port)
  {
    hide SourceAllowed, PortAllowed, RuleListed;
    var s := ScanAt(0, 0, 0, if SourceAllowed(before.rules, src, port) then 0 else End(rules));
    assert InOrder(s);
    assert Seen(before, rules, ports, s).ports == before.ports;
    if SourceAllowed(before.rules, src, port) {
      assert Seen(before, rules, ports, s).rules == before.rules;
    } else {
      ReloadCompletes(before, rules, ports, End(rules));
      RulesRefine(rules, src, port);
      assert Seen(before, rules, ports, s).rules == CompiledRules(rules);
    }
    assert Passes(Seen(before, rules, ports, s), src, port);
  }

  lemma SplicedPortCanPass(before: Tables, rules: seq<RuleData>, ports: seq<PortData>, src: bv32, port: int, m: nat,
      k: nat)
    requires Sized(before) && Spliced(before.ports, ports, port, m, k) && RuleListed(rules, src, port)
    ensures CanPass(before, rules, ports, src, port)
  {
    hide SourceAllowed, RuleListed, At, Compile;
    var s := ScanAt(0, m, End(rules), End(rules));
    assert InOrder(s);
    var seen := Seen(before, rules, ports, s);
    ReloadCompletes(before, rules, ports, End(rules));
    RulesRefine(rules, src, port);
    assert seen.rules == CompiledRules(rules);
    forall j: nat | j <= k ensures seen.ports[j] == if j < m then before.ports[j] else CompiledPort(ports, j) {
      PortSlot(before, rules, ports, s.portTimes[j], j);
    }
    assert PortAllowed(seen.ports, port);
    assert Passes(seen, src, port);
  }

  // Exactly the packets that can pass while the maps are rewritten: those with a port of the old table and a source
  // of the old or the new rules, and those with a spliced port of the new list and a source of the new rules.
  lemma CanPassExactly(before: Tables, rules: seq<RuleData>, ports: seq<PortData>, src: bv32, port: int)
    requires Sized(before)
    ensures CanPass(before, rules, ports, src, port) <==>
      || (PortAllowed(before.ports, port) && (SourceAllowed(before.rules, src, port) || RuleListed(rules, src, port)))
      || (RuleListed(rules, src, port) && exists m: nat, k: nat :: Spliced(before.ports, ports, port, m, k))
  {
    if CanPass(before, rules, ports, src, port) {
      var s :| InOrder(s) && Passes(Seen(before, rules, ports, s), src, port);
      PassedDuringReload(before, rules, ports, s, src, port);
      if !PortAllowed(before.ports, port) {
        NewPortIsSpliced(before, rules, ports, s, port);
      }
    }
    hide CanPass;
    if PortAllowed(before.ports, port) && (SourceAllowed(before.rules, src, port) || RuleListed(rules, src, port)) {
      OldPortCanPass(before, rules, ports, src, port);
    }
    if m: nat, k: nat :| Spliced(before.ports, ports, port, m, k) && RuleListed(rules, src, port) {
      SplicedPortCanPass(before, rules, ports, src, port, m, k);
    }
  }

  // ---------------------------------------------------------------- exactly what can be dropped meanwhile

  // Some scan during the reload drops the packet.
  ghost predicate CanDrop(before: Tables, rules: seq<RuleData>, ports: seq<PortData>, src: bv32, port: int)
    requires Sized(before)
  {
    exists s :: InOrder(s) && !Passes(Seen(before, rules, ports, s), src, port)
  }

  // Every packet, also one that the old and the new tables both pass, or that both are the same: once the old rules are
  // cleared, and before the new ones are written, there is no rule at all.
  lemma AnyPacketCanBeDropped(before: Tables, rules: seq<RuleData>, ports: seq<PortData>, src: bv32, port: int)
    requires Sized(before)
    ensures CanDrop(before, rules, ports, src, port)
  {
    hide At, Compile, Matches;
    var s := ScanAt(MAX_CIDR_RULES, 0, MAX_CIDR_RULES, MAX_CIDR_RULES);
    assert InOrder(s);
    var seen := Seen(before, rules, ports, s);
    forall i: nat | i < MAX_CIDR_RULES ensures !Matches(seen.rules[i], src, port) {
      RuleSlot(before, rules, ports, MAX_CIDR_RULES, i);
      ClearedNeverMatches(src, port);
    }
    assert !Passes(seen, src, port);
  }

  // A scan that drops what both tables pass overlaps the reload: it began before the last write and ended after the
  // first.
  lemma DroppedOnlyMeanwhile(before: Tables, rules: seq<RuleData>, ports: seq<PortData>, s: Scan, src: bv32, port: int)
    requires Sized(before) && InOrder(s)
    requires Passes(before, src, port) && Passes(Tables(CompiledRules(rules), CompiledPorts(ports)), src, port)
    requires !Passes(Seen(before, rules, ports, s), src, port)
    ensures s.portTimes[0] < End(rules) && s.ruleTimes[MAX_CIDR_RULES - 1] > 0
  {
    hide Passes;
    if s.portTimes[0] >= End(rules) {
      FinishedScan(before, rules, ports, s);
    }
    if s.ruleTimes[MAX_CIDR_RULES - 1] == 0 {
      EarlyScan(before, rules, ports, s);
    }
  }

  lemma EarlyScan(before: Tables, rules: seq<RuleData>, ports: seq<PortData>, s: Scan)
    requires Sized(before) && InOrder(s) && s.ruleTimes[MAX_CIDR_RULES - 1] == 0
    ensures Seen(before, rules, ports, s) == before
  {
    var seen := Seen(before, rules, ports, s);
    assert seen.ports == before.ports && seen.rules == before.rules;
  }

  lemma FinishedScan(before: Tables, rules: seq<RuleData>, ports: seq<PortData>, s: Scan)
    requires Sized(before) && InOrder(s) && s.portTimes[0] >= End(rules)
    ensures Seen(before, rules, ports, s) == Tables(CompiledRules(rules), CompiledPorts(ports))
  {
    hide At, Compile;
    var seen := Seen(before, rules, ports, s);
    forall i: nat | i < MAX_PORT_RULES ensures seen.ports[i] == CompiledPorts(ports)[i] {
      ReloadCompletes(before, rules, ports, s.portTimes[i]);
    }
    forall i: nat | i < MAX_CIDR_RULES ensures seen.rules[i] == CompiledRules(rules)[i] {
      ReloadCompletes(before, rules, ports, s.ruleTimes[i]);
    }
    assert seen.ports == CompiledPorts(ports) && seen.rules == CompiledRules(rules);
  }

  // ---------------------------------------------------------------- leaks

  // Every new port that is written is also listed, that is, no zero hides it.
  ghost predicate NothingHidden(ports: seq<PortData>) {
    forall k :: 0 <= k < PortsWritten(ports) && Low16(ports[k].value) != 0 ==> PortListed(ports, Low16(ports[k].value))
  }

  // A reload to these ports never lets a scan pass a port that neither the old nor the finished new table allows.
  ghost predicate NeverLeaks(ports: seq<PortData>) {
    forall before, rules, s, port :: !Leaks(before, rules, ports, s, port)
  }

  ghost predicate Leaks(before: Tables, rules: seq<RuleData>, ports: seq<PortData>, s: Scan, port: int) {
    Sized(before) && InOrder(s) && PortAllowed(Seen(before, rules, ports, s).ports, port)
    && !PortAllowed(before.ports, port) && !PortListed(ports, port)
  }

  // A scan that reads the slots before k in the old table and slot k in the finished one.
  lemma HiddenPortLeaks(ports: seq<PortData>, k: nat)
    requires k < PortsWritten(ports) && Low16(ports[k].value) != 0 && !PortListed(ports, Low16(ports[k].value))
    ensures exists before, s :: Leaks(before, [], ports, s, Low16(ports[k].value))
  {
    hide At, WrittenFrom;
    var port := Low16(ports[k].value);
    var other := if port == 1 then 2 else 1;
    var end := RulesDone([]) + 2 * MAX_PORT_RULES;
    var before := Tables(seq(MAX_CIDR_RULES, _ => CLEARED), seq(MAX_PORT_RULES, i => if i < k then other else 0));
    var s := Scan(seq(MAX_PORT_RULES, i => if i < k then 0 else end), seq(MAX_CIDR_RULES, _ => end));
    var seen := Seen(before, [], ports, s).ports;
    forall i: nat | i < k ensures seen[i] == other {
      PortSlot(before, [], ports, 0, i);
    }
    PortSlot(before, [], ports, end, k);
    assert seen[k] == port;
    assert InOrder(s);
    assert PortAllowed(seen, port);
    assert Leaks(before, [], ports, s, port);
  }

  // "Among the new ports" becomes "allowed by the new ports" exactly when no zero of the new list hides an entry.
  lemma LeakCondition(ports: seq<PortData>)
    ensures NeverLeaks(ports) <==> NothingHidden(ports)
  {
    hide Seen, PortAllowed, PortListed, PortsWritten;
    if NothingHidden(ports) {
      forall before, rules, s, port | Leaks(before, rules, ports, s, port) ensures false {
        PassedPort(before, rules, ports, s, port);
      }
    } else {
      var k :| 0 <= k < PortsWritten(ports) && Low16(ports[k].value) != 0 && !PortListed(ports, Low16(ports[k].value));
      HiddenPortLeaks(ports, k);
    }
  }
}
