// What the counters of the packet filter say about the packets it has seen.
module XdpCounters {
  import opened CidrMask
  import opened XdpPacket
  import opened XdpMaps

  // A packet that went to the tables, and what became of it.
  datatype Looked = Looked(size: nat, verdict: Verdict, protocol: Protocol, port: int)

  // A processor's counters after these packets, starting from zero.
  ghost function Counters(packets: seq<Looked>): Stats {
    if packets == [] then ZERO
    else
      var last := packets[|packets| - 1];
      Counted(Counters(packets[..|packets| - 1]), last.size, last.verdict, Filtered(0, last.port, last.protocol))
  }

  // The same as plain sums: packets and bytes, passed and dropped, TCP and UDP, the syslog port range, the API ports.
  function Tally(packets: seq<Looked>): Stats {
    if packets == [] then Stats(0, 0, 0, 0, 0, 0, 0, 0, 0, 0)
    else
      var t, p := Tally(packets[..|packets| - 1]), packets[|packets| - 1];
      var passed, tcp := p.verdict == XdpPass, p.protocol == Tcp;
      Stats(
        t.packetsTotal + 1,
        t.packetsAllowed + if passed then 1 else 0,
        t.packetsBlocked + if passed then 0 else 1,
        t.bytesTotal + p.size,
        t.bytesAllowed + if passed then p.size else 0,
        t.bytesBlocked + if passed then 0 else p.size,
        t.tcp + if tcp then 1 else 0,
        t.udp + if tcp then 0 else 1,
        t.syslog + if !tcp && 10000 <= p.port && p.port <= 11000 then 1 else 0,
        t.api + if tcp && (p.port == 80 || p.port == 443 || p.port == 8081 || p.port == 8082) then 1 else 0)
  }

  // Counters of 64 bits.
  function Modulo(s: Stats): Stats {
    var w := 18446744073709551616;
    Stats(s.packetsTotal % w, s.packetsAllowed % w, s.packetsBlocked % w, s.bytesTotal % w, s.bytesAllowed % w,
          s.bytesBlocked % w, s.tcp % w, s.udp % w, s.syslog % w, s.api % w)
  }

  function Plus(s: Stats, t: Stats): Stats {
    Stats(s.packetsTotal + t.packetsTotal, s.packetsAllowed + t.packetsAllowed, s.packetsBlocked + t.packetsBlocked,
          s.bytesTotal + t.bytesTotal, s.bytesAllowed + t.bytesAllowed, s.bytesBlocked + t.bytesBlocked,
          s.tcp + t.tcp, s.udp + t.udp, s.syslog + t.syslog, s.api + t.api)
  }

  lemma AddIsModulo(s: Stats, t: Stats)
    ensures Add(Modulo(s), Modulo(t)) == Modulo(Plus(s, t))
  {
    ModuloWraps(s);
    ModuloWraps(t);
    ModuloWraps(Plus(s, t));
    hide Wrap, Modulo;
    WrapDrops(s.packetsTotal, t.packetsTotal);
    WrapDrops(s.packetsAllowed, t.packetsAllowed);
    WrapDrops(s.packetsBlocked, t.packetsBlocked);
    WrapDrops(s.bytesTotal, t.bytesTotal);
    WrapDrops(s.bytesAllowed, t.bytesAllowed);
    WrapDrops(s.bytesBlocked, t.bytesBlocked);
    WrapDrops(s.tcp, t.tcp);
    WrapDrops(s.udp, t.udp);
    WrapDrops(s.syslog, t.syslog);
    WrapDrops(s.api, t.api);
  }

  lemma ModuloWraps(s: Stats)
    ensures Modulo(s) == Stats(
      Wrap(s.packetsTotal), Wrap(s.packetsAllowed), Wrap(s.packetsBlocked), Wrap(s.bytesTotal), Wrap(s.bytesAllowed),
      Wrap(s.bytesBlocked), Wrap(s.tcp), Wrap(s.udp), Wrap(s.syslog), Wrap(s.api))
  {
  }

  // Only the left summand needs to be wrapped before.
  lemma AddOneIsModulo(s: Stats, t: Stats)
    ensures Add(Modulo(s), t) == Modulo(Plus(s, t))
  {
    ModuloWraps(s);
    ModuloWraps(Plus(s, t));
    hide Wrap, Modulo;
    WrapLeft(s.packetsTotal, t.packetsTotal);
    WrapLeft(s.packetsAllowed, t.packetsAllowed);
    WrapLeft(s.packetsBlocked, t.packetsBlocked);
    WrapLeft(s.bytesTotal, t.bytesTotal);
    WrapLeft(s.bytesAllowed, t.bytesAllowed);
    WrapLeft(s.bytesBlocked, t.bytesBlocked);
    WrapLeft(s.tcp, t.tcp);
    WrapLeft(s.udp, t.udp);
    WrapLeft(s.syslog, t.syslog);
    WrapLeft(s.api, t.api);
  }

  lemma WrapLeft(a: int, b: int)
    ensures Wrap(Wrap(a) + b) == Wrap(a + b)
  {
    WrapDrops(a, b);
    WrapDrops(Wrap(a), b);
    WrapTwice(a);
    hide Wrap;
  }

  // A processor's counters are these tallies, modulo 2^64.
  lemma {:induction false} CountersAreTallies(packets: seq<Looked>)
    ensures Counters(packets) == Modulo(Tally(packets))
  {
    if packets != [] {
      var init, last := packets[..|packets| - 1], packets[|packets| - 1];
      CountersAreTallies(init);
      AddOneIsModulo(Tally(init), One(last.size, last.verdict == XdpPass, last.protocol, last.port));
      hide Modulo, Add;
    }
  }

  // Each processor's packets.
  ghost function EachCounters(perCpu: seq<seq<Looked>>): (r: seq<Stats>)
    ensures |r| == |perCpu| && forall i :: 0 <= i < |r| ==> r[i] == Counters(perCpu[i])
  {
    seq(|perCpu|, i requires 0 <= i < |perCpu| => Counters(perCpu[i]))
  }

  function TallyOfAll(perCpu: seq<seq<Looked>>): Stats {
    if perCpu == [] then Stats(0, 0, 0, 0, 0, 0, 0, 0, 0, 0)
    else Plus(TallyOfAll(perCpu[..|perCpu| - 1]), Tally(perCpu[|perCpu| - 1]))
  }

  // And the totals that are reported are the tallies over all processors.
  lemma {:induction false} TotalsAreTallies(perCpu: seq<seq<Looked>>)
    ensures Sum(EachCounters(perCpu)) == Modulo(TallyOfAll(perCpu))
  {
    if perCpu != [] {
      var init, last := perCpu[..|perCpu| - 1], perCpu[|perCpu| - 1];
      TotalsAreTallies(init);
      assert EachCounters(perCpu)[..|perCpu| - 1] == EachCounters(init);
      CountersAreTallies(last);
      AddIsModulo(TallyOfAll(init), Tally(last));
      hide Modulo, Add, Tally, Counters;
    }
  }
}
