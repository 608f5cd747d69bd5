// One turn of the consumer loop as a function of the shared state, its place in the transition system,
// and how fast turns empty the pending list.
module LogSweep {
  import opened Wrappers
  import opened ConsumerGroup
  import opened LogDocuments
  import opened LogPipeline

  // What the environment does to one batch: conversions that fail, the bulk call, the acknowledgement, and the
  // time that passes before each conversion.
  datatype Attempt = Attempt(fails: set<nat>, bulk: BulkOutcome, ack: AckOutcome, waits: map<nat, nat>)

  // ... to one sweep over the pending list, and to one turn of the loop. A pause is the time before the claim, and
  // before the sweep.
  datatype Sweep = Sweep(scanReplied: bool, pause: nat, claimReplied: bool, attempt: Attempt)
  datatype Turn = Turn(readReplied: bool, attempt: Attempt, pause: nat, sweep: Sweep)

  // The shared state a worker changes, and the time.
  datatype Shared = Shared(g: Group, es: Index, now: nat)

  function SharedOf(s: System): Shared {
    Shared(s.g, s.es, s.now)
  }

  function With(s: System, x: Shared): System {
    s.(g := x.g, es := x.es, now := x.now)
  }

  function Later(s: System, pause: nat): System {
    s.(now := s.now + pause)
  }

  function Paused(x: Shared, pause: nat): Shared {
    x.(now := x.now + pause)
  }

  predicate Known(g: Group, batch: seq<nat>) {
    forall i :: 0 <= i < |batch| ==> batch[i] < |g.stream|
  }

  function AfterAttempt(cfg: Config, x: Shared, batch: seq<nat>, a: Attempt): Shared
    requires Known(x.g, batch)
  {
    var messages := Fetch(x.g.stream, batch);
    Shared(if a.ack == NotSent then x.g else Ack(x.g, Ids(batch)),
           Store(x.es, Documents(cfg, messages, a.fails, a.waits, x.now), a.bulk),
           TimeAfter(cfg, messages, a.waits, x.now))
  }

  function Stale(g: Group, now: nat): seq<nat> {
    StaleIds(g, PendingRange(g, PENDING_COUNT), now)
  }

  // What a claim wins of the ids that a scan at `now` found stale.
  function Won(g: Group, now: nat, claimed: nat): (won: seq<nat>)
    requires Consistent(g)
    ensures Known(g, won)
  {
    var won := Winners(g, Stale(g, now), MIN_IDLE_MS, claimed);
    assert forall i :: 0 <= i < |won| ==> won[i] in won;
    won
  }

  function AfterClaim(w: string, x: Shared, pause: nat): Shared {
    Paused(x.(g := Claim(x.g, w, Stale(x.g, x.now), MIN_IDLE_MS, x.now + pause)), pause)
  }

  function AfterSweep(cfg: Config, w: string, x: Shared, v: Sweep): Shared
    requires Consistent(x.g)
  {
    if !v.scanReplied || Stale(x.g, x.now) == [] then x
    else
      var claimed, won := AfterClaim(w, x, v.pause), Won(x.g, x.now, x.now + v.pause);
      if !v.claimReplied || won == [] then claimed else AfterAttempt(cfg, claimed, won, v.attempt)
  }

  function AfterRead(cfg: Config, w: string, x: Shared): Shared {
    x.(g := ReadGroup(x.g, w, cfg.batchSize, x.now))
  }

  function AfterTurn(cfg: Config, w: string, x: Shared, t: Turn): Shared
    requires Consistent(x.g)
  {
    var ids := NextIds(x.g, cfg.batchSize);
    var read := AfterRead(cfg, w, x);
    assert forall i :: 0 <= i < |ids| ==> ids[i] in ids;
    if !t.readReplied then read
    else
      var y := if ids == [] then read else AfterAttempt(cfg, read, ids, t.attempt);
      AfterSweep(cfg, w, Paused(y, t.pause), t.sweep)
  }

  // ---------------------------------------------------------------- turns are runs

  // Each conversion with the time that passes before it.
  function Conversions(cfg: Config, w: string, messages: seq<Message>, a: Attempt): seq<Label> {
    if messages == [] then []
    else
      var m := messages[|messages| - 1];
      Conversions(cfg, w, messages[..|messages| - 1], a)
      + [Tick(TimeBefore(cfg, m, a))] + [Convert(w, m.id in a.fails)]
  }

  function AttemptLabels(cfg: Config, w: string, messages: seq<Message>, a: Attempt): seq<Label> {
    Conversions(cfg, w, messages, a) + [Bulk(w, a.bulk)] + [XAck(w, a.ack)]
  }

  function SweepLabels(cfg: Config, w: string, x: Shared, v: Sweep): seq<Label>
    requires Consistent(x.g)
  {
    if !v.scanReplied || Stale(x.g, x.now) == [] then [Scan(w, v.scanReplied)]
    else
      var won := Won(x.g, x.now, x.now + v.pause);
      if !v.claimReplied || won == [] then [Scan(w, true)] + [Tick(v.pause)] + [XClaim(w, v.claimReplied)]
      else
        [Scan(w, true)] + [Tick(v.pause)] + [XClaim(w, true)] + AttemptLabels(cfg, w, Fetch(x.g.stream, won), v.attempt)
  }

  lemma {:induction false} ExecConcat(cfg: Config, s: System, a: seq<Label>, b: seq<Label>)
    ensures Exec(cfg, s, a + b) == Exec(cfg, Exec(cfg, s, a), b)
  {
    hide Step;
    if b == [] {
      assert a + b == a;
    } else {
      var all, init, last := a + b, b[..|b| - 1], b[|b| - 1];
      ExecConcat(cfg, s, a, init);
      assert all[..|all| - 1] == a + init && all[|all| - 1] == last;
    }
  }

  lemma MovedTwice(s: System, w: string, p: Phase, q: Phase)
    ensures Moved(Moved(s, w, p), w, q) == Moved(s, w, q)
  {
    assert s.workers[w := p][w := q] == s.workers[w := q];
  }

  lemma ExecThen(cfg: Config, s: System, run: seq<Label>, l: Label)
    ensures Exec(cfg, s, run + [l]) == Step(cfg, Exec(cfg, s, run), l)
  {
    assert (run + [l])[..|run|] == run;
  }

  lemma ConvertOne(cfg: Config, s: System, w: string, batch: seq<nat>, after: After, a: Attempt, k: nat, docs: seq<Doc>)
    requires Known(s.g, batch) && k < |batch|
    ensures Step(cfg, Moved(s, w, Converting(batch, k, docs, after)), Convert(w, batch[k] in a.fails))
      == Moved(s, w, Converting(batch, k + 1,
           docs + if IsLog(cfg, s.g.stream[batch[k]]) && batch[k] !in a.fails
                  then [ToDocument(cfg, s.g.stream[batch[k]], batch[k], s.now)] else [], after))
  {
    var p := Converting(batch, k, docs, after);
    var l := Convert(w, batch[k] in a.fails);
    var t := Moved(s, w, p);
    assert PhaseOf(t, w) == p && t.g == s.g && t.now == s.now;
    assert Step(cfg, t, l) == ConvertStep(cfg, t, w, p, batch[k] in a.fails);
    assert docs + [] == docs;
    MovedTwice(s, w, p, ConvertStep(cfg, t, w, p, batch[k] in a.fails).workers[w]);
  }

  // Where a worker is after k conversions of its batch.
  function Halfway(cfg: Config, s: System, w: string, batch: seq<nat>, after: After, a: Attempt, k: nat): System
    requires Known(s.g, batch) && k <= |batch|
  {
    var messages := Fetch(s.g.stream, batch)[..k];
    Moved(s.(now := TimeAfter(cfg, messages, a.waits, s.now)), w,
          Converting(batch, k, Documents(cfg, messages, a.fails, a.waits, s.now), after))
  }

  function TimeBefore(cfg: Config, m: Message, a: Attempt): nat {
    if IsLog(cfg, m.fields) then WaitFor(a.waits, m.id) else 0
  }

  lemma HalfwaySteps(cfg: Config, s: System, w: string, batch: seq<nat>, after: After, a: Attempt, k: nat)
    requires Known(s.g, batch) && k < |batch|
    ensures var m := Message(batch[k], s.g.stream[batch[k]]);
      Step(cfg, Step(cfg, Halfway(cfg, s, w, batch, after, a, k), Tick(TimeBefore(cfg, m, a))),
        Convert(w, m.id in a.fails))
      == Halfway(cfg, s, w, batch, after, a, k + 1)
  {
    var all := Fetch(s.g.stream, batch)[..k + 1];
    assert all[..k] == Fetch(s.g.stream, batch)[..k] && all[k] == Message(batch[k], s.g.stream[batch[k]]);
    var docs := Documents(cfg, all[..k], a.fails, a.waits, s.now);
    hide Step, Moved, ToDocument;
    var before := s.(now := TimeAfter(cfg, all[..k], a.waits, s.now));
    TickOnce(cfg, before, w, Converting(batch, k, docs, after), TimeBefore(cfg, all[k], a));
    ConvertOne(cfg, s.(now := TimeAfter(cfg, all, a.waits, s.now)), w, batch, after, a, k, docs);
  }

  lemma {:induction false} ConversionsRun(cfg: Config, s: System, w: string, batch: seq<nat>, after: After,
      a: Attempt, k: nat)
    requires w in s.workers && s.workers[w] == Converting(batch, 0, [], after) && Known(s.g, batch) && k <= |batch|
    ensures Exec(cfg, s, Conversions(cfg, w, Fetch(s.g.stream, batch)[..k], a))
      == Halfway(cfg, s, w, batch, after, a, k)
  {
    var messages := Fetch(s.g.stream, batch)[..k];
    if k == 0 {
      assert s.workers[w := s.workers[w]] == s.workers;
    } else {
      var init, m := messages[..k - 1], messages[k - 1];
      assert init == Fetch(s.g.stream, batch)[..k - 1] && m == Message(batch[k - 1], s.g.stream[batch[k - 1]]);
      hide Exec, Halfway, Step, Fetch;
      ConversionsRun(cfg, s, w, batch, after, a, k - 1);
      HalfwaySteps(cfg, s, w, batch, after, a, k - 1);
      var labels := Conversions(cfg, w, init, a);
      ExecThen(cfg, s, labels, Tick(TimeBefore(cfg, m, a)));
      ExecThen(cfg, s, labels + [Tick(TimeBefore(cfg, m, a))], Convert(w, m.id in a.fails));
    }
  }

  lemma BulkOnce(cfg: Config, s: System, w: string, batch: seq<nat>, after: After, docs: seq<Doc>, outcome: BulkOutcome)
    ensures Step(cfg, Moved(s, w, Converting(batch, |batch|, docs, after)), Bulk(w, outcome))
      == Moved(s.(es := Store(s.es, docs, outcome)), w, Acking(batch, after))
  {
    hide Store;
    MovedTwice(s.(es := Store(s.es, docs, outcome)), w, Converting(batch, |batch|, docs, after), Acking(batch, after));
  }

  lemma AckOnce(cfg: Config, s: System, w: string, batch: seq<nat>, after: After, ack: AckOutcome)
    ensures Step(cfg, Moved(s, w, Acking(batch, after)), XAck(w, ack))
      == Moved(s.(g := if ack == NotSent then s.g else Ack(s.g, Ids(batch))), w, Resume(after))
  {
    hide Ack;
    MovedTwice(s.(g := if ack == NotSent then s.g else Ack(s.g, Ids(batch))), w, Acking(batch, after), Resume(after));
  }

  // Processing a batch without interference is a run of conversions, one bulk call and one XACK.
  lemma AttemptIsRun(cfg: Config, s: System, w: string, batch: seq<nat>, after: After, a: Attempt)
    requires w in s.workers && s.workers[w] == Converting(batch, 0, [], after) && Known(s.g, batch)
    ensures Exec(cfg, s, AttemptLabels(cfg, w, Fetch(s.g.stream, batch), a))
      == Moved(With(s, AfterAttempt(cfg, SharedOf(s), batch, a)), w, Resume(after))
  {
    hide Exec, Step, Documents, Store, Ack, Moved, TimeAfter, Conversions;
    var messages := Fetch(s.g.stream, batch);
    ConversionsRun(cfg, s, w, batch, after, a, |batch|);
    assert messages[..|batch|] == messages;
    var labels := Conversions(cfg, w, messages, a);
    ExecThen(cfg, s, labels, Bulk(w, a.bulk));
    ExecThen(cfg, s, labels + [Bulk(w, a.bulk)], XAck(w, a.ack));
    var docs := Documents(cfg, messages, a.fails, a.waits, s.now);
    var later := s.(now := TimeAfter(cfg, messages, a.waits, s.now));
    BulkOnce(cfg, later, w, batch, after, docs, a.bulk);
    AckOnce(cfg, later.(es := Store(s.es, docs, a.bulk)), w, batch, after, a.ack);
  }

  lemma ExecOne(cfg: Config, s: System, l: Label)
    ensures Exec(cfg, s, [l]) == Step(cfg, s, l)
  {
    assert [l][..0] == [];
  }

  lemma ScanOnce(cfg: Config, s: System, w: string, replied: bool)
    requires PhaseOf(s, w) == Scanning
    ensures Exec(cfg, s, [Scan(w, replied)])
      == Moved(s, w, if !replied || Stale(s.g, s.now) == [] then Reading else Claiming(Stale(s.g, s.now)))
  {
    ExecOne(cfg, s, Scan(w, replied));
  }

  lemma ClaimOnce(cfg: Config, s: System, w: string, ids: seq<nat>, replied: bool)
    ensures Step(cfg, Moved(s, w, Claiming(ids)), XClaim(w, replied)) == ClaimStep(s, w, ids, replied)
  {
    var t := Moved(s, w, Claiming(ids));
    assert Step(cfg, t, XClaim(w, replied)) == ClaimStep(t, w, ids, replied);
    MovedTwice(s, w, Claiming(ids), ClaimStep(s, w, ids, replied).workers[w]);
  }

  lemma TickOnce(cfg: Config, s: System, w: string, p: Phase, ms: nat)
    ensures Step(cfg, Moved(s, w, p), Tick(ms)) == Moved(Later(s, ms), w, p)
  {
  }

  lemma ScanAndClaim(cfg: Config, s: System, w: string, pause: nat, replied: bool)
    requires PhaseOf(s, w) == Scanning && Stale(s.g, s.now) != []
    ensures Exec(cfg, s, [Scan(w, true)] + [Tick(pause)] + [XClaim(w, replied)])
      == ClaimStep(Later(s, pause), w, Stale(s.g, s.now), replied)
  {
    hide Exec, Stale, Step, ClaimStep, Moved;
    ScanOnce(cfg, s, w, true);
    ExecThen(cfg, s, [Scan(w, true)], Tick(pause));
    ExecThen(cfg, s, [Scan(w, true)] + [Tick(pause)], XClaim(w, replied));
    TickOnce(cfg, s, w, Claiming(Stale(s.g, s.now)), pause);
    ClaimOnce(cfg, Later(s, pause), w, Stale(s.g, s.now), replied);
  }

  // What the claim of a sweep leaves behind.
  lemma ClaimLeaves(s: System, w: string, pause: nat, replied: bool)
    requires Consistent(s.g)
    ensures var won, u := Won(s.g, s.now, s.now + pause), ClaimStep(Later(s, pause), w, Stale(s.g, s.now), replied);
      && u == Moved(With(s, AfterClaim(w, SharedOf(s), pause)), w,
                    if !replied || won == [] then Reading else Converting(won, 0, [], ThenRead))
      && u.g.stream == s.g.stream
  {
    hide Winners, Stale;
  }

  lemma UnclaimedIsRun(cfg: Config, s: System, w: string, v: Sweep)
    requires Consistent(s.g) && PhaseOf(s, w) == Scanning && Stale(s.g, s.now) != []
    requires !v.claimReplied || Won(s.g, s.now, s.now + v.pause) == []
    ensures Exec(cfg, s, [Scan(w, true)] + [Tick(v.pause)] + [XClaim(w, v.claimReplied)])
      == Moved(With(s, AfterClaim(w, SharedOf(s), v.pause)), w, Reading)
  {
    hide Exec, ClaimStep, Won, Stale, AfterClaim, Consistent;
    ScanAndClaim(cfg, s, w, v.pause, v.claimReplied);
    ClaimLeaves(s, w, v.pause, v.claimReplied);
  }

  lemma ClaimedAttemptIsRun(cfg: Config, s: System, w: string, v: Sweep)
    requires Consistent(s.g) && PhaseOf(s, w) == Scanning && Stale(s.g, s.now) != []
      && Won(s.g, s.now, s.now + v.pause) != []
    ensures var won := Won(s.g, s.now, s.now + v.pause);
      Exec(cfg, s, [Scan(w, true)] + [Tick(v.pause)] + [XClaim(w, true)]
        + AttemptLabels(cfg, w, Fetch(s.g.stream, won), v.attempt))
      == Moved(With(s, AfterAttempt(cfg, AfterClaim(w, SharedOf(s), v.pause), won, v.attempt)), w, Reading)
  {
    hide Exec, ClaimStep, AfterAttempt, AttemptLabels, Won, Stale, Consistent, Claim;
    var won := Won(s.g, s.now, s.now + v.pause);
    var x := AfterClaim(w, SharedOf(s), v.pause);
    var u := Moved(With(s, x), w, Converting(won, 0, [], ThenRead));
    ScanAndClaim(cfg, s, w, v.pause, true);
    ClaimLeaves(s, w, v.pause, true);
    var attempt := AttemptLabels(cfg, w, Fetch(s.g.stream, won), v.attempt);
    ExecConcat(cfg, s, [Scan(w, true)] + [Tick(v.pause)] + [XClaim(w, true)], attempt);
    assert SharedOf(u) == x;
    AttemptIsRun(cfg, u, w, won, ThenRead, v.attempt);
    MovedTwice(With(s, AfterAttempt(cfg, x, won, v.attempt)), w, Converting(won, 0, [], ThenRead), Reading);
  }

  // A sweep without interference is a run of the transition system.
  lemma SweepIsRun(cfg: Config, s: System, w: string, v: Sweep)
    requires Consistent(s.g) && PhaseOf(s, w) == Scanning
    ensures Exec(cfg, s, SweepLabels(cfg, w, SharedOf(s), v))
      == Moved(With(s, AfterSweep(cfg, w, SharedOf(s), v)), w, Reading)
  {
    hide Exec, AfterAttempt, AttemptLabels, Won, Stale, Consistent, AfterClaim;
    if !v.scanReplied || Stale(s.g, s.now) == [] {
      ScanOnce(cfg, s, w, v.scanReplied);
    } else if !v.claimReplied || Won(s.g, s.now, s.now + v.pause) == [] {
      UnclaimedIsRun(cfg, s, w, v);
    } else {
      ClaimedAttemptIsRun(cfg, s, w, v);
    }
  }

  // Any run that leaves the worker about to scan can be followed by a pause and a sweep.
  lemma ThenSweep(cfg: Config, s: System, run: seq<Label>, t: System, w: string, pause: nat, v: Sweep)
    requires Exec(cfg, s, run) == Moved(t, w, Scanning) && Consistent(t.g)
    ensures var later := Later(t, pause);
      Exec(cfg, s, run + [Tick(pause)] + SweepLabels(cfg, w, SharedOf(later), v))
      == Moved(With(t, AfterSweep(cfg, w, SharedOf(later), v)), w, Reading)
  {
    var later := Later(t, pause);
    ExecThen(cfg, s, run, Tick(pause));
    assert Exec(cfg, s, run + [Tick(pause)]) == Moved(later, w, Scanning);
    hide Exec, AfterSweep, SweepLabels, Consistent;
    var u := Moved(later, w, Scanning);
    ExecConcat(cfg, s, run + [Tick(pause)], SweepLabels(cfg, w, SharedOf(later), v));
    SweepIsRun(cfg, u, w, v);
    MovedTwice(With(t, AfterSweep(cfg, w, SharedOf(later), v)), w, Scanning, Reading);
  }

  function TurnLabels(cfg: Config, w: string, x: Shared, t: Turn): seq<Label>
    requires Consistent(x.g)
  {
    var ids := NextIds(x.g, cfg.batchSize);
    var read := AfterRead(cfg, w, x);
    assert forall i :: 0 <= i < |ids| ==> ids[i] in ids;
    if !t.readReplied then [Read(w, false)]
    else if ids == [] then [Read(w, true)] + [Tick(t.pause)] + SweepLabels(cfg, w, Paused(read, t.pause), t.sweep)
    else
      [Read(w, true)] + AttemptLabels(cfg, w, Fetch(x.g.stream, ids), t.attempt)
      + [Tick(t.pause)] + SweepLabels(cfg, w, Paused(AfterAttempt(cfg, read, ids, t.attempt), t.pause), t.sweep)
  }

  lemma ReadOnce(cfg: Config, s: System, w: string, replied: bool)
    requires PhaseOf(s, w) == Reading
    ensures Exec(cfg, s, [Read(w, replied)]) == ReadStep(cfg, s, w, replied)
  {
    ExecOne(cfg, s, Read(w, replied));
  }

  lemma ReadAndAttempt(cfg: Config, s: System, w: string, a: Attempt)
    requires Consistent(s.g) && PhaseOf(s, w) == Reading && NextIds(s.g, cfg.batchSize) != []
    requires Known(s.g, NextIds(s.g, cfg.batchSize))
    ensures var ids := NextIds(s.g, cfg.batchSize);
      Exec(cfg, s, [Read(w, true)] + AttemptLabels(cfg, w, Fetch(s.g.stream, ids), a))
      == Moved(With(s, AfterAttempt(cfg, AfterRead(cfg, w, SharedOf(s)), ids, a)), w, Scanning)
  {
    var ids := NextIds(s.g, cfg.batchSize);
    var u := ReadStep(cfg, s, w, true);
    ReadOnce(cfg, s, w, true);
    assert u.workers[w] == Converting(ids, 0, [], ThenScan) && SharedOf(u) == AfterRead(cfg, w, SharedOf(s));
    hide Exec, AfterAttempt, AttemptLabels, NextIds;
    ExecConcat(cfg, s, [Read(w, true)], AttemptLabels(cfg, w, Fetch(s.g.stream, ids), a));
    AttemptIsRun(cfg, u, w, ids, ThenScan, a);
    MovedTwice(With(s, AfterAttempt(cfg, SharedOf(u), ids, a)), w, Converting(ids, 0, [], ThenScan), Scanning);
  }

  lemma ReadIsConsistent(cfg: Config, w: string, x: Shared)
    requires Consistent(x.g)
    ensures Consistent(AfterRead(cfg, w, x).g) && AfterRead(cfg, w, x).g.stream == x.g.stream
  {
  }

  lemma AttemptIsConsistent(cfg: Config, x: Shared, batch: seq<nat>, a: Attempt)
    requires Consistent(x.g) && Known(x.g, batch)
    ensures Consistent(AfterAttempt(cfg, x, batch, a).g)
  {
    hide Documents, Store, TimeAfter;
  }

  lemma IdleTurnIsRun(cfg: Config, s: System, w: string, t: Turn)
    requires Consistent(s.g) && PhaseOf(s, w) == Reading && NextIds(s.g, cfg.batchSize) == []
    ensures var later := Paused(AfterRead(cfg, w, SharedOf(s)), t.pause);
      && Consistent(later.g)
      && Exec(cfg, s, [Read(w, true)] + [Tick(t.pause)] + SweepLabels(cfg, w, later, t.sweep))
         == Moved(With(s, AfterSweep(cfg, w, later, t.sweep)), w, Reading)
  {
    hide Exec, AfterSweep, SweepLabels, Consistent, ReadGroup, NextIds;
    ReadOnce(cfg, s, w, true);
    ReadIsConsistent(cfg, w, SharedOf(s));
    var u := With(s, AfterRead(cfg, w, SharedOf(s)));
    ThenSweep(cfg, s, [Read(w, true)], u, w, t.pause, t.sweep);
  }

  lemma BusyTurnIsRun(cfg: Config, s: System, w: string, t: Turn)
    requires Consistent(s.g) && PhaseOf(s, w) == Reading && NextIds(s.g, cfg.batchSize) != []
    requires Known(s.g, NextIds(s.g, cfg.batchSize))
    ensures var ids := NextIds(s.g, cfg.batchSize);
      && Known(AfterRead(cfg, w, SharedOf(s)).g, ids)
      && var later := Paused(AfterAttempt(cfg, AfterRead(cfg, w, SharedOf(s)), ids, t.attempt), t.pause);
      && Consistent(later.g)
      && Exec(cfg, s, [Read(w, true)] + AttemptLabels(cfg, w, Fetch(s.g.stream, ids), t.attempt) + [Tick(t.pause)]
                      + SweepLabels(cfg, w, later, t.sweep))
         == Moved(With(s, AfterSweep(cfg, w, later, t.sweep)), w, Reading)
  {
    hide Exec, AfterSweep, SweepLabels, AfterAttempt, AttemptLabels, Consistent, AfterRead, NextIds;
    var ids, read := NextIds(s.g, cfg.batchSize), AfterRead(cfg, w, SharedOf(s));
    ReadIsConsistent(cfg, w, SharedOf(s));
    AttemptIsConsistent(cfg, read, ids, t.attempt);
    ReadAndAttempt(cfg, s, w, t.attempt);
    var u := With(s, AfterAttempt(cfg, read, ids, t.attempt));
    var attempt := AttemptLabels(cfg, w, Fetch(s.g.stream, ids), t.attempt);
    ThenSweep(cfg, s, [Read(w, true)] + attempt, u, w, t.pause, t.sweep);
  }

  // One turn of the loop without interference is a run of the transition system that comes back to its start.
  lemma TurnIsRun(cfg: Config, s: System, w: string, t: Turn)
    requires Consistent(s.g) && PhaseOf(s, w) == Reading
    ensures Exec(cfg, s, TurnLabels(cfg, w, SharedOf(s), t))
      == Moved(With(s, AfterTurn(cfg, w, SharedOf(s), t)), w, Reading)
  {
    var ids := NextIds(s.g, cfg.batchSize);
    assert forall i :: 0 <= i < |ids| ==> ids[i] in ids;
    hide Exec, AfterSweep, SweepLabels, AfterAttempt, AttemptLabels, ReadGroup, NextIds, Fetch;
    if !t.readReplied {
      ReadOnce(cfg, s, w, false);
    } else if ids == [] {
      IdleTurnIsRun(cfg, s, w, t);
    } else {
      BusyTurnIsRun(cfg, s, w, t);
    }
  }

  // ---------------------------------------------------------------- draining

  ghost predicate AllIdle(g: Group, now: nat) {
    forall id :: id in g.pending ==> now > g.pending[id].at + 60_000
  }

  lemma {:induction false} WinnersOfAll(g: Group, ids: seq<nat>, minIdle: nat, now: nat)
    requires forall id :: id in ids ==> Claimable(g, id, minIdle, now)
    ensures Winners(g, ids, minIdle, now) == ids
  {
    if ids != [] {
      assert ids == ids[..|ids| - 1] + [ids[|ids| - 1]];
      WinnersOfAll(g, ids[..|ids| - 1], minIdle, now);
    }
  }

  lemma {:induction false} AscendingCard(ids: seq<nat>)
    requires forall i, j :: 0 <= i < j < |ids| ==> ids[i] < ids[j]
    ensures |Ids(ids)| == |ids|
  {
    if ids != [] {
      var init, last := ids[..|ids| - 1], ids[|ids| - 1];
      AscendingCard(init);
      assert Ids(ids) == Ids(init) + {last};
    }
  }

  // XPENDING lists min(100, n) of the n pending entries, and these come before all the others in the stream.
  lemma ScanSeesOldest(g: Group)
    requires Consistent(g)
    ensures |PendingRange(g, PENDING_COUNT)| == |Ids(PendingRange(g, PENDING_COUNT))| == Min(100, |g.pending|)
    ensures var listed := PendingRange(g, PENDING_COUNT);
      forall i, j :: i in listed && j in g.pending && j !in listed ==> i < j
  {
    var all := PendingBelow(g.pending, g.cursor);
    AscendingCard(all);
    assert Ids(all) == g.pending.Keys;
    AscendingCard(PendingRange(g, PENDING_COUNT));
    assert |g.pending.Keys| == |g.pending|;
  }

  lemma IdleIsWon(g: Group, now: nat, claimed: nat)
    requires Consistent(g) && AllIdle(g, now) && now <= claimed
    ensures Stale(g, now) == Won(g, now, claimed) == PendingRange(g, PENDING_COUNT)
    ensures Winners(g, PendingRange(g, PENDING_COUNT), MIN_IDLE_MS, claimed) == PendingRange(g, PENDING_COUNT)
  {
    WinnersOfAll(g, PendingRange(g, PENDING_COUNT), MIN_IDLE_MS + 1, now);
    WinnersOfAll(g, PendingRange(g, PENDING_COUNT), MIN_IDLE_MS, claimed);
  }

  lemma OverwriteThenRemove(m: map<nat, Delivery>, n: map<nat, Delivery>)
    ensures (m + n) - n.Keys == m - n.Keys
    ensures n.Keys <= m.Keys ==> (m + n).Keys * n.Keys == n.Keys
  {
  }

  lemma ClaimThenAck(g: Group, w: string, ids: seq<nat>, now: nat)
    requires Ids(ids) <= g.pending.Keys && Winners(g, ids, MIN_IDLE_MS, now) == ids
    ensures Ack(Claim(g, w, ids, MIN_IDLE_MS, now), Ids(ids))
      == g.(pending := g.pending - Ids(ids), acked := g.acked + Ids(ids))
  {
    var claims := map id | id in Ids(ids) :: Delivery(w, now);
    assert claims.Keys == Ids(ids);
    OverwriteThenRemove(g.pending, claims);
  }

  lemma {:induction false} TimeGrows(cfg: Config, messages: seq<Message>, waits: map<nat, nat>, now: nat)
    ensures TimeAfter(cfg, messages, waits, now) >= now
  {
    if messages != [] {
      TimeGrows(cfg, messages[..|messages| - 1], waits, now);
    }
  }

  // When everything pending is idle for more than 60 seconds, an error-free sweep acknowledges exactly the
  // oldest min(100, n) entries, whatever its conversions and its bulk call do.
  lemma SweepTakesOldest(cfg: Config, w: string, x: Shared, v: Sweep)
    requires Consistent(x.g) && AllIdle(x.g, x.now) && v.scanReplied && v.claimReplied && v.attempt.ack == Acknowledged
    ensures var first := Ids(PendingRange(x.g, PENDING_COUNT)); var y := AfterSweep(cfg, w, x, v);
      y.g == x.g.(pending := x.g.pending - first, acked := x.g.acked + first) && y.now >= x.now
  {
    hide Stale, PendingRange, AfterSweep, Won, Winners, AllIdle, Consistent;
    var ids := PendingRange(x.g, PENDING_COUNT);
    IdleIsWon(x.g, x.now, x.now + v.pause);
    if ids == [] {
      assert x.g.pending - {} == x.g.pending && x.g.acked + {} == x.g.acked;
      assert Ids(ids) == {};
      NothingToSweep(cfg, w, x, v);
    } else {
      SweepTakes(cfg, w, x, v, ids);
    }
  }

  lemma NothingToSweep(cfg: Config, w: string, x: Shared, v: Sweep)
    requires Consistent(x.g) && Stale(x.g, x.now) == []
    ensures AfterSweep(cfg, w, x, v) == x
  {
  }

  lemma SweepTakes(cfg: Config, w: string, x: Shared, v: Sweep, ids: seq<nat>)
    requires Consistent(x.g) && v.scanReplied && v.claimReplied && v.attempt.ack == Acknowledged
    requires ids != [] && Stale(x.g, x.now) == Won(x.g, x.now, x.now + v.pause) == ids && Ids(ids) <= x.g.pending.Keys
    requires Winners(x.g, ids, MIN_IDLE_MS, x.now + v.pause) == ids
    ensures var y := AfterSweep(cfg, w, x, v);
      y.g == x.g.(pending := x.g.pending - Ids(ids), acked := x.g.acked + Ids(ids)) && y.now >= x.now
  {
    hide Claim, Ack, Stale, Won, AfterAttempt, Winners, Consistent, AfterSweep, AfterClaim, Ids, Known;
    SweepProcesses(cfg, w, x, v, ids);
    AttemptAcks(cfg, AfterClaim(w, x, v.pause), ids, v.attempt);
    ClaimThenAck(x.g, w, ids, x.now + v.pause);
  }

  lemma SweepProcesses(cfg: Config, w: string, x: Shared, v: Sweep, ids: seq<nat>)
    requires Consistent(x.g) && v.scanReplied && v.claimReplied
    requires ids != [] && Stale(x.g, x.now) == Won(x.g, x.now, x.now + v.pause) == ids
    ensures var claimed := AfterClaim(w, x, v.pause);
      claimed.g == Claim(x.g, w, ids, MIN_IDLE_MS, x.now + v.pause) && claimed.now >= x.now && Known(claimed.g, ids)
    ensures AfterSweep(cfg, w, x, v) == AfterAttempt(cfg, AfterClaim(w, x, v.pause), ids, v.attempt)
  {
    hide Stale, Won, AfterAttempt, Winners, Consistent;
  }

  lemma AttemptAcks(cfg: Config, x: Shared, batch: seq<nat>, a: Attempt)
    requires Known(x.g, batch) && a.ack == Acknowledged
    ensures AfterAttempt(cfg, x, batch, a).g == Ack(x.g, Ids(batch)) && AfterAttempt(cfg, x, batch, a).now >= x.now
  {
    TimeGrows(cfg, Fetch(x.g.stream, batch), a.waits, x.now);
  }

  // One error-free turn of an otherwise idle system: a pause, a read that finds nothing, a pause, a sweep.
  datatype Round = Round(pause: nat, beforeSweep: nat, beforeClaim: nat, fails: set<nat>, bulk: BulkOutcome,
    waits: map<nat, nat>)

  function SweepOf(r: Round): Sweep {
    Sweep(true, r.beforeClaim, true, Attempt(r.fails, r.bulk, Acknowledged, r.waits))
  }

  function RoundLabels(cfg: Config, w: string, s: System, r: Round): seq<Label>
    requires Consistent(s.g)
  {
    [Tick(r.pause)] + [Read(w, true)] + [Tick(r.beforeSweep)]
    + SweepLabels(cfg, w, SharedOf(Later(Later(s, r.pause), r.beforeSweep)), SweepOf(r))
  }

  ghost predicate Quiet(s: System, w: string) {
    Consistent(s.g) && s.g.cursor == |s.g.stream| && AllIdle(s.g, s.now) && PhaseOf(s, w) == Reading
  }

  lemma RoundStarts(cfg: Config, s: System, w: string, pause: nat)
    requires Quiet(s, w)
    ensures Exec(cfg, s, [Tick(pause)] + [Read(w, true)]) == Moved(s.(now := s.now + pause), w, Scanning)
  {
    var t := s.(now := s.now + pause);
    ExecConcat(cfg, s, [Tick(pause)], [Read(w, true)]);
    ExecOne(cfg, s, Tick(pause));
    ExecOne(cfg, t, Read(w, true));
    assert NextIds(s.g, cfg.batchSize) == [];
    assert ReadGroup(s.g, w, cfg.batchSize, t.now) == s.g;
  }

  lemma RemovalCard(pending: map<nat, Delivery>, ids: set<nat>)
    requires ids <= pending.Keys
    ensures |pending - ids| == |pending| - |ids|
  {
    assert (pending - ids).Keys == pending.Keys - ids;
    assert |pending - ids| == |(pending - ids).Keys| && |pending| == |pending.Keys|;
  }

  lemma RoundTakesOldest(cfg: Config, s: System, w: string, r: Round)
    requires Quiet(s, w)
    ensures var first := Ids(PendingRange(s.g, PENDING_COUNT)); var t := Exec(cfg, s, RoundLabels(cfg, w, s, r));
      && Quiet(t, w)
      && t.g == s.g.(pending := s.g.pending - first, acked := s.g.acked + first)
      && |t.g.pending| == |s.g.pending| - Min(PENDING_COUNT, |s.g.pending|)
  {
    assert Consistent(s.g);
    hide Exec, RoundLabels, PendingRange, Ids, Quiet, AfterSweep;
    ListedIsPending(s.g);
    ScanSeesOldest(s.g);
    RemovalCard(s.g.pending, Ids(PendingRange(s.g, PENDING_COUNT)));
    RoundTakes(cfg, s, w, r);
  }

  lemma RoundTakes(cfg: Config, s: System, w: string, r: Round)
    requires Quiet(s, w)
    ensures var first := Ids(PendingRange(s.g, PENDING_COUNT)); var t := Exec(cfg, s, RoundLabels(cfg, w, s, r));
      Quiet(t, w) && t.g == s.g.(pending := s.g.pending - first, acked := s.g.acked + first)
  {
    hide Exec, AfterSweep, RoundLabels, PendingRange, Ids;
    var x := SharedOf(Later(Later(s, r.pause), r.beforeSweep));
    RoundRuns(cfg, s, w, r);
    SweepTakesOldest(cfg, w, x, SweepOf(r));
    ListedIsPending(s.g);
    StaysQuiet(s, Exec(cfg, s, RoundLabels(cfg, w, s, r)), w, Ids(PendingRange(s.g, PENDING_COUNT)));
  }

  lemma ListedIsPending(g: Group)
    ensures Ids(PendingRange(g, PENDING_COUNT)) <= g.pending.Keys
  {
  }

  lemma StaysQuiet(s: System, t: System, w: string, first: set<nat>)
    requires Quiet(s, w) && first <= s.g.pending.Keys && t.now >= s.now && PhaseOf(t, w) == Reading
    requires t.g == s.g.(pending := s.g.pending - first, acked := s.g.acked + first)
    ensures Quiet(t, w)
  {
  }

  lemma RoundRuns(cfg: Config, s: System, w: string, r: Round)
    requires Quiet(s, w)
    ensures Exec(cfg, s, RoundLabels(cfg, w, s, r))
      == Moved(With(s, AfterSweep(cfg, w, SharedOf(Later(Later(s, r.pause), r.beforeSweep)), SweepOf(r))), w, Reading)
  {
    hide Exec, AfterSweep, SweepLabels;
    RoundStarts(cfg, s, w, r.pause);
    ThenSweep(cfg, s, [Tick(r.pause)] + [Read(w, true)], Later(s, r.pause), w, r.beforeSweep, SweepOf(r));
  }

  function DrainLabels(cfg: Config, w: string, s: System, rounds: seq<Round>): seq<Label>
    requires Quiet(s, w)
    decreases |rounds|
  {
    if rounds == [] then []
    else
      var head := RoundLabels(cfg, w, s, rounds[0]);
      RoundTakesOldest(cfg, s, w, rounds[0]);
      head + DrainLabels(cfg, w, Exec(cfg, s, head), rounds[1..])
  }

  // The drain measure: with nothing else going on, k error-free turns leave n - 100 k of n idle pending entries,
  // and none as soon as 100 k >= n, so ceil(n / 100) turns empty the list and no fewer do.
  lemma {:induction false} TurnsDrain(cfg: Config, w: string, s: System, rounds: seq<Round>)
    requires Quiet(s, w)
    ensures var t := Exec(cfg, s, DrainLabels(cfg, w, s, rounds));
      && |t.g.pending| == (if 100 * |rounds| >= |s.g.pending| then 0 else |s.g.pending| - 100 * |rounds|)
      && t.g.acked == s.g.acked + (s.g.pending.Keys - t.g.pending.Keys)
      && t.g.pending.Keys <= s.g.pending.Keys
    decreases |rounds|
  {
    assert Consistent(s.g);
    hide RoundLabels, PendingRange, Quiet, Consistent;
    if rounds == [] {
      assert s.g.acked + (s.g.pending.Keys - s.g.pending.Keys) == s.g.acked;
    } else {
      var head := RoundLabels(cfg, w, s, rounds[0]);
      var u := Exec(cfg, s, head);
      RoundTakesOldest(cfg, s, w, rounds[0]);
      TurnsDrain(cfg, w, u, rounds[1..]);
      ExecConcat(cfg, s, head, DrainLabels(cfg, w, u, rounds[1..]));
      var t := Exec(cfg, u, DrainLabels(cfg, w, u, rounds[1..]));
      TakenAdds(s.g, Ids(PendingRange(s.g, PENDING_COUNT)), t.g.pending.Keys);
    }
  }

  lemma TakenAdds(g: Group, first: set<nat>, rest: set<nat>)
    requires first <= g.pending.Keys && rest <= (g.pending - first).Keys
    ensures (g.acked + first) + ((g.pending - first).Keys - rest) == g.acked + (g.pending.Keys - rest)
    ensures rest <= g.pending.Keys
  {
  }
}
