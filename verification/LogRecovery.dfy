// When the recovery of failed workers finds an entry, and how it can miss one for ever.
module LogRecovery {
  import opened Wrappers
  import opened ConsumerGroup
  import opened LogDocuments
  import opened LogPipeline
  import opened LogGuarantees
  import opened LogSweep
  import opened LogConditions

  // The pending entries that come before an entry.
  function Older(g: Group, id: nat): set<nat> {
    set x | x in g.pending && x < id
  }

  lemma SmallerSet(a: set<nat>, b: set<nat>)
    requires a <= b
    ensures |a| <= |b|
  {
    assert b == a + (b - a) && a !! (b - a);
  }

  // Of some entries the oldest 100 are listed: an entry is among them exactly when fewer than 100 are older.
  lemma ListedIffFewOlder(pending: set<nat>, listed: set<nat>, older: set<nat>, id: nat)
    requires listed <= pending && id in pending && |listed| == Min(PENDING_COUNT, |pending|)
    requires forall i, j :: i in listed && j in pending && j !in listed ==> i < j
    requires forall x :: x in older <==> x in pending && x < id
    ensures id in listed <==> |older| < PENDING_COUNT
  {
    if id in listed {
      SmallerSet(older, listed - {id});
    } else {
      SmallerSet(listed, older);
      SmallerSet(listed + {id}, pending);
    }
  }

  lemma ScannedIffFewOlder(g: Group, id: nat)
    requires Consistent(g) && id in g.pending
    ensures id in PendingRange(g, PENDING_COUNT) <==> |Older(g, id)| < 100
  {
    ScanSeesOldest(g);
    ListedIsPending(g);
    assert |g.pending.Keys| == |g.pending|;
    assert forall x :: x in Older(g, id) <==> x in g.pending.Keys && x < id;
    hide PendingRange, Older, Consistent, Ids;
    ListedIffFewOlder(g.pending.Keys, Ids(PendingRange(g, PENDING_COUNT)), Older(g, id), id);
  }

  // A sweep finds an entry exactly when it has been idle for more than 60 seconds and fewer than 100 pending
  // entries come before it, idle or not.
  lemma FoundIffFewOlder(g: Group, id: nat, now: nat)
    requires Consistent(g) && id in g.pending
    ensures id in Stale(g, now) <==> now > g.pending[id].at + 60_000 && |Older(g, id)| < 100
  {
    ScannedIffFewOlder(g, id);
    hide PendingRange, Older, Consistent, StaleIds;
  }

  // What a scan finds stale is still won by a claim that follows, if nobody interferes.
  lemma StaleIsWon(g: Group, now: nat, claimed: nat)
    requires Consistent(g) && now <= claimed
    ensures var stale := Stale(g, now);
      && Won(g, now, claimed) == Winners(g, stale, MIN_IDLE_MS, claimed) == stale
      && forall id :: id in stale ==> id in g.pending
  {
    WinnersOfAll(g, Stale(g, now), MIN_IDLE_MS, claimed);
  }

  // An error-free sweep acknowledges an entry exactly under this condition, whatever else is pending.
  lemma RecoveredIffFound(cfg: Config, w: string, x: Shared, v: Sweep, id: nat)
    requires Consistent(x.g) && id in x.g.pending && v.scanReplied && v.claimReplied && v.attempt.ack != NotSent
    ensures id in AfterSweep(cfg, w, x, v).g.acked
      <==> x.now > x.g.pending[id].at + 60_000 && |Older(x.g, id)| < 100
  {
    hide Stale, Won, AfterSweep, Older, Winners, Consistent, Claim, AfterAttempt, Known;
    FoundIffFewOlder(x.g, id, x.now);
    SweepAcksStale(cfg, w, x, v, Stale(x.g, x.now), id);
  }

  lemma SweepAcksStale(cfg: Config, w: string, x: Shared, v: Sweep, stale: seq<nat>, id: nat)
    requires Consistent(x.g) && id in x.g.pending && v.scanReplied && v.claimReplied && v.attempt.ack != NotSent
    requires stale == Stale(x.g, x.now)
    ensures id in AfterSweep(cfg, w, x, v).g.acked <==> id in stale
  {
    hide Stale, Won, AfterSweep, Winners, Consistent, Claim, AfterAttempt, Known, AfterClaim;
    PendingIsNotAcked(x.g, id);
    if stale == [] {
      NothingToSweep(cfg, w, x, v);
    } else {
      StaleIsWon(x.g, x.now, x.now + v.pause);
      SweepAcksClaimed(cfg, w, x, v, stale);
    }
  }

  lemma SweepAcksClaimed(cfg: Config, w: string, x: Shared, v: Sweep, stale: seq<nat>)
    requires Consistent(x.g) && v.scanReplied && v.claimReplied && v.attempt.ack != NotSent
    requires stale != [] && Stale(x.g, x.now) == Won(x.g, x.now, x.now + v.pause) == stale
    requires Winners(x.g, stale, MIN_IDLE_MS, x.now + v.pause) == stale
    requires forall id :: id in stale ==> id in x.g.pending
    ensures forall id: nat :: id in AfterSweep(cfg, w, x, v).g.acked <==> (id in x.g.acked || id in stale)
  {
    hide Stale, Won, AfterSweep, Winners, Consistent, Claim, AfterAttempt, Known, AfterClaim;
    SweepProcesses(cfg, w, x, v, stale);
    ClaimKeepsPending(x.g, w, stale, x.now + v.pause);
    AttemptAcksMembers(cfg, AfterClaim(w, x, v.pause), stale, v.attempt);
  }

  lemma PendingIsNotAcked(g: Group, id: nat)
    requires Consistent(g) && id in g.pending
    ensures id !in g.acked
  {
  }

  lemma ClaimKeepsPending(g: Group, w: string, ids: seq<nat>, now: nat)
    requires (forall id :: id in ids ==> id in g.pending) && Winners(g, ids, MIN_IDLE_MS, now) == ids
    ensures Claim(g, w, ids, MIN_IDLE_MS, now).pending.Keys == g.pending.Keys
    ensures Claim(g, w, ids, MIN_IDLE_MS, now).acked == g.acked
  {
    hide Winners;
  }

  lemma AttemptAcksMembers(cfg: Config, x: Shared, batch: seq<nat>, a: Attempt)
    requires Known(x.g, batch) && a.ack != NotSent
    ensures forall id: nat :: id in AfterAttempt(cfg, x, batch, a).g.acked <==>
      (id in x.g.acked || (id in batch && id in x.g.pending))
  {
    hide Documents, Store, TimeAfter;
  }

  // ---------------------------------------------------------------- an entry that is passed over

  // Everything is delivered and idle, and the entry has 100 older ones before it.
  ghost predicate Starving(s: System, w: string, id: nat) {
    Quiet(s, w) && id in s.g.pending && |Older(s.g, id)| >= 100
  }

  lemma {:induction false} NoWaits(cfg: Config, messages: seq<Message>, now: nat)
    ensures TimeAfter(cfg, messages, map[], now) == now
  {
    if messages != [] {
      NoWaits(cfg, messages[..|messages| - 1], now);
    }
  }

  // A turn that claims the oldest 100 entries and does not get to acknowledge them.
  lemma UnackedTurnClaims(cfg: Config, x: Shared, w: string)
    requires Consistent(x.g) && x.g.cursor == |x.g.stream| && AllIdle(x.g, x.now) && x.g.pending != map[]
    ensures var y := AfterTurn(cfg, w, x, UnackedTurn());
      y.g == Claim(x.g, w, PendingRange(x.g, PENDING_COUNT), MIN_IDLE_MS, x.now) && y.now == x.now
  {
    var ids := PendingRange(x.g, PENDING_COUNT);
    hide Stale, Won, AfterSweep, PendingRange, Claim, NextIds, AfterRead, Consistent, AllIdle, AfterAttempt, Winners;
    ReadsNothing(cfg, x, w);
    IdleIsWon(x.g, x.now, x.now);
    SomethingListed(x.g);
    SweepProcesses(cfg, w, x, UnackedTurn().sweep, ids);
    UnackedAttempt(cfg, AfterClaim(w, x, 0), ids);
  }

  lemma SomethingListed(g: Group)
    requires Consistent(g) && g.pending != map[]
    ensures PendingRange(g, PENDING_COUNT) != []
  {
    ScanSeesOldest(g);
    assert |g.pending| > 0;
  }

  lemma UnackedAttempt(cfg: Config, x: Shared, ids: seq<nat>)
    requires Known(x.g, ids)
    ensures AfterAttempt(cfg, x, ids, UnackedTurn().attempt).g == x.g
    ensures AfterAttempt(cfg, x, ids, UnackedTurn().attempt).now == x.now
  {
    NoWaits(cfg, Fetch(x.g.stream, ids), x.now);
  }

  // What a claim of the listed entries leaves.
  lemma ClaimLeavesOthers(g: Group, w: string, id: nat, now: nat)
    requires Consistent(g) && AllIdle(g, now) && id in g.pending && |Older(g, id)| >= PENDING_COUNT
    ensures var h := Claim(g, w, PendingRange(g, PENDING_COUNT), MIN_IDLE_MS, now);
      && h.pending.Keys == g.pending.Keys && h.pending[id] == g.pending[id]
      && h.acked == g.acked && h.cursor == g.cursor && h.stream == g.stream
      && forall x :: x in h.pending ==> h.pending[x].at <= now
  {
    ScannedIffFewOlder(g, id);
    IdleIsWon(g, now, now);
    hide Stale, PendingRange, Won, Winners, Older, Consistent;
    var listed := PendingRange(g, PENDING_COUNT);
    ListedIsPending(g);
    OthersStay(g, w, listed, id, now);
  }

  lemma OthersStay(g: Group, w: string, listed: seq<nat>, id: nat, now: nat)
    requires Ids(listed) <= g.pending.Keys && AllIdle(g, now) && id in g.pending && id !in listed
    requires Winners(g, listed, MIN_IDLE_MS, now) == listed
    ensures var h := Claim(g, w, listed, MIN_IDLE_MS, now);
      && h.pending.Keys == g.pending.Keys && h.pending[id] == g.pending[id]
      && h.acked == g.acked && h.cursor == g.cursor && h.stream == g.stream
      && forall x :: x in h.pending ==> h.pending[x].at <= now
  {
    hide Winners;
  }

  const PAUSE: nat := MIN_IDLE_MS + 1

  function StarvedTurn(cfg: Config, w: string, s: System): seq<Label>
    requires Consistent(s.g)
  {
    TurnLabels(cfg, w, SharedOf(s), UnackedTurn()) + [Tick(PAUSE)]
  }

  lemma StarvedTurnRuns(cfg: Config, s: System, w: string, id: nat)
    requires Starving(s, w, id)
    ensures var t := Exec(cfg, s, StarvedTurn(cfg, w, s));
      Starving(t, w, id) && t.g.pending[id] == s.g.pending[id] && t.now == s.now + PAUSE && t.g.acked == s.g.acked
  {
    var x := SharedOf(s);
    var run := TurnLabels(cfg, w, x, UnackedTurn());
    var h := Claim(s.g, w, PendingRange(s.g, PENDING_COUNT), MIN_IDLE_MS, s.now);
    assert s.g.pending != map[];
    TurnIsRun(cfg, s, w, UnackedTurn());
    UnackedTurnClaims(cfg, x, w);
    ClaimLeavesOthers(s.g, w, id, s.now);
    ExecThen(cfg, s, run, Tick(PAUSE));
    hide Exec, TurnLabels, AfterTurn, PendingRange, Claim, Starving, Step;
    TickAfter(cfg, Exec(cfg, s, run), w, PAUSE);
    StarvesOn(s, Exec(cfg, s, StarvedTurn(cfg, w, s)), w, id, h);
  }

  lemma TickAfter(cfg: Config, s: System, w: string, ms: nat)
    ensures var t := Step(cfg, s, Tick(ms)); t.g == s.g && t.now == s.now + ms && PhaseOf(t, w) == PhaseOf(s, w)
  {
  }

  lemma StarvesOn(s: System, t: System, w: string, id: nat, h: Group)
    requires Starving(s, w, id) && t.g == h && t.now == s.now + PAUSE && PhaseOf(t, w) == Reading
    requires h.pending.Keys == s.g.pending.Keys && h.pending[id] == s.g.pending[id]
    requires h.acked == s.g.acked && h.cursor == s.g.cursor && h.stream == s.g.stream
    requires forall x :: x in h.pending ==> h.pending[x].at <= s.now
    ensures Starving(t, w, id)
  {
    assert Older(t.g, id) == Older(s.g, id);
  }

  // k such turns, each more than 60 seconds after the one before.
  function StarvedTurns(cfg: Config, w: string, s: System, id: nat, k: nat): seq<Label>
    requires Starving(s, w, id)
    decreases k
  {
    if k == 0 then []
    else
      StarvedTurnRuns(cfg, s, w, id);
      var head := StarvedTurn(cfg, w, s);
      head + StarvedTurns(cfg, w, Exec(cfg, s, head), id, k - 1)
  }

  // From such a state, for every k there is a run of k turns, all of which find, claim and process 100 idle
  // entries, that never delivers the entry again.
  lemma {:induction false} StarvationLasts(cfg: Config, s: System, w: string, id: nat, k: nat)
    requires Starving(s, w, id)
    ensures Starved(s, Exec(cfg, s, StarvedTurns(cfg, w, s, id, k)), w, id, k)
    decreases k
  {
    hide Exec, Starving, Starved, StarvedTurns, StarvedTurn, Step;
    if k == 0 {
      NotYetStarved(cfg, s, w, id);
    } else {
      NextTurn(cfg, s, w, id, k);
      var u := Exec(cfg, s, StarvedTurn(cfg, w, s));
      StarvationLasts(cfg, u, w, id, k - 1);
      ExecConcat(cfg, s, StarvedTurn(cfg, w, s), StarvedTurns(cfg, w, u, id, k - 1));
      OneMoreTurn(s, u, Exec(cfg, u, StarvedTurns(cfg, w, u, id, k - 1)), w, id, k);
    }
  }

  lemma NextTurn(cfg: Config, s: System, w: string, id: nat, k: nat)
    requires Starving(s, w, id) && k > 0
    ensures Consistent(s.g) && var head := StarvedTurn(cfg, w, s); var u := Exec(cfg, s, head);
      && Starving(u, w, id) && Starved(s, u, w, id, 1)
      && StarvedTurns(cfg, w, s, id, k) == head + StarvedTurns(cfg, w, u, id, k - 1)
  {
    StarvedTurnRuns(cfg, s, w, id);
    hide Exec, StarvedTurn;
  }

  // The entry is as it was k pauses ago, and nothing has been acknowledged since.
  ghost predicate Starved(s: System, t: System, w: string, id: nat, k: nat)
    requires Starving(s, w, id)
  {
    && Starving(t, w, id) && t.g.pending[id] == s.g.pending[id]
    && t.now == s.now + k * PAUSE && t.g.acked == s.g.acked
  }

  lemma NotYetStarved(cfg: Config, s: System, w: string, id: nat)
    requires Starving(s, w, id)
    ensures Starved(s, Exec(cfg, s, StarvedTurns(cfg, w, s, id, 0)), w, id, 0)
  {
  }

  lemma OneMoreTurn(s: System, u: System, t: System, w: string, id: nat, k: nat)
    requires Starving(s, w, id) && Starving(u, w, id) && k > 0 && Starved(u, t, w, id, k - 1) && Starved(s, u, w, id, 1)
    ensures Starved(s, t, w, id, k)
  {
    assert k * PAUSE == PAUSE + (k - 1) * PAUSE;
  }

  // ---------------------------------------------------------------- how such a state comes about

  // n messages arrive.
  function Arrivals(f: Fields, n: nat): seq<Label> {
    if n == 0 then [] else Arrivals(f, n - 1) + [Append(f)]
  }

  // A run continued by a worker that reads n times, and crashes each time.
  function WithCrashes(run: seq<Label>, w: string, n: nat): seq<Label> {
    if n == 0 then run else WithCrashes(run, w, n - 1) + [Read(w, true)] + [Crash(w)]
  }

  lemma {:induction false} ArrivalsAppend(cfg: Config, f: Fields, n: nat)
    ensures var s := Exec(cfg, INITIAL, Arrivals(f, n));
      && |s.g.stream| == n && s == INITIAL.(g := EMPTY_GROUP.(stream := s.g.stream))
      && forall i :: 0 <= i < n ==> s.g.stream[i] == f
  {
    if n > 0 {
      ArrivalsAppend(cfg, f, n - 1);
      ExecThen(cfg, INITIAL, Arrivals(f, n - 1), Append(f));
    }
  }

  // Everything delivered so far was delivered at instant 0 and is pending.
  ghost predicate Abandoned(s: System, w: string, stream: seq<Fields>) {
    && s.g.stream == stream && s.g.cursor <= |stream| && s.g.acked == {} && s.now == 0 && PhaseOf(s, w) == Reading
    && (forall id: nat :: id in s.g.pending <==> id < s.g.cursor)
    && forall id :: id in s.g.pending ==> s.g.pending[id].at == 0
  }

  lemma ReadAndCrash(cfg: Config, s: System, w: string, stream: seq<Fields>)
    requires Abandoned(s, w, stream) && cfg.batchSize > 0
    ensures var t := Step(cfg, Step(cfg, s, Read(w, true)), Crash(w));
      Abandoned(t, w, stream) && t.g.cursor >= Min(s.g.cursor + 1, |stream|)
  {
    var r := Step(cfg, s, Read(w, true));
    assert r.g == ReadGroup(s.g, w, cfg.batchSize, 0);
    hide Step;
    CrashResets(cfg, r, w);
  }

  lemma CrashResets(cfg: Config, s: System, w: string)
    ensures var t := Step(cfg, s, Crash(w)); t.g == s.g && t.now == s.now && PhaseOf(t, w) == Reading
  {
  }

  lemma {:induction false} CrashesAbandon(cfg: Config, run: seq<Label>, w: string, stream: seq<Fields>, n: nat)
    requires Abandoned(Exec(cfg, INITIAL, run), w, stream) && cfg.batchSize > 0
    ensures var s := Exec(cfg, INITIAL, WithCrashes(run, w, n));
      Abandoned(s, w, stream) && s.g.cursor >= Min(n, |stream|)
  {
    hide Exec, Step, Abandoned;
    if n > 0 {
      var before := WithCrashes(run, w, n - 1);
      CrashesAbandon(cfg, run, w, stream, n - 1);
      ExecThen(cfg, INITIAL, before, Read(w, true));
      ExecThen(cfg, INITIAL, before + [Read(w, true)], Crash(w));
      ReadAndCrash(cfg, Exec(cfg, INITIAL, before), w, stream);
    }
  }

  // 101 messages are delivered to a worker that crashes over all of them, and more than 60 seconds pass.
  function Disaster(w: string, f: Fields): seq<Label> {
    WithCrashes(Arrivals(f, PENDING_COUNT + 1), w, PENDING_COUNT + 1) + [Tick(PAUSE)]
  }

  lemma {:induction false} Below(n: nat, s: set<nat>)
    requires forall x: nat :: x in s <==> x < n
    ensures |s| == n
  {
    assert n == 0 ==> s <= {};
    if n > 0 {
      Below(n - 1, s - {n - 1});
    }
  }

  lemma DisasterStarves(cfg: Config, w: string, f: Fields)
    requires cfg.batchSize > 0
    ensures var s := Final(cfg, Disaster(w, f));
      Starving(s, w, PENDING_COUNT) && s.g.pending[PENDING_COUNT].at == 0 && s.now == PAUSE && s.g.acked == {}
  {
    var n := PENDING_COUNT + 1;
    var arrived := Arrivals(f, n);
    ArrivalsAppend(cfg, f, n);
    var stream := Exec(cfg, INITIAL, arrived).g.stream;
    assert Abandoned(Exec(cfg, INITIAL, arrived), w, stream);
    CrashesAbandon(cfg, arrived, w, stream, n);
    ExecThen(cfg, INITIAL, WithCrashes(arrived, w, n), Tick(PAUSE));
    hide Exec, Arrivals, WithCrashes;
    AbandonedStarves(cfg, Exec(cfg, INITIAL, WithCrashes(arrived, w, n)), w, stream);
  }

  lemma AbandonedStarves(cfg: Config, s: System, w: string, stream: seq<Fields>)
    requires Abandoned(s, w, stream) && s.g.cursor == |stream| == PENDING_COUNT + 1
    ensures var t := Step(cfg, s, Tick(PAUSE));
      Starving(t, w, PENDING_COUNT) && t.g.pending[PENDING_COUNT].at == 0 && t.now == PAUSE && t.g.acked == {}
  {
    Below(PENDING_COUNT, Older(s.g, PENDING_COUNT));
  }

  // Recovery can miss an entry for ever: for every k there is a run in which 101 entries lose their worker, and
  // another k turns later, each more than 60 seconds after the one before, the newest of them has not been
  // delivered again.
  lemma RecoveryCanMiss(cfg: Config, w: string, f: Fields, k: nat)
    requires cfg.batchSize > 0
    ensures Starving(Final(cfg, Disaster(w, f)), w, PENDING_COUNT)
    ensures var run := Disaster(w, f) + StarvedTurns(cfg, w, Final(cfg, Disaster(w, f)), PENDING_COUNT, k);
      var s := Final(cfg, run);
      && PENDING_COUNT in s.g.pending && s.g.pending[PENDING_COUNT].at == 0
      && s.now == (k + 1) * PAUSE && s.g.acked == {}
  {
    var s := Final(cfg, Disaster(w, f));
    DisasterStarves(cfg, w, f);
    StarvationLasts(cfg, s, w, PENDING_COUNT, k);
    ExecConcat(cfg, INITIAL, Disaster(w, f), StarvedTurns(cfg, w, s, PENDING_COUNT, k));
    hide Exec, Disaster, StarvedTurns;
    assert (k + 1) * PAUSE == PAUSE + k * PAUSE;
  }
}
