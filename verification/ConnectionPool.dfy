// The connection pool of the API: connections move between the pool and the request contexts.
module ConnectionPool {
  import opened Wrappers

  type Conn = nat
  type Context = nat

  // Opening a connection works, is refused, or yields a connection whose table definition then raises.
  datatype Opening = Opened | Refused | NoTables

  // held is the context variable of each request. closed, dropped and created are the history:
  // a dropped connection was opened, is not closed, and nothing refers to it any more.
  datatype Pool = Pool(idle: seq<Conn>, held: map<Context, Conn>, initialized: bool,
                       closed: set<Conn>, dropped: set<Conn>, created: nat)

  const EMPTY := Pool([], map[], false, {}, {}, 0)

  datatype Call = Initialize(openings: seq<Opening>)
                | Get(context: Context, opening: Opening)
                | Release(context: Context, closeRaises: bool)
                | CloseAll(stuck: set<Conn>)

  function Members(idle: seq<Conn>): set<Conn> {
    set c | c in idle
  }

  function Create(p: Pool, opening: Opening): Pool {
    match opening
    case Opened => p.(created := p.created + 1)
    case Refused => p
    case NoTables => p.(created := p.created + 1, dropped := p.dropped + {p.created})
  }

  function OpeningAt(openings: seq<Opening>, i: nat): Opening {
    if i < |openings| then openings[i] else Opened
  }

  // The pool after the first n rounds of the filling loop; a round that fails is the last.
  function Filled(p: Pool, openings: seq<Opening>, n: nat): Pool {
    if n == 0 then p
    else
      var q := Filled(p, openings, n - 1);
      if !FillsUp(openings, n - 1) then q
      else
        var opening := OpeningAt(openings, n - 1);
        var r := Create(q, opening);
        if opening.Opened? then r.(idle := r.idle + [q.created]) else r
  }

  predicate FillsUp(openings: seq<Opening>, n: nat) {
    forall i: nat :: i < n ==> OpeningAt(openings, i).Opened?
  }

  function AfterInitialize(p: Pool, size: nat, openings: seq<Opening>): Pool {
    if p.initialized then p else Filled(p, openings, size).(initialized := FillsUp(openings, size))
  }

  function AfterGet(p: Pool, context: Context, opening: Opening): Pool {
    if context in p.held then p
    else if p.idle != [] then
      p.(idle := p.idle[..|p.idle| - 1], held := p.held[context := p.idle[|p.idle| - 1]])
    else
      var q := Create(p, opening);
      if opening.Opened? then q.(held := q.held[context := p.created]) else q
  }

  function AfterRelease(p: Pool, size: nat, context: Context, closeRaises: bool): Pool {
    if context !in p.held then p
    else if |p.idle| < size then p.(idle := p.idle + [p.held[context]], held := p.held - {context})
    else if closeRaises then p
    else p.(closed := p.closed + {p.held[context]}, held := p.held - {context})
  }

  function AfterCloseAll(p: Pool, stuck: set<Conn>): Pool {
    p.(idle := [], initialized := false,
       closed := p.closed + (Members(p.idle) - stuck), dropped := p.dropped + (Members(p.idle) * stuck))
  }

  function Step(p: Pool, size: nat, call: Call): Pool {
    match call
    case Initialize(openings) => AfterInitialize(p, size, openings)
    case Get(context, opening) => AfterGet(p, context, opening)
    case Release(context, closeRaises) => AfterRelease(p, size, context, closeRaises)
    case CloseAll(stuck) => AfterCloseAll(p, stuck)
  }

  function Run(p: Pool, size: nat, calls: seq<Call>): Pool {
    if calls == [] then p else Step(Run(p, size, calls[..|calls| - 1]), size, calls[|calls| - 1])
  }

  // ---------------------------------------------------------------- conservation

  // In how many places a connection is.
  ghost function Places(p: Pool, c: Conn): nat {
    (if c in p.idle then 1 else 0) + (if c in p.held.Values then 1 else 0)
    + (if c in p.closed then 1 else 0) + (if c in p.dropped then 1 else 0)
  }

  ghost predicate Exclusive(held: map<Context, Conn>) {
    forall a, b :: a in held && b in held && a != b ==> held[a] != held[b]
  }

  // Every connection ever created is in exactly one place: in the pool once, in use by one context, closed or dropped.
  ghost predicate Conserved(p: Pool) {
    && Distinct(p.idle) && Exclusive(p.held)
    && forall c: Conn :: Places(p, c) == if c < p.created then 1 else 0
  }

  lemma CreateKeepsPlaces(p: Pool, opening: Opening)
    requires Conserved(p)
    ensures Distinct(Create(p, opening).idle) && Exclusive(Create(p, opening).held)
    ensures forall c: Conn :: c != p.created || !opening.Opened? ==>
      Places(Create(p, opening), c) == if c < Create(p, opening).created then 1 else 0
    ensures Places(Create(p, opening), p.created) == if opening.NoTables? then 1 else 0
  {
    assert Places(p, p.created) == 0;
    forall c: Conn
      ensures Places(Create(p, opening), c) == Places(p, c) + if opening.NoTables? && c == p.created then 1 else 0
    {
    }
  }

  lemma FilledKeepsConserved(p: Pool, openings: seq<Opening>, n: nat)
    requires Conserved(p)
    ensures Conserved(Filled(p, openings, n))
  {
    if n > 0 && FillsUp(openings, n - 1) {
      var q, opening := Filled(p, openings, n - 1), OpeningAt(openings, n - 1);
      var r := Create(q, opening);
      CreateKeepsPlaces(q, opening);
      var s := Filled(p, openings, n);
      if opening.Opened? {
        forall c: Conn ensures Places(s, c) == Places(r, c) + if c == q.created then 1 else 0 {
        }
      }
    }
  }

  lemma GetKeepsConserved(p: Pool, context: Context, opening: Opening)
    requires Conserved(p)
    ensures Conserved(AfterGet(p, context, opening))
  {
    var q := AfterGet(p, context, opening);
    if context !in p.held && p.idle != [] {
      var last := p.idle[|p.idle| - 1];
      assert p.idle == q.idle + [last] && Places(p, last) == 1;
      HeldGains(p, q, context, last);
      forall c: Conn ensures Places(q, c) == Places(p, c) {
      }
    } else if context !in p.held {
      CreateKeepsPlaces(p, opening);
      if opening.Opened? {
        assert Places(p, p.created) == 0;
        HeldGains(p, q, context, p.created);
        forall c: Conn ensures Places(q, c) == Places(Create(p, opening), c) + if c == p.created then 1 else 0 {
        }
      }
    }
  }

  lemma HeldGains(p: Pool, q: Pool, context: Context, c: Conn)
    requires context !in p.held && q.held == p.held[context := c]
    ensures q.held.Values == p.held.Values + {c}
    ensures c !in p.held.Values && Exclusive(p.held) ==> Exclusive(q.held)
  {
    forall x | x in p.held.Values ensures x in q.held.Values {
      var a :| a in p.held && p.held[a] == x;
      assert q.held[a] == x;
    }
    assert q.held[context] == c;
  }

  lemma HeldLoses(held: map<Context, Conn>, context: Context)
    requires context in held && Exclusive(held)
    ensures (held - {context}).Values == held.Values - {held[context]}
    ensures Exclusive(held - {context})
  {
    var rest := held - {context};
    forall x | x in held.Values && x != held[context] ensures x in rest.Values {
      var a :| a in held && held[a] == x;
      assert rest[a] == x;
    }
  }

  lemma ReleaseKeepsConserved(p: Pool, size: nat, context: Context, closeRaises: bool)
    requires Conserved(p)
    ensures Conserved(AfterRelease(p, size, context, closeRaises))
  {
    if context in p.held {
      var q := AfterRelease(p, size, context, closeRaises);
      assert Places(p, p.held[context]) == 1;
      HeldLoses(p.held, context);
      forall c: Conn ensures Places(q, c) == Places(p, c) {
      }
    }
  }

  lemma CloseAllKeepsConserved(p: Pool, stuck: set<Conn>)
    requires Conserved(p)
    ensures Conserved(AfterCloseAll(p, stuck))
  {
    forall c: Conn ensures Places(AfterCloseAll(p, stuck), c) == Places(p, c) {
      assert Places(p, c) <= 1;
    }
  }

  lemma StepKeepsConserved(p: Pool, size: nat, call: Call)
    requires Conserved(p)
    ensures Conserved(Step(p, size, call))
  {
    hide Conserved;
    match call
    case Initialize(openings) => InitializeKeepsConserved(p, size, openings);
    case Get(context, opening) => GetKeepsConserved(p, context, opening);
    case Release(context, closeRaises) => ReleaseKeepsConserved(p, size, context, closeRaises);
    case CloseAll(stuck) => CloseAllKeepsConserved(p, stuck);
  }

  lemma InitializeKeepsConserved(p: Pool, size: nat, openings: seq<Opening>)
    requires Conserved(p)
    ensures Conserved(AfterInitialize(p, size, openings))
  {
    if !p.initialized {
      var q, r := Filled(p, openings, size), AfterInitialize(p, size, openings);
      FilledKeepsConserved(p, openings, size);
      assert forall c: Conn :: Places(r, c) == Places(q, c);
    }
  }

  // The conservation law: it holds after every sequence of calls, whatever fails.
  lemma {:induction false} RunConserves(size: nat, calls: seq<Call>)
    ensures Conserved(Run(EMPTY, size, calls))
  {
    if calls == [] {
      assert forall c: Conn :: Places(EMPTY, c) == 0;
    } else {
      RunConserves(size, calls[..|calls| - 1]);
      StepKeepsConserved(Run(EMPTY, size, calls[..|calls| - 1]), size, calls[|calls| - 1]);
    }
  }

  // Table definition never raises and close_all can close what it finds.
  ghost predicate Clean(call: Call) {
    match call
    case Initialize(openings) => Opening.NoTables !in openings
    case Get(_, opening) => opening != NoTables
    case Release(_, _) => true
    case CloseAll(stuck) => stuck == {}
  }

  lemma {:induction false} FilledDropsNothing(p: Pool, openings: seq<Opening>, n: nat)
    requires Opening.NoTables !in openings
    ensures Filled(p, openings, n).dropped == p.dropped
  {
    if n > 0 {
      FilledDropsNothing(p, openings, n - 1);
      if n - 1 < |openings| {
        assert openings[n - 1] in openings;
      }
    }
  }

  // Without those failures no connection is dropped: it is in the pool, in use or closed.
  lemma {:induction false} NothingIsDropped(size: nat, calls: seq<Call>)
    requires forall call :: call in calls ==> Clean(call)
    ensures Run(EMPTY, size, calls).dropped == {}
  {
    if calls != [] {
      var last := calls[|calls| - 1];
      assert Clean(last);
      NothingIsDropped(size, calls[..|calls| - 1]);
      if last.Initialize? {
        FilledDropsNothing(Run(EMPTY, size, calls[..|calls| - 1]), last.openings, size);
      }
    }
  }

  // ---------------------------------------------------------------- a request keeps its connection

  // Until a context releases it, its connection stays its own, whatever the other contexts do.
  lemma {:induction false} HoldingLasts(size: nat, before: seq<Call>, later: seq<Call>, context: Context)
    requires context in Run(EMPTY, size, before).held
    requires forall call :: call in later ==> !(call.Release? && call.context == context)
    ensures var p, q := Run(EMPTY, size, before), Run(EMPTY, size, before + later);
      && context in q.held && q.held[context] == p.held[context]
      && p.held[context] !in q.idle && p.held[context] !in q.closed
      && forall other :: other in q.held && q.held[other] == p.held[context] ==> other == context
  {
    var c := Run(EMPTY, size, before).held[context];
    HoldingStays(size, before, later, context);
    RunConserves(size, before + later);
    var q := Run(EMPTY, size, before + later);
    assert q.held[context] == c && c in q.held.Values;
    assert Places(q, c) <= 1;
  }

  lemma {:induction false} HoldingStays(size: nat, before: seq<Call>, later: seq<Call>, context: Context)
    requires context in Run(EMPTY, size, before).held
    requires forall call :: call in later ==> !(call.Release? && call.context == context)
    ensures context in Run(EMPTY, size, before + later).held
    ensures Run(EMPTY, size, before + later).held[context] == Run(EMPTY, size, before).held[context]
  {
    if later == [] {
      assert before + later == before;
    } else {
      var init, last := later[..|later| - 1], later[|later| - 1];
      assert last in later;
      assert (before + later)[..|before + later| - 1] == before + init;
      HoldingStays(size, before, init, context);
      var p := Run(EMPTY, size, before + init);
      if last.Initialize? {
        FilledKeepsHeld(p, last.openings, size);
      }
    }
  }

  lemma {:induction false} FilledKeepsHeld(p: Pool, openings: seq<Opening>, n: nat)
    ensures Filled(p, openings, n).held == p.held
    ensures |p.idle| <= |Filled(p, openings, n).idle| <= |p.idle| + n
    ensures FillsUp(openings, n) ==> |Filled(p, openings, n).idle| == |p.idle| + n
  {
    if n > 0 {
      FilledKeepsHeld(p, openings, n - 1);
      if FillsUp(openings, n) {
        assert FillsUp(openings, n - 1) && OpeningAt(openings, n - 1).Opened?;
      }
    }
  }

  // Taking and releasing undo each other: a released connection is the next one to be taken, by any context.
  lemma ReleaseUndoesGet(p: Pool, size: nat, context: Context, opening: Opening, closeRaises: bool)
    requires context !in p.held && p.idle != [] && |p.idle| <= size
    ensures AfterRelease(AfterGet(p, context, opening), size, context, closeRaises) == p
  {
    var last := p.idle[|p.idle| - 1];
    assert p.held[context := last] - {context} == p.held;
    assert p.idle[..|p.idle| - 1] + [last] == p.idle;
  }

  lemma ReleasedIsTakenNext(p: Pool, size: nat, context: Context, other: Context, opening: Opening, closeRaises: bool)
    requires context in p.held && (other == context || other !in p.held) && |p.idle| < size
    ensures AfterGet(AfterRelease(p, size, context, closeRaises), other, opening)
      == p.(held := (p.held - {context})[other := p.held[context]])
  {
    var q := AfterRelease(p, size, context, closeRaises);
    assert q.idle[..|q.idle| - 1] == p.idle;
  }

  // ---------------------------------------------------------------- what each call gives

  // After any run a request without a connection comes to hold one exactly when the pool was not empty or opening one
  // works. From the pool it takes the last; otherwise the connection is new and nobody else's.
  lemma GetGives(size: nat, calls: seq<Call>, context: Context, opening: Opening)
    requires context !in Run(EMPTY, size, calls).held
    ensures var p, q := Run(EMPTY, size, calls), Run(EMPTY, size, calls + [Get(context, opening)]);
      && (context in q.held <==> p.idle != [] || opening == Opened)
      && (p.idle != [] ==> context in q.held && p.idle == q.idle + [q.held[context]] && q.created == p.created)
      && (p.idle == [] && opening == Opened ==>
            && context in q.held && q.held[context] == p.created && q.idle == [] && q.created == p.created + 1
            && Places(p, p.created) == 0 && q.dropped == p.dropped)
      && (p.idle == [] && opening == NoTables ==>
            q.created == p.created + 1 && q.dropped == p.dropped + {p.created} && Places(p, p.created) == 0)
      && (p.idle == [] && opening == Refused ==> q == p)
      && q.held - {context} == p.held && Exclusive(q.held) && q.closed == p.closed
  {
    var p := Run(EMPTY, size, calls);
    RunOf(EMPTY, size, calls, Get(context, opening));
    RunConserves(size, calls);
    RunConserves(size, calls + [Get(context, opening)]);
    hide Run;
    var q := AfterGet(p, context, opening);
    assert q.held - {context} == p.held;
    assert p.idle != [] ==> p.idle == q.idle + [p.idle[|p.idle| - 1]];
  }

  // A request that has a connection gets the same one again, and nothing changes.
  lemma GetIsIdempotent(size: nat, calls: seq<Call>, context: Context, opening: Opening)
    requires context in Run(EMPTY, size, calls).held
    ensures Run(EMPTY, size, calls + [Get(context, opening)]) == Run(EMPTY, size, calls)
  {
    RunOf(EMPTY, size, calls, Get(context, opening));
  }

  // A released connection goes back to the pool exactly when that is below its size; otherwise it is closed, unless
  // closing raises: then the request keeps it.
  lemma ReleaseGives(size: nat, calls: seq<Call>, context: Context, closeRaises: bool)
    requires context in Run(EMPTY, size, calls).held
    ensures var p, q := Run(EMPTY, size, calls), Run(EMPTY, size, calls + [Release(context, closeRaises)]);
      var c := p.held[context];
      && c !in p.idle && c !in p.closed
      && (c in q.idle <==> |p.idle| < size) && (c in q.closed <==> |p.idle| >= size && !closeRaises)
      && (context in q.held <==> |p.idle| >= size && closeRaises)
      && q.idle == p.idle + (if |p.idle| < size then [c] else []) && q.created == p.created && q.dropped == p.dropped
      && q.held - {context} == p.held - {context} && q.closed - {c} == p.closed
  {
    var p := Run(EMPTY, size, calls);
    RunOf(EMPTY, size, calls, Release(context, closeRaises));
    RunConserves(size, calls);
    hide Run;
    assert p.held[context] in p.held.Values;
    assert Places(p, p.held[context]) <= 1;
  }

  // close_all empties the pool: what can be closed is closed, the rest is dropped, and no request loses its connection.
  lemma CloseAllGives(size: nat, calls: seq<Call>, stuck: set<Conn>)
    ensures var p, q := Run(EMPTY, size, calls), Run(EMPTY, size, calls + [CloseAll(stuck)]);
      && q.idle == [] && !q.initialized && q.held == p.held && q.created == p.created
      && (forall c :: c in q.closed <==> c in p.closed || (c in p.idle && c !in stuck))
      && (forall c :: c in q.dropped <==> c in p.dropped || (c in p.idle && c in stuck))
  {
    RunOf(EMPTY, size, calls, CloseAll(stuck));
  }

  // A start of a pool that is not ready adds one new connection for each opening up to the first that fails, or as many
  // as the size, and the pool is ready exactly when none failed.
  lemma InitializeGives(size: nat, calls: seq<Call>, openings: seq<Opening>, made: nat)
    requires !Run(EMPTY, size, calls).initialized && made <= size
    requires forall i :: 0 <= i < |openings| && i < made ==> openings[i] == Opened
    requires made < size ==> made < |openings| && openings[made] != Opened
    ensures var p, q := Run(EMPTY, size, calls), Run(EMPTY, size, calls + [Initialize(openings)]);
      && (q.initialized <==> made == size)
      && |q.idle| == |p.idle| + made && q.idle[..|p.idle|] == p.idle
      && (forall i :: |p.idle| <= i < |q.idle| ==> q.idle[i] == p.created + i - |p.idle|)
      && q.held == p.held && q.closed == p.closed
      && q.dropped == p.dropped + (if made < size && openings[made] == NoTables then {p.created + made} else {})
  {
    var p := Run(EMPTY, size, calls);
    RunOf(EMPTY, size, calls, Initialize(openings));
    hide Run;
    assert FillsUp(openings, made);
    assert made < size ==> !FillsUp(openings, made + 1) by {
      if made < size {
        assert !OpeningAt(openings, made).Opened?;
      }
    }
    FilledAdds(p, openings, made);
    if made < size {
      FilledStops(p, openings, made + 1, size);
      FilledKeepsHeld(p, openings, made);
    }
  }

  lemma {:induction false} FilledAdds(p: Pool, openings: seq<Opening>, n: nat)
    requires FillsUp(openings, n)
    ensures var q := Filled(p, openings, n);
      && |q.idle| == |p.idle| + n && q.idle[..|p.idle|] == p.idle && q.created == p.created + n
      && (forall i :: |p.idle| <= i < |q.idle| ==> q.idle[i] == p.created + i - |p.idle|)
      && q.held == p.held && q.closed == p.closed && q.dropped == p.dropped && q.initialized == p.initialized
  {
    if n > 0 {
      assert FillsUp(openings, n - 1) && OpeningAt(openings, n - 1).Opened?;
      FilledAdds(p, openings, n - 1);
    }
  }

  lemma InitializeIsIdempotent(size: nat, calls: seq<Call>, openings: seq<Opening>)
    requires Run(EMPTY, size, calls).initialized
    ensures Run(EMPTY, size, calls + [Initialize(openings)]) == Run(EMPTY, size, calls)
  {
    RunOf(EMPTY, size, calls, Initialize(openings));
  }

  // ---------------------------------------------------------------- the size of the pool

  // initialize keeps the pool within its size, whatever happens in it, exactly when it finds the pool empty or ready.
  lemma InitializeCondition(p: Pool, size: nat)
    requires |p.idle| <= size
    ensures (forall openings :: |AfterInitialize(p, size, openings).idle| <= size) <==> p.initialized || p.idle == []
  {
    forall openings: seq<Opening> {
      FilledKeepsHeld(p, openings, size);
    }
    if !p.initialized && p.idle != [] {
      assert FillsUp([], size);
      assert |AfterInitialize(p, size, []).idle| > size;
    }
  }

  // Every call of initialize in the run finds the pool empty or ready.
  ghost predicate FillsWhenEmpty(size: nat, calls: seq<Call>) {
    forall i :: 0 <= i < |calls| && calls[i].Initialize? ==>
      var p := Run(EMPTY, size, calls[..i]); p.initialized || p.idle == []
  }

  lemma {:induction false} PoolIsBounded(size: nat, calls: seq<Call>)
    requires FillsWhenEmpty(size, calls)
    ensures |Run(EMPTY, size, calls).idle| <= size
  {
    if calls != [] {
      var init, last := calls[..|calls| - 1], calls[|calls| - 1];
      assert forall i :: 0 <= i < |init| ==> init[..i] == calls[..i];
      PoolIsBounded(size, init);
      if last.Initialize? {
        InitializeCondition(Run(EMPTY, size, init), size);
      }
    }
  }

  // Starting the pool once, before anything else, is enough.
  ghost predicate StartedOnce(calls: seq<Call>) {
    calls != [] && calls[0].Initialize? && forall i :: 0 < i < |calls| ==> !calls[i].Initialize?
  }

  lemma StartedOnceIsBounded(size: nat, calls: seq<Call>)
    requires StartedOnce(calls)
    ensures |Run(EMPTY, size, calls).idle| <= size
  {
    assert calls[..0] == [];
    PoolIsBounded(size, calls);
  }

  lemma RunOf(p: Pool, size: nat, calls: seq<Call>, call: Call)
    ensures Run(p, size, calls + [call]) == Step(Run(p, size, calls), size, call)
  {
    assert (calls + [call])[..|calls|] == calls;
  }

  lemma {:induction false} FilledStops(p: Pool, openings: seq<Opening>, n: nat, m: nat)
    requires n <= m && !FillsUp(openings, n)
    ensures Filled(p, openings, m) == Filled(p, openings, n) && !FillsUp(openings, m)
  {
    if n < m {
      FilledStops(p, openings, n, m - 1);
    }
  }

  // A start that failed after some connections makes the next start overfill the pool by as many.
  lemma FailedStartOverfills(size: nat, made: nat, openings: seq<Opening>)
    requires made < size && FillsUp(openings, made) && !OpeningAt(openings, made).Opened?
    ensures |Run(EMPTY, size, [Initialize(openings), Initialize([])]).idle| == size + made
  {
    hide Filled, Run;
    RunOfTwo(size, Initialize(openings), Initialize([]));
    FailedStart(size, made, openings);
    assert FillsUp([], size);
    hide FillsUp;
    FilledKeepsHeld(AfterInitialize(EMPTY, size, openings), [], size);
  }

  lemma FailedStart(size: nat, made: nat, openings: seq<Opening>)
    requires made < size && FillsUp(openings, made) && !OpeningAt(openings, made).Opened?
    ensures |AfterInitialize(EMPTY, size, openings).idle| == made
    ensures !AfterInitialize(EMPTY, size, openings).initialized
  {
    FilledKeepsHeld(EMPTY, openings, made);
    FilledStops(EMPTY, openings, made + 1, size);
  }

  // So does a release between close_all and the next start.
  lemma LateReleaseOverfills(size: nat)
    requires size > 0
    ensures |Run(EMPTY, size, [Initialize([]), Get(0, Opened), CloseAll({}), Release(0, false), Initialize([])]).idle|
      == size + 1
  {
    hide Filled, Run;
    var start, get, close, release := Initialize([]), Get(0, Opened), CloseAll({}), Release(0, false);
    var calls := [start, get, close, release];
    assert FillsUp([], size);
    FilledKeepsHeld(EMPTY, [], size);
    var p1 := AfterInitialize(EMPTY, size, []);
    var p3 := AfterCloseAll(AfterGet(p1, 0, Opened), {});
    var p4 := AfterRelease(p3, size, 0, false);
    assert |p4.idle| == 1 && !p4.initialized;
    FilledKeepsHeld(p4, [], size);
    RunOfFour(size, start, get, close, release);
    RunOf(EMPTY, size, calls, start);
    assert calls + [start] == [start, get, close, release, start];
  }

  lemma RunOfTwo(size: nat, a: Call, b: Call)
    ensures Run(EMPTY, size, [a, b]) == Step(Step(EMPTY, size, a), size, b)
  {
    hide Step;
    RunOf(EMPTY, size, [a], b);
    assert [a] + [b] == [a, b] && [a][..0] == [];
  }

  lemma RunOfFour(size: nat, a: Call, b: Call, c: Call, d: Call)
    ensures Run(EMPTY, size, [a, b, c, d]) == Step(Step(Step(Step(EMPTY, size, a), size, b), size, c), size, d)
  {
    RunOfTwo(size, a, b);
    hide Step, Run;
    RunOf(EMPTY, size, [a, b], c);
    RunOf(EMPTY, size, [a, b, c], d);
    assert [a, b] + [c] == [a, b, c] && [a, b, c] + [d] == [a, b, c, d];
  }

  // ---------------------------------------------------------------- the number of open connections

  // The most connections in use at once.
  function Peak(size: nat, calls: seq<Call>): nat {
    var now := |Run(EMPTY, size, calls).held|;
    if calls == [] then now
    else
      var before := Peak(size, calls[..|calls| - 1]);
      if now > before then now else before
  }

  // A connection is created only when the pool is exhausted: the open ones, pooled or in use,
  // never outnumber the pool size and the peak use.
  lemma {:induction false} OpenIsBounded(size: nat, calls: seq<Call>)
    requires StartedOnce(calls)
    ensures var p := Run(EMPTY, size, calls);
      |p.idle| + |p.held| <= if size > Peak(size, calls) then size else Peak(size, calls)
  {
    var init, last := calls[..|calls| - 1], calls[|calls| - 1];
    var p := Run(EMPTY, size, init);
    if |calls| == 1 {
      FilledKeepsHeld(EMPTY, last.openings, size);
    } else {
      assert StartedOnce(init);
      OpenIsBounded(size, init);
      OpenStep(p, size, last);
    }
  }

  lemma OpenStep(p: Pool, size: nat, call: Call)
    requires !call.Initialize?
    ensures var q := Step(p, size, call); |q.idle| + |q.held| <= |p.idle| + |p.held| || q.idle == []
  {
    if call.Release? && call.context in p.held {
      var rest := p.held - {call.context};
      assert p.held == rest[call.context := p.held[call.context]];
      assert |p.held| == |rest| + 1;
    }
  }

  // ---------------------------------------------------------------- the manager

  class DatabaseManager {
    const size: nat
    var pool: seq<Conn>
    var context: map<Context, Conn>
    var initialized: bool
    var created: nat
    ghost var closed: set<Conn>
    ghost var dropped: set<Conn>

    constructor (size: nat)
      ensures View() == EMPTY && this.size == size
    {
      this.size := size;
      pool, context, initialized := [], map[], false;
      created, closed, dropped := 0, {}, {};
    }

    ghost function View(): Pool
      reads this
    {
      Pool(pool, context, initialized, closed, dropped, created)
    }

    // The constructor call and the table definitions.
    method Open(opening: Opening) returns (c: Conn)
      modifies this`created, this`dropped
      ensures View() == Create(old(View()), opening)
      ensures c == old(created)
    {
      c := created;
      if opening != Refused {
        created := created + 1;
      }
      if opening == NoTables {
        dropped := dropped + {c};
      }
    }

    method InitializePool(openings: seq<Opening>) returns (ok: bool)
      modifies this
      ensures View() == AfterInitialize(old(View()), size, openings)
      ensures ok <==> old(initialized) || FillsUp(openings, size)
    {
      if initialized {
        return true;
      }
      for i := 0 to size
        invariant View() == Filled(old(View()), openings, i)
        invariant FillsUp(openings, i) && !initialized
      {
        var opening := if i < |openings| then openings[i] else Opened;
        assert OpeningAt(openings, i) == opening;
        var c := Open(opening);
        if opening != Opened {
          FilledStops(old(View()), openings, i + 1, size);
          return false;
        }
        pool := pool + [c];
      }
      initialized := true;
      return true;
    }

    // get_db; db is None when opening a connection raises.
    method GetDb(request: Context, opening: Opening) returns (ok: bool, db: Conn)
      modifies this
      ensures View() == AfterGet(old(View()), request, opening)
      ensures ok <==> request in context
      ensures ok ==> db == context[request]
    {
      if request in context {
        return true, context[request];
      }
      if pool != [] {
        db := pool[|pool| - 1];
        pool := pool[..|pool| - 1];
      } else {
        db := Open(opening);
        if opening != Opened {
          return false, db;
        }
      }
      context := context[request := db];
      return true, db;
    }

    // release_db; ok is false when closing the connection raises.
    method ReleaseDb(request: Context, closeRaises: bool) returns (ok: bool)
      modifies this
      ensures View() == AfterRelease(old(View()), size, request, closeRaises)
      ensures !ok <==> request in old(context) && |old(pool)| >= size && closeRaises
    {
      if request !in context {
        return true;
      }
      var db := context[request];
      if |pool| < size {
        pool := pool + [db];
      } else if closeRaises {
        return false;
      } else {
        closed := closed + {db};
      }
      context := context - {request};
      return true;
    }

    method CloseAllConnections(stuck: set<Conn>)
      modifies this
      ensures View() == AfterCloseAll(old(View()), stuck)
    {
      for i := 0 to |pool|
        invariant pool == old(pool) && context == old(context) && created == old(created)
        invariant closed == old(closed) + (Members(pool[..i]) - stuck)
        invariant dropped == old(dropped) + (Members(pool[..i]) * stuck)
      {
        assert Members(pool[..i + 1]) == Members(pool[..i]) + {pool[i]};
        if pool[i] in stuck {
          dropped := dropped + {pool[i]};
        } else {
          closed := closed + {pool[i]};
        }
      }
      assert pool[..|pool|] == pool;
      pool := [];
      initialized := false;
    }
  }
}
