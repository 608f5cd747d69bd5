// The rate limiter: one Redis counter per identifier, incremented and re-armed by every call.
module RateLimit {
  import opened Wrappers

  // Times and durations are in nanoseconds.
  const SECOND: int := 1_000_000_000

  // A counter with the instant at which Redis deletes it. Deleted means gone at that instant.
  datatype Counter = Counter(count: nat, expires: int)
  type Store = map<string, Counter>

  // The pipeline is one atomic step: it is executed and reported, executed with the reply lost, or not executed.
  datatype Outcome = Executed | ReplyLost | NotExecuted

  datatype Call = Call(identifier: string, limit: int, window: int, at: int, outcome: Outcome)

  function Key(identifier: string): string {
    "ratelimit:" + identifier
  }

  // The client sends EXPIRE in whole seconds: a positive duration below a second becomes one, others are truncated.
  function Ttl(window: int): int {
    if 0 < window < SECOND then SECOND
    else if window >= 0 then window / SECOND * SECOND
    else -((-window) / SECOND * SECOND)
  }

  function Live(s: Store, key: string, now: int): Option<Counter> {
    if key in s && now < s[key].expires then Some(s[key]) else None
  }

  function Incremented(s: Store, key: string, now: int): nat {
    match Live(s, key, now) case None => 1 case Some(c) => c.count + 1
  }

  // INCR and EXPIRE. A lifetime that is not positive deletes the counter.
  function Execute(s: Store, c: Call): Store {
    var key := Key(c.identifier);
    if Ttl(c.window) <= 0 then s - {key}
    else s[key := Counter(Incremented(s, key, c.at), c.at + Ttl(c.window))]
  }

  function After(s: Store, c: Call): Store {
    if c.outcome == NotExecuted then s else Execute(s, c)
  }

  // An error of the pipeline is answered with false.
  function Allowed(s: Store, c: Call): bool {
    c.outcome == Executed && Incremented(s, Key(c.identifier), c.at) <= c.limit
  }

  class RateLimiter {
    var store: Store

    constructor ()
      ensures store == map[]
    {
      store := map[];
    }

    // RateLimit
    method Check(c: Call) returns (allowed: bool, failed: bool)
      modifies this
      ensures store == After(old(store), c)
      ensures allowed == Allowed(old(store), c)
      ensures failed <==> c.outcome != Executed
    {
      if c.outcome == NotExecuted {
        return false, true;
      }
      var key := Key(c.identifier);
      var current := if key in store && c.at < store[key].expires then store[key].count + 1 else 1;
      store := if Ttl(c.window) <= 0 then store - {key} else store[key := Counter(current, c.at + Ttl(c.window))];
      if c.outcome == ReplyLost {
        return false, true;
      }
      return current <= c.limit, false;
    }
  }

  // ---------------------------------------------------------------- runs

  // A run is any sequence of calls, for any identifiers, by a clock that does not run back.
  ghost predicate Ordered(calls: seq<Call>) {
    forall i, j :: 0 <= i <= j < |calls| ==> calls[i].at <= calls[j].at
  }

  function StoreAfter(calls: seq<Call>): Store {
    if calls == [] then map[] else After(StoreAfter(calls[..|calls| - 1]), calls[|calls| - 1])
  }

  predicate Answer(calls: seq<Call>, k: nat)
    requires k < |calls|
  {
    Allowed(StoreAfter(calls[..k]), calls[k])
  }

  // The calls for an identifier that were answered with true at from <= at < to.
  function Admitted(calls: seq<Call>, id: string, from: int, to: int): nat {
    if calls == [] then 0
    else
      var k := |calls| - 1;
      Admitted(calls[..k], id, from, to)
      + if calls[k].identifier == id && from <= calls[k].at < to && Answer(calls, k) then 1 else 0
  }

  // Every call for the identifier uses the same limit and window.
  ghost predicate Uniform(calls: seq<Call>, id: string, limit: int, window: int) {
    forall c :: c in calls && c.identifier == id ==> c.limit == limit && c.window == window
  }

  lemma KeysDiffer(a: string, b: string)
    ensures Key(a) == Key(b) <==> a == b
    ensures "ratelimit:" <= Key(a)
  {
    assert Key(a)[10..] == a && Key(b)[10..] == b;
  }

  // ---------------------------------------------------------------- the counter is a chain length

  predicate Counts(c: Call, id: string) {
    c.identifier == id && c.outcome != NotExecuted
  }

  // The instant of the last executed call for the identifier.
  function LastArmed(calls: seq<Call>, id: string): Option<int> {
    if calls == [] then None
    else if Counts(calls[|calls| - 1], id) then Some(calls[|calls| - 1].at)
    else LastArmed(calls[..|calls| - 1], id)
  }

  // How many executed calls for the identifier end the run with every gap between them shorter than the lifetime.
  function ChainLength(calls: seq<Call>, id: string, ttl: int): nat {
    if calls == [] then 0
    else
      var before, c := calls[..|calls| - 1], calls[|calls| - 1];
      if !Counts(c, id) then ChainLength(before, id, ttl)
      else
        match LastArmed(before, id)
        case Some(t) => if c.at < t + ttl then ChainLength(before, id, ttl) + 1 else 1
        case None => 1
  }

  lemma {:induction false} CounterIsChain(calls: seq<Call>, id: string, limit: int, window: int)
    requires Uniform(calls, id, limit, window) && Ttl(window) > 0
    ensures match LastArmed(calls, id)
      case None => Key(id) !in StoreAfter(calls) && ChainLength(calls, id, Ttl(window)) == 0
      case Some(t) =>
        && Key(id) in StoreAfter(calls)
        && StoreAfter(calls)[Key(id)] == Counter(ChainLength(calls, id, Ttl(window)), t + Ttl(window))
  {
    hide Ttl;
    if calls != [] {
      var k := |calls| - 1;
      assert calls[k] in calls;
      KeysDiffer(calls[k].identifier, id);
      CounterIsChain(calls[..k], id, limit, window);
    }
  }

  // A call is answered with true exactly when it is executed and reported, and the chain it ends is no longer
  // than the limit. Calls for other identifiers do not matter.
  lemma AnswerIsChainBound(calls: seq<Call>, id: string, limit: int, window: int, k: nat)
    requires Uniform(calls, id, limit, window) && Ttl(window) > 0 && k < |calls| && calls[k].identifier == id
    ensures Answer(calls, k)
      <==> calls[k].outcome == Executed && ChainLength(calls[..k + 1], id, Ttl(window)) <= limit
  {
    hide Ttl;
    assert calls[k] in calls;
    assert calls[..k + 1][..k] == calls[..k];
    CounterIsChain(calls[..k], id, limit, window);
  }

  // ---------------------------------------------------------------- the sliding window

  function Bound(limit: int, count: nat): nat {
    if limit <= 0 then 0 else if limit < count then limit else count
  }

  // Calls admitted since `from` were executed no later than the last re-arming; and while that re-arming's
  // lifetime reaches back to `from`, they all belong to the current chain, so the counter bounds them.
  ghost predicate ChainBounds(calls: seq<Call>, id: string, limit: int, ttl: int, from: int, to: int) {
    var n := Admitted(calls, id, from, to);
    if Key(id) in StoreAfter(calls) then
      var armed := StoreAfter(calls)[Key(id)].expires - ttl;
      && (calls != [] ==> armed <= calls[|calls| - 1].at)
      && (from > armed ==> n == 0)
      && (from > armed - ttl ==> n <= Bound(limit, StoreAfter(calls)[Key(id)].count))
    else n == 0
  }

  lemma {:induction false} RunsAreBounded(calls: seq<Call>, id: string, limit: int, window: int, from: int, to: int)
    requires Ordered(calls) && Uniform(calls, id, limit, window) && Ttl(window) > 0
    ensures ChainBounds(calls, id, limit, Ttl(window), from, to)
  {
    hide Ttl;
    if calls != [] {
      var k := |calls| - 1;
      assert calls[k] in calls;
      KeysDiffer(calls[k].identifier, id);
      RunsAreBounded(calls[..k], id, limit, window, from, to);
    }
  }

  // Every half-open interval as long as the counter's lifetime contains at most `limit` admitted calls.
  lemma {:induction false} LifetimeBound(calls: seq<Call>, id: string, limit: int, window: int, from: int, to: int)
    requires Ordered(calls) && Uniform(calls, id, limit, window) && Ttl(window) > 0 && to <= from + Ttl(window)
    ensures Admitted(calls, id, from, to) <= if limit <= 0 then 0 else limit
  {
    hide Ttl;
    if calls != [] {
      var k := |calls| - 1;
      if calls[k].at >= to {
        LifetimeBound(calls[..k], id, limit, window, from, to);
      } else {
        RunsAreBounded(calls, id, limit, window, from, to);
      }
    }
  }

  lemma {:induction false} EmptyInterval(calls: seq<Call>, id: string, from: int, to: int)
    requires to <= from
    ensures Admitted(calls, id, from, to) == 0
  {
    if calls != [] {
      EmptyInterval(calls[..|calls| - 1], id, from, to);
    }
  }

  // The law of the rate limiter: no interval as long as the window contains more than `limit` admitted calls.
  ghost predicate WindowLaw(id: string, limit: int, window: int) {
    forall calls, from :: Ordered(calls) && Uniform(calls, id, limit, window) ==> Within(calls, id, limit, window, from)
  }

  predicate Within(calls: seq<Call>, id: string, limit: int, window: int, from: int) {
    Admitted(calls, id, from, from + window) <= if limit <= 0 then 0 else limit
  }

  lemma OneMore(calls: seq<Call>, c: Call, id: string, from: int, to: int)
    ensures StoreAfter(calls + [c]) == After(StoreAfter(calls), c)
    ensures Admitted(calls + [c], id, from, to) == Admitted(calls, id, from, to)
      + if c.identifier == id && from <= c.at < to && Allowed(StoreAfter(calls), c) then 1 else 0
  {
    var all := calls + [c];
    assert all[..|all| - 1] == calls;
  }

  // n calls at instant 0.
  function Burst(id: string, limit: int, window: int, n: nat): (calls: seq<Call>)
    ensures forall c :: c in calls ==> c == Call(id, limit, window, 0, Executed)
  {
    if n == 0 then [] else Burst(id, limit, window, n - 1) + [Call(id, limit, window, 0, Executed)]
  }

  lemma {:induction false} BurstIsAdmitted(id: string, limit: int, window: int, n: nat)
    requires n <= limit && Ttl(window) > 0 && window > 0
    ensures var calls := Burst(id, limit, window, n);
      && Admitted(calls, id, 0, window) == n
      && (n == 0 ==> Key(id) !in StoreAfter(calls))
      && (n > 0 ==> Key(id) in StoreAfter(calls) && StoreAfter(calls)[Key(id)] == Counter(n, Ttl(window)))
  {
    hide Ttl, StoreAfter, Admitted, Key;
    if n == 0 {
      EmptyRun(id, window);
    } else {
      BurstIsAdmitted(id, limit, window, n - 1);
      OneMore(Burst(id, limit, window, n - 1), Call(id, limit, window, 0, Executed), id, 0, window);
    }
  }

  lemma EmptyRun(id: string, window: int)
    ensures StoreAfter([]) == map[] && Admitted([], id, 0, window) == 0
  {
  }

  // A full burst, then one more call when the counter has expired and the window has not.
  lemma TruncationBreaksLaw(id: string, limit: int, window: int)
    requires limit > 0 && 0 < Ttl(window) < window
    ensures !WindowLaw(id, limit, window)
  {
    var before, last := Burst(id, limit, window, limit), Call(id, limit, window, Ttl(window), Executed);
    hide Ttl, StoreAfter, Admitted, Key, Burst;
    BurstThenOne(id, limit, window);
    hide Ordered, Uniform, Within;
    OneTooMany(id, limit, window);
  }

  lemma BurstThenOne(id: string, limit: int, window: int)
    requires limit > 0 && 0 < Ttl(window)
    ensures var calls := Burst(id, limit, window, limit) + [Call(id, limit, window, Ttl(window), Executed)];
      Ordered(calls) && Uniform(calls, id, limit, window)
  {
    hide Ttl, Burst;
    var before := Burst(id, limit, window, limit);
    forall i | 0 <= i < |before| ensures before[i].at == 0 {
      assert before[i] in before;
    }
  }

  lemma OneTooMany(id: string, limit: int, window: int)
    requires limit > 0 && 0 < Ttl(window) < window
    ensures var calls := Burst(id, limit, window, limit) + [Call(id, limit, window, Ttl(window), Executed)];
      !Within(calls, id, limit, window, 0)
  {
    hide Ttl, StoreAfter, Admitted, Key, Burst;
    BurstIsAdmitted(id, limit, window, limit);
    OneMore(Burst(id, limit, window, limit), Call(id, limit, window, Ttl(window), Executed), id, 0, window);
  }

  lemma TtlCases(window: int)
    ensures window <= 0 ==> Ttl(window) <= 0
    ensures window > 0 ==> 0 < Ttl(window)
    ensures window >= SECOND && window % SECOND != 0 ==> Ttl(window) < window
    ensures 0 < window && (window < SECOND || window % SECOND == 0) ==> window <= Ttl(window)
  {
  }

  // The law holds exactly when the window is below a second or a whole number of seconds, because the lifetime
  // of the counter is truncated to whole seconds (or when nothing is admitted at all).
  lemma WindowLawCondition(id: string, limit: int, window: int)
    ensures WindowLaw(id, limit, window) <==> limit <= 0 || window < SECOND || window % SECOND == 0
  {
    TtlCases(window);
    if limit > 0 && window >= SECOND && window % SECOND != 0 {
      TruncationBreaksLaw(id, limit, window);
    } else {
      hide Ttl;
      forall calls, from | Ordered(calls) && Uniform(calls, id, limit, window)
        ensures Within(calls, id, limit, window, from)
      {
        if limit <= 0 {
          NothingAdmitted(calls, id, limit, window, from, from + window);
        } else if window <= 0 {
          EmptyInterval(calls, id, from, from + window);
        } else {
          LifetimeBound(calls, id, limit, window, from, from + window);
        }
      }
    }
  }

  lemma {:induction false} NothingAdmitted(calls: seq<Call>, id: string, limit: int, window: int, from: int, to: int)
    requires Uniform(calls, id, limit, window) && limit <= 0
    ensures Admitted(calls, id, from, to) == 0
  {
    if calls != [] {
      assert calls[|calls| - 1] in calls;
      NothingAdmitted(calls[..|calls| - 1], id, limit, window, from, to);
    }
  }

  // ---------------------------------------------------------------- the lifetime written out

  // A positive window is cut to whole seconds, and is one second at least; any other window deletes the counter.
  lemma TtlIsWholeSeconds(window: int)
    ensures window > 0 ==>
      Ttl(window) == if window < 1_000_000_000 then 1_000_000_000 else window - window % 1_000_000_000
    ensures window <= 0 ==> Ttl(window) <= 0
  {
  }

  // A reported call is admitted exactly when the chain that it ends, of executed calls with gaps shorter than
  // that, is no longer than the limit.
  lemma AdmittedIffChainWithinLimit(calls: seq<Call>, id: string, limit: int, window: int, k: nat)
    requires Uniform(calls, id, limit, window) && window > 0
    requires k < |calls| && calls[k].identifier == id && calls[k].outcome == Executed
    ensures var lifetime := if window < 1_000_000_000 then 1_000_000_000 else window - window % 1_000_000_000;
      Answer(calls, k) <==> ChainLength(calls[..k + 1], id, lifetime) <= limit
  {
    TtlIsWholeSeconds(window);
    hide Ttl;
    AnswerIsChainBound(calls, id, limit, window, k);
  }

  // No interval as long contains more than `limit` admitted calls.
  lemma LimitHoldsForLifetime(calls: seq<Call>, id: string, limit: int, window: int, from: int)
    requires Ordered(calls) && Uniform(calls, id, limit, window) && window > 0
    ensures var lifetime := if window < 1_000_000_000 then 1_000_000_000 else window - window % 1_000_000_000;
      Admitted(calls, id, from, from + lifetime) <= if limit <= 0 then 0 else limit
  {
    TtlIsWholeSeconds(window);
    hide Ttl;
    LifetimeBound(calls, id, limit, window, from, from + Ttl(window));
  }

  // No call for the identifier was executed within this time before call k.
  ghost predicate AfterPause(calls: seq<Call>, k: nat, id: string, pause: int)
    requires k < |calls|
  {
    forall i :: 0 <= i < k && Counts(calls[i], id) ==> calls[i].at + pause <= calls[k].at
  }

  // The other law: after such a pause a reported call is admitted.
  ghost predicate PauseLaw(id: string, limit: int, window: int, pause: nat) {
    forall calls, k: nat ::
      Ordered(calls) && Uniform(calls, id, limit, window) && Pauses(calls, k, id, pause) ==> Answer(calls, k)
  }

  ghost predicate Pauses(calls: seq<Call>, k: nat, id: string, pause: int) {
    Reported(calls, k, id) && AfterPause(calls, k, id, pause)
  }

  predicate Reported(calls: seq<Call>, k: nat, id: string) {
    k < |calls| && calls[k].identifier == id && calls[k].outcome == Executed
  }

  lemma {:induction false} LastArmedIsCall(calls: seq<Call>, id: string)
    ensures LastArmed(calls, id).Some? ==>
      exists i :: 0 <= i < |calls| && Counts(calls[i], id) && calls[i].at == LastArmed(calls, id).value
  {
    if calls != [] && !Counts(calls[|calls| - 1], id) {
      LastArmedIsCall(calls[..|calls| - 1], id);
    }
  }

  lemma {:induction false} NeverStored(calls: seq<Call>, id: string, limit: int, window: int)
    requires Uniform(calls, id, limit, window) && window <= 0
    ensures Key(id) !in StoreAfter(calls)
  {
    TtlIsWholeSeconds(window);
    hide Ttl;
    if calls != [] {
      assert calls[|calls| - 1] in calls;
      KeysDiffer(calls[|calls| - 1].identifier, id);
      NeverStored(calls[..|calls| - 1], id, limit, window);
    }
  }

  lemma AdmittedAfterPause(calls: seq<Call>, id: string, limit: int, window: int, k: nat, pause: nat)
    requires Uniform(calls, id, limit, window) && Pauses(calls, k, id, pause)
    requires limit >= 1 && (window > 0 ==> pause >= Ttl(window))
    ensures Answer(calls, k)
  {
    hide Ttl;
    assert calls[k] in calls;
    TtlIsWholeSeconds(window);
    if window <= 0 {
      NeverStored(calls[..k], id, limit, window);
    } else {
      AnswerIsChainBound(calls, id, limit, window, k);
      LastArmedIsCall(calls[..k], id);
      assert calls[..k + 1][..k] == calls[..k];
    }
  }

  // A full burst, then one more call while the counter is still there.
  lemma TooEarlyIsRefused(id: string, limit: int, window: int, pause: nat)
    requires limit >= 1 && window > 0 && pause < Ttl(window)
    ensures !PauseLaw(id, limit, window, pause)
  {
    var burst, last := Burst(id, limit, window, limit), Call(id, limit, window, pause, Executed);
    var calls := burst + [last];
    hide Ttl, Burst, StoreAfter, Admitted, Key;
    BurstIsAdmitted(id, limit, window, limit);
    forall i | 0 <= i < |burst| ensures burst[i].at == 0 {
      assert burst[i] in burst;
    }
    assert calls[..|burst|] == burst && calls[|burst|] == last;
    assert Ordered(calls) && Uniform(calls, id, limit, window);
    assert Pauses(calls, |burst|, id, pause);
    assert !Answer(calls, |burst|);
  }

  // It holds over all runs exactly if the limit is positive and the pause is as long as the window in whole
  // seconds, or one second for a shorter window, or of any length for a window that deletes the counter.
  lemma PauseLawCondition(id: string, limit: int, window: int, pause: nat)
    ensures PauseLaw(id, limit, window, pause) <==>
      && limit >= 1
      && (window <= 0 || pause >= if window < 1_000_000_000 then 1_000_000_000 else window - window % 1_000_000_000)
  {
    TtlIsWholeSeconds(window);
    hide Ttl;
    if limit < 1 {
      var calls := [Call(id, limit, window, 0, Executed)];
      assert Pauses(calls, 0, id, pause);
      assert !Answer(calls, 0);
    } else if window > 0 && pause < Ttl(window) {
      TooEarlyIsRefused(id, limit, window, pause);
    } else {
      forall calls, k: nat | Ordered(calls) && Uniform(calls, id, limit, window) && Pauses(calls, k, id, pause)
        ensures Answer(calls, k)
      {
        AdmittedAfterPause(calls, id, limit, window, k, pause);
      }
    }
  }
}
