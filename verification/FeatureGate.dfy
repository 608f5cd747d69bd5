// The licence feature cache: a map under a read/write lock, refreshed from the licence server outside the lock.
module FeatureCache {
  import opened Wrappers

  // cacheTTL, in milliseconds.
  const CACHE_TTL: int := 300_000

  datatype Feature = Feature(name: string, entitled: bool)

  // A cached answer, with the instant at which the server gave it. The cache stores only the answer; the instant
  // is there to say how old it is.
  datatype Entry = Entry(enabled: bool, givenAt: int)

  // lastUpdate is None until the first successful refresh.
  datatype Cache = Cache(features: map<string, Entry>, lastUpdate: Option<int>)

  const EMPTY := Cache(map[], None)

  predicate Stale(c: Cache, now: int) {
    c.lastUpdate.None? || now - c.lastUpdate.value > CACHE_TTL
  }

  // The map a refresh builds; a name listed twice keeps its last value.
  function Entries(features: seq<Feature>, givenAt: int): (m: map<string, Entry>)
    ensures forall name :: name in m ==> Feature(name, m[name].enabled) in features && m[name].givenAt == givenAt
    ensures forall f :: f in features ==> f.name in m
  {
    if features == [] then map[]
    else
      var last := features[|features| - 1];
      Entries(features[..|features| - 1], givenAt)[last.name := Entry(last.entitled, givenAt)]
  }

  // The last entry of the list under this name says so.
  ghost predicate Listed(features: seq<Feature>, name: string, entitled: bool) {
    exists i :: 0 <= i < |features| && LastListing(features, name, i) && features[i].entitled == entitled
  }

  ghost predicate LastListing(features: seq<Feature>, name: string, i: nat)
    requires i < |features|
  {
    features[i].name == name && forall j :: i < j < |features| ==> features[j].name != name
  }

  lemma {:induction false} EntriesAreLast(features: seq<Feature>, givenAt: int, name: string)
    ensures name in Entries(features, givenAt) <==> Listed(features, name, true) || Listed(features, name, false)
    ensures name in Entries(features, givenAt) ==>
      (Entries(features, givenAt)[name].enabled <==> Listed(features, name, true))
  {
    if features != [] {
      var n := |features| - 1;
      EntriesAreLast(features[..n], givenAt, name);
      ListedLast(features, name, true);
      ListedLast(features, name, false);
      hide Listed;
    }
  }

  lemma ListedLast(features: seq<Feature>, name: string, entitled: bool)
    requires features != []
    ensures var n := |features| - 1;
      Listed(features, name, entitled) <==>
        if features[n].name == name then features[n].entitled == entitled else Listed(features[..n], name, entitled)
  {
    var n := |features| - 1;
    var init := features[..n];
    forall i | 0 <= i < n
      ensures LastListing(features, name, i) <==> LastListing(init, name, i) && features[n].name != name
      ensures init[i] == features[i]
    {
      LastListingInit(features, name, i);
    }
    assert LastListing(features, name, n) <==> features[n].name == name;
    hide LastListing;
    if features[n].name != name && Listed(features, name, entitled) {
      var i :| 0 <= i < |features| && LastListing(features, name, i) && features[i].entitled == entitled;
      assert i < n && LastListing(init, name, i) && init[i].entitled == entitled;
    }
    if features[n].name != name && Listed(init, name, entitled) {
      var i :| 0 <= i < |init| && LastListing(init, name, i) && init[i].entitled == entitled;
      assert LastListing(features, name, i) && features[i].entitled == entitled;
    }
  }

  lemma LastListingInit(features: seq<Feature>, name: string, i: nat)
    requires i < |features| - 1
    ensures var n := |features| - 1;
      LastListing(features, name, i) <==> LastListing(features[..n], name, i) && features[n].name != name
  {
  }

  function Refreshed(features: seq<Feature>, givenAt: int, now: int): Cache {
    Cache(Entries(features, givenAt), Some(now))
  }

  function Stored(c: Cache, name: string, enabled: bool, givenAt: int): Cache {
    c.(features := c.features[name := Entry(enabled, givenAt)])
  }
}

// Any number of goroutines calling HasFeature and refreshFeatures, interleaved at every lock operation and server
// answer. A label that is not enabled leaves the system as it is.
module FeatureGateRuns {
  import opened Wrappers
  import opened FeatureCache

  datatype Phase =
    | Idle
    | Refreshing(caller: Option<string>)                                        // waiting for Validate
    | Updating(caller: Option<string>, features: seq<Feature>, givenAt: int)    // waiting for Lock
    | Relocking(name: string)                                                   // waiting for RLock
    | Reading(name: string, recent: bool, checkedAt: int)                        // holding RLock
    | Asking(name: string)                                                      // waiting for CheckFeature
    | Storing(name: string, enabled: bool, givenAt: int)                        // waiting for Lock

  // An answer of the licence server.
  datatype Answer = Answer(feature: Feature, at: int)

  datatype System = System(cache: Cache, threads: map<nat, Phase>, now: int, given: set<Answer>)

  datatype Label =
    | Tick(ms: nat)
    | CallHas(t: nat, name: string)
    | CallRefresh(t: nat)
    | ValidateReply(t: nat, reply: Option<seq<Feature>>)   // None: an error, or an invalid licence
    | CommitRefresh(t: nat)
    | RLock(t: nat)
    | ReadMap(t: nat)
    | CheckReply(t: nat, enabled: Option<bool>)            // None: an error
    | CommitCheck(t: nat)

  const INITIAL := System(EMPTY, map[], 0, {})

  function PhaseOf(s: System, t: nat): Phase {
    if t in s.threads then s.threads[t] else Idle
  }

  function Moved(s: System, t: nat, p: Phase): System {
    s.(threads := s.threads[t := p])
  }

  // A writer waits until no reader holds the lock.
  predicate NoReaders(s: System) {
    forall t :: t in s.threads ==> !s.threads[t].Reading?
  }

  function AfterRefresh(caller: Option<string>): Phase {
    match caller case None => Idle case Some(name) => Relocking(name)
  }

  function Step(s: System, l: Label): System {
    match l
    case Tick(ms) => s.(now := s.now + ms)
    case CallHas(t, name) =>
      if !PhaseOf(s, t).Idle? then s
      else if Stale(s.cache, s.now) then Moved(s, t, Refreshing(Some(name)))
      else Moved(s, t, Reading(name, true, s.now))
    case CallRefresh(t) =>
      if PhaseOf(s, t).Idle? then Moved(s, t, Refreshing(None)) else s
    case ValidateReply(t, reply) =>
      var p := PhaseOf(s, t);
      if !p.Refreshing? then s
      else if reply.None? then Moved(s, t, AfterRefresh(p.caller))
      else Moved(s.(given := s.given + set f | f in reply.value :: Answer(f, s.now)), t,
        Updating(p.caller, reply.value, s.now))
    case CommitRefresh(t) =>
      var p := PhaseOf(s, t);
      if p.Updating? && NoReaders(s) then
        Moved(s.(cache := Refreshed(p.features, p.givenAt, s.now)), t, AfterRefresh(p.caller))
      else s
    case RLock(t) =>
      var p := PhaseOf(s, t);
      if p.Relocking? then Moved(s, t, Reading(p.name, false, s.now)) else s
    case ReadMap(t) =>
      var p := PhaseOf(s, t);
      if !p.Reading? then s
      else Moved(s, t, if p.name in s.cache.features then Idle else Asking(p.name))
    case CheckReply(t, enabled) =>
      var p := PhaseOf(s, t);
      if !p.Asking? then s
      else if enabled.None? then Moved(s, t, Idle)
      else Moved(s.(given := s.given + {Answer(Feature(p.name, enabled.value), s.now)}), t,
        Storing(p.name, enabled.value, s.now))
    case CommitCheck(t) =>
      var p := PhaseOf(s, t);
      if p.Storing? && NoReaders(s) then
        Moved(s.(cache := Stored(s.cache, p.name, p.enabled, p.givenAt)), t, Idle)
      else s
  }

  // What a step returns to a caller of HasFeature, if it ends the call.
  function Returned(s: System, l: Label): Option<Feature> {
    match l
    case ReadMap(t) =>
      var p := PhaseOf(s, t);
      if p.Reading? && p.name in s.cache.features then Some(Feature(p.name, s.cache.features[p.name].enabled)) else None
    case CheckReply(t, enabled) =>
      var p := PhaseOf(s, t);
      if p.Asking? && enabled.None? then Some(Feature(p.name, false)) else None
    case CommitCheck(t) =>
      var p := PhaseOf(s, t);
      if p.Storing? && NoReaders(s) then Some(Feature(p.name, p.enabled)) else None
    case _ => None
  }

  function Exec(run: seq<Label>): System {
    if run == [] then INITIAL else Step(Exec(run[..|run| - 1]), run[|run| - 1])
  }

  // The delay between a server answer and its write under the lock, when a step commits one.
  ghost predicate CommitsWithin(s: System, l: Label, delay: int) {
    match l
    case CommitRefresh(t) => PhaseOf(s, t).Updating? ==> s.now - PhaseOf(s, t).givenAt <= delay
    case CommitCheck(t) => PhaseOf(s, t).Storing? ==> s.now - PhaseOf(s, t).givenAt <= delay
    case _ => true
  }

  ghost predicate Timely(run: seq<Label>, delay: int) {
    forall k :: 0 <= k < |run| ==> CommitsWithin(Exec(run[..k]), run[k], delay)
  }

  // ---------------------------------------------------------------- the invariant

  ghost predicate PhaseOk(s: System, p: Phase) {
    match p
    case Updating(_, features, at) => at <= s.now && forall f :: f in features ==> Answer(f, at) in s.given
    case Storing(name, enabled, at) => at <= s.now && Answer(Feature(name, enabled), at) in s.given
    case Reading(_, recent, checkedAt) => recent ==> checkedAt <= s.now && !Stale(s.cache, checkedAt)
    case _ => true
  }

  ghost predicate CacheOk(s: System, delay: int) {
    && (s.cache.lastUpdate.Some? ==> s.cache.lastUpdate.value <= s.now)
    && (forall name :: name in s.cache.features ==>
          var e := s.cache.features[name];
          && Answer(Feature(name, e.enabled), e.givenAt) in s.given
          && e.givenAt <= s.now
          && (s.cache.lastUpdate.Some? ==> e.givenAt >= s.cache.lastUpdate.value - delay))
  }

  ghost predicate Inv(s: System, delay: int) {
    CacheOk(s, delay) && forall t :: t in s.threads ==> PhaseOk(s, s.threads[t])
  }

  lemma StepKeepsCache(s: System, l: Label, delay: int)
    requires Inv(s, delay) && CommitsWithin(s, l, delay)
    ensures CacheOk(Step(s, l), delay)
  {
  }

  lemma StepKeepsPhases(s: System, l: Label, delay: int, t: nat)
    requires Inv(s, delay) && t in Step(s, l).threads
    ensures PhaseOk(Step(s, l), Step(s, l).threads[t])
  {
  }

  lemma {:induction false} RunKeepsInv(run: seq<Label>, delay: int)
    requires Timely(run, delay)
    ensures Inv(Exec(run), delay)
  {
    if run != [] {
      var k := |run| - 1;
      var before := run[..k];
      assert Timely(before, delay) by {
        forall j | 0 <= j < |before| ensures CommitsWithin(Exec(before[..j]), before[j], delay) {
          assert before[..j] == run[..j];
        }
      }
      RunKeepsInv(before, delay);
      assert CommitsWithin(Exec(run[..k]), run[k], delay);
      StepKeepsCache(Exec(before), run[k], delay);
      forall t | t in Exec(run).threads ensures PhaseOk(Exec(run), Exec(run).threads[t]) {
        StepKeepsPhases(Exec(before), run[k], delay, t);
      }
    }
  }

  // Every run has a bound on its delays.
  lemma {:induction false} DelayOf(run: seq<Label>) returns (delay: int)
    ensures Timely(run, delay)
  {
    if run == [] {
      return 0;
    }
    var k := |run| - 1;
    var before, s := run[..k], Exec(run[..k]);
    delay := DelayOf(before);
    var p := match run[k] case CommitRefresh(t) => PhaseOf(s, t) case CommitCheck(t) => PhaseOf(s, t) case _ => Idle;
    var last := if p.Updating? || p.Storing? then s.now - p.givenAt else delay;
    delay := if last > delay then last else delay;
    forall j | 0 <= j < |run| ensures CommitsWithin(Exec(run[..j]), run[j], delay) {
      if j < k {
        assert before[..j] == run[..j] && before[j] == run[j];
        assert Timely(before, delay) || CommitsWithin(Exec(before[..j]), before[j], delay);
      }
    }
  }

  // ---------------------------------------------------------------- the lock

  // A refreshed map is written exactly when no goroutine holds the read lock, and so is the answer of a direct check.
  lemma WritesIffUnread(s: System, t: nat)
    ensures PhaseOf(s, t).Updating? ==>
      (PhaseOf(Step(s, CommitRefresh(t)), t) != PhaseOf(s, t)
       <==> forall v :: v in s.threads ==> !PhaseOf(s, v).Reading?)
    ensures PhaseOf(s, t).Storing? ==>
      (PhaseOf(Step(s, CommitCheck(t)), t) != PhaseOf(s, t)
       <==> forall v :: v in s.threads ==> !PhaseOf(s, v).Reading?)
  {
  }

  // From the moment a caller has the read lock until it has read the map, nobody changes it.
  lemma {:induction false} ReadersSeeOneMap(run: seq<Label>, later: seq<Label>, t: nat)
    requires PhaseOf(Exec(run), t).Reading? && ReadMap(t) !in later
    ensures Exec(run + later).cache == Exec(run).cache && PhaseOf(Exec(run + later), t) == PhaseOf(Exec(run), t)
  {
    if later == [] {
      assert run + later == run;
    } else {
      var init, last := later[..|later| - 1], later[|later| - 1];
      assert run + later == (run + init) + [last] && last in later;
      ReadersSeeOneMap(run, init, t);
      Then(run + init, last);
      ReaderKeepsMap(Exec(run + init), last, t);
      hide Step, Exec;
    }
  }

  lemma ReaderKeepsMap(s: System, l: Label, t: nat)
    requires PhaseOf(s, t).Reading? && l != ReadMap(t)
    ensures Step(s, l).cache == s.cache && PhaseOf(Step(s, l), t) == PhaseOf(s, t)
  {
    assert t in s.threads && s.threads[t].Reading?;
  }

  // ---------------------------------------------------------------- bounded staleness

  // Whatever is read from the map was answered by the server, for this feature and with this value, no earlier
  // than `delay` before the last refresh, even when an older direct check is written after a newer refresh.
  lemma ReadsAreAnswers(run: seq<Label>, delay: int, t: nat)
    requires Timely(run, delay)
    requires PhaseOf(Exec(run), t).Reading? && PhaseOf(Exec(run), t).name in Exec(run).cache.features
    ensures var s := Exec(run); var p := PhaseOf(s, t); var e := s.cache.features[p.name];
      && Returned(s, ReadMap(t)) == Some(Feature(p.name, e.enabled))
      && Answer(Feature(p.name, e.enabled), e.givenAt) in s.given
      && e.givenAt <= s.now
      && (s.cache.lastUpdate.Some? ==> s.now - e.givenAt <= s.now - s.cache.lastUpdate.value + delay)
  {
    RunKeepsInv(run, delay);
  }

  // A caller that found the cache within its lifetime gets an answer that was at most cacheTTL + delay old when
  // it looked, whatever the other goroutines did.
  lemma FreshReadsAreRecent(run: seq<Label>, delay: int, t: nat)
    requires Timely(run, delay)
    requires PhaseOf(Exec(run), t).Reading? && PhaseOf(Exec(run), t).recent
    requires PhaseOf(Exec(run), t).name in Exec(run).cache.features
    ensures var s := Exec(run); var p := PhaseOf(s, t);
      exists a :: a in s.given && Returned(s, ReadMap(t)) == Some(a.feature) && a.feature.name == p.name
        && p.checkedAt - a.at <= CACHE_TTL + delay
  {
    RunKeepsInv(run, delay);
    var s := Exec(run);
    var p := PhaseOf(s, t);
    var e := s.cache.features[p.name];
    assert Answer(Feature(p.name, e.enabled), e.givenAt) in s.given;
  }

  // No run grants a feature that the server never entitled: an error, a missing entry or a stale cache never
  // becomes a positive answer.
  lemma GrantsComeFromServer(run: seq<Label>, l: Label)
    requires Returned(Exec(run), l).Some? && Returned(Exec(run), l).value.entitled
    ensures exists a :: a in Exec(run).given && a.feature == Returned(Exec(run), l).value
  {
    var delay := DelayOf(run);
    RunKeepsInv(run, delay);
    var s := Exec(run);
    match l {
      case ReadMap(t) =>
        var e := s.cache.features[PhaseOf(s, t).name];
        assert Answer(Feature(PhaseOf(s, t).name, e.enabled), e.givenAt) in s.given;
      case CommitCheck(t) =>
        var p := PhaseOf(s, t);
        assert Answer(Feature(p.name, p.enabled), p.givenAt) in s.given;
    }
  }

  lemma Then(run: seq<Label>, l: Label)
    ensures Exec(run + [l]) == Step(Exec(run), l)
  {
    assert (run + [l])[..|run|] == run;
  }

  function RefreshOnce(name: string): seq<Label> {
    [] + [CallRefresh(0)] + [ValidateReply(0, Some([Feature(name, true)]))] + [CommitRefresh(0)]
  }

  lemma RefreshOnceFills(name: string)
    ensures var s := Exec(RefreshOnce(name));
      && s.cache == Cache(map[name := Entry(true, 0)], Some(0)) && s.threads == map[0 := Idle]
      && s.now == 0 && s.given == {Answer(Feature(name, true), 0)}
  {
    var a, b, c := CallRefresh(0), ValidateReply(0, Some([Feature(name, true)])), CommitRefresh(0);
    Then([], a);
    Then([] + [a], b);
    Then([] + [a] + [b], c);
    assert Entries([Feature(name, true)], 0) == map[name := Entry(true, 0)];
  }

  // After a failed refresh the old map is read without looking at its age again.
  lemma FailedRefreshReadsOldMap(name: string, age: nat)
    requires age > CACHE_TTL
    ensures var run := RefreshOnce(name) + [Tick(age)] + [CallHas(0, name)] + [ValidateReply(0, None)] + [RLock(0)];
      && Returned(Exec(run), ReadMap(0)) == Some(Feature(name, true))
      && Exec(run).given == {Answer(Feature(name, true), 0)} && Exec(run).now == age
  {
    hide Exec, RefreshOnce;
    var run := RefreshOnce(name);
    RefreshOnceFills(name);
    Then(run, Tick(age));
    Then(run + [Tick(age)], CallHas(0, name));
    Then(run + [Tick(age)] + [CallHas(0, name)], ValidateReply(0, None));
    Then(run + [Tick(age)] + [CallHas(0, name)] + [ValidateReply(0, None)], RLock(0));
  }

  // ---------------------------------------------------------------- exactly when reads are recent

  // How long ago the last refresh was committed, if there was one.
  function Gap(s: System): Option<int> {
    match s.cache.lastUpdate case None => None case Some(at) => Some(s.now - at)
  }

  predicate ReadsMap(s: System, t: nat) {
    PhaseOf(s, t).Reading? && PhaseOf(s, t).name in s.cache.features
  }

  // How long ago the server gave the answer that is read.
  function Age(s: System, t: nat): int
    requires ReadsMap(s, t)
  {
    s.now - s.cache.features[PhaseOf(s, t).name].givenAt
  }

  // In runs that commit within the delay, no answer read when the last refresh is that long ago is older than allowed.
  ghost predicate ReadsAreRecent(delay: nat, gap: Option<nat>) {
    forall run, t :: Timely(run, delay) && ReadsMap(Exec(run), t) && Gap(Exec(run)) == gap
      ==> Age(Exec(run), t) <= CACHE_TTL + delay
  }

  lemma ThenTimely(run: seq<Label>, l: Label, delay: int)
    requires Timely(run, delay) && CommitsWithin(Exec(run), l, delay)
    ensures Timely(run + [l], delay) && Exec(run + [l]) == Step(Exec(run), l)
  {
    var all := run + [l];
    Then(run, l);
    forall k | 0 <= k < |all| ensures CommitsWithin(Exec(all[..k]), all[k], delay) {
      assert all[..k] == if k < |run| then run[..k] else run;
    }
  }

  // A caller refreshes, with the commit delayed, and waits long for the read lock.
  function SlowCommit(name: string, delay: nat): seq<Label> {
    [] + [CallHas(0, name)] + [ValidateReply(0, Some([Feature(name, true)]))] + [Tick(delay)] + [CommitRefresh(0)]
  }

  function SlowCaller(name: string, delay: nat, gap: nat): seq<Label> {
    SlowCommit(name, delay) + [Tick(gap)] + [RLock(0)]
  }

  lemma SlowCommitFills(name: string, delay: nat)
    ensures var s := Exec(SlowCommit(name, delay));
      && Timely(SlowCommit(name, delay), delay) && s.threads == map[0 := Relocking(name)] && s.now == delay
      && s.cache == Cache(map[name := Entry(true, 0)], Some(delay))
  {
    var a, b, c := CallHas(0, name), ValidateReply(0, Some([Feature(name, true)])), Tick(delay);
    assert Entries([Feature(name, true)], 0) == map[name := Entry(true, 0)];
    ThenTimely([], a, delay);
    hide Exec, Timely, Entries;
    ThenTimely([] + [a], b, delay);
    ThenTimely([] + [a] + [b], c, delay);
    ThenTimely([] + [a] + [b] + [c], CommitRefresh(0), delay);
  }

  lemma SlowCallerReads(name: string, delay: nat, gap: nat)
    ensures var s := Exec(SlowCaller(name, delay, gap));
      && Timely(SlowCaller(name, delay, gap), delay)
      && ReadsMap(s, 0) && Gap(s) == Some(gap) && Age(s, 0) == delay + gap
  {
    var run := SlowCommit(name, delay);
    SlowCommitFills(name, delay);
    hide Exec, Timely, SlowCommit;
    ThenTimely(run, Tick(gap), delay);
    ThenTimely(run + [Tick(gap)], RLock(0), delay);
  }

  // No refresh succeeds and the server is asked directly.
  function FirstAsk(name: string): seq<Label> {
    [] + [CallHas(0, name)] + [ValidateReply(0, None)] + [RLock(0)] + [ReadMap(0)]
  }

  function FirstCheck(name: string): seq<Label> {
    FirstAsk(name) + [CheckReply(0, Some(true))] + [CommitCheck(0)]
  }

  // The same again, much later, with the first answer still in the map.
  function NeverRefreshed(name: string, age: nat): seq<Label> {
    FirstCheck(name) + [Tick(age)] + [CallHas(0, name)] + [ValidateReply(0, None)] + [RLock(0)]
  }

  lemma FirstAskAsks(name: string, delay: nat)
    ensures var s := Exec(FirstAsk(name));
      && Timely(FirstAsk(name), delay) && s.threads == map[0 := Asking(name)] && s.now == 0 && s.cache == EMPTY
  {
    ThenTimely([], CallHas(0, name), delay);
    hide Exec, Timely;
    ThenTimely([] + [CallHas(0, name)], ValidateReply(0, None), delay);
    ThenTimely([] + [CallHas(0, name)] + [ValidateReply(0, None)], RLock(0), delay);
    ThenTimely([] + [CallHas(0, name)] + [ValidateReply(0, None)] + [RLock(0)], ReadMap(0), delay);
  }

  lemma FirstCheckStores(name: string, delay: nat)
    ensures var s := Exec(FirstCheck(name));
      && Timely(FirstCheck(name), delay) && s.threads == map[0 := Idle] && s.now == 0
      && s.cache == Cache(map[name := Entry(true, 0)], None)
  {
    FirstAskAsks(name, delay);
    hide Exec, Timely, FirstAsk;
    ThenTimely(FirstAsk(name), CheckReply(0, Some(true)), delay);
    ThenTimely(FirstAsk(name) + [CheckReply(0, Some(true))], CommitCheck(0), delay);
  }

  lemma NeverRefreshedReads(name: string, delay: nat, age: nat)
    ensures var s := Exec(NeverRefreshed(name, age));
      && Timely(NeverRefreshed(name, age), delay)
      && ReadsMap(s, 0) && Gap(s) == None && Age(s, 0) == age
  {
    var run := FirstCheck(name);
    FirstCheckStores(name, delay);
    hide Exec, Timely, FirstCheck;
    ThenTimely(run, Tick(age), delay);
    ThenTimely(run + [Tick(age)], CallHas(0, name), delay);
    ThenTimely(run + [Tick(age)] + [CallHas(0, name)], ValidateReply(0, None), delay);
    ThenTimely(run + [Tick(age)] + [CallHas(0, name)] + [ValidateReply(0, None)], RLock(0), delay);
  }

  // Answers read are at most cacheTTL + delay old, over all runs that commit within the delay, exactly when a refresh
  // has succeeded and was committed no longer than cacheTTL before the read.
  lemma StalenessCondition(delay: nat, gap: Option<nat>)
    ensures ReadsAreRecent(delay, gap) <==> gap.Some? && gap.value <= CACHE_TTL
  {
    if gap.None? {
      NeverRefreshedReads("f", delay, CACHE_TTL + delay + 1);
    } else if gap.value > CACHE_TTL {
      SlowCallerReads("f", delay, gap.value);
    } else {
      forall run, t | Timely(run, delay) && ReadsMap(Exec(run), t) && Gap(Exec(run)) == gap
        ensures Age(Exec(run), t) <= CACHE_TTL + delay
      {
        ReadsAreAnswers(run, delay, t);
      }
    }
  }
}

// The gate as the object it is, for calls that do not overlap.
module FeatureGate {
  import opened Wrappers
  import opened FeatureCache

  datatype Result = Result(cache: Cache, enabled: bool)

  // The instants of a call: when it looks at the age of the cache, when the validation is answered, when the refreshed
  // map is written, and when the direct check is answered.
  datatype Clock = Clock(looks: int, validated: int, written: int, checked: int)

  // What one call does when nothing interferes.
  function AfterRefresh(c: Cache, reply: Option<seq<Feature>>, givenAt: int, now: int): Cache {
    if reply.None? then c else Refreshed(reply.value, givenAt, now)
  }

  function HasResult(c: Cache, name: string, validate: Option<seq<Feature>>, check: Option<bool>,
      clock: Clock): Result {
    var looked := if Stale(c, clock.looks) then AfterRefresh(c, validate, clock.validated, clock.written) else c;
    if name in looked.features then Result(looked, looked.features[name].enabled)
    else if check.None? then Result(looked, false)
    else Result(Stored(looked, name, check.value, clock.checked), check.value)
  }

  function Zip(features: map<string, bool>, givenAt: map<string, int>): map<string, Entry>
    requires features.Keys == givenAt.Keys
  {
    map name | name in features :: Entry(features[name], givenAt[name])
  }

  lemma ZipUpdate(features: map<string, bool>, givenAt: map<string, int>, name: string, enabled: bool, at: int)
    requires features.Keys == givenAt.Keys
    ensures features[name := enabled].Keys == givenAt[name := at].Keys
    ensures Zip(features[name := enabled], givenAt[name := at]) == Zip(features, givenAt)[name := Entry(enabled, at)]
  {
  }

  class Gate {
    var features: map<string, bool>
    var lastUpdate: Option<int>
    ghost var givenAt: map<string, int>

    ghost predicate Valid()
      reads this
    {
      features.Keys == givenAt.Keys
    }

    ghost function View(): Cache
      reads this
      requires Valid()
    {
      Cache(Zip(features, givenAt), lastUpdate)
    }

    // NewFeatureGate
    constructor (validate: Option<seq<Feature>>, ghost validated: int, now: int)
      ensures Valid() && View() == AfterRefresh(EMPTY, validate, validated, now)
    {
      features, lastUpdate, givenAt := map[], None, map[];
      new;
      assert View() == EMPTY;
      RefreshFeatures(validate, validated, now);
    }

    // refreshFeatures; validated is when the server gave its answer, and now is when it is written.
    method RefreshFeatures(reply: Option<seq<Feature>>, ghost validated: int, now: int)
      requires Valid()
      modifies this
      ensures Valid() && View() == AfterRefresh(old(View()), reply, validated, now)
    {
      if reply.None? {
        return;
      }
      var list := reply.value;
      features, givenAt := map[], map[];
      for i := 0 to |list|
        invariant Valid() && Zip(features, givenAt) == Entries(list[..i], validated)
      {
        hide Zip;
        assert list[..i + 1][..i] == list[..i];
        ZipUpdate(features, givenAt, list[i].name, list[i].entitled, validated);
        features := features[list[i].name := list[i].entitled];
        givenAt := givenAt[list[i].name := validated];
      }
      assert list[..|list|] == list;
      lastUpdate := Some(now);
    }

    // HasFeature
    method HasFeature(name: string, validate: Option<seq<Feature>>, check: Option<bool>,
        clock: Clock) returns (enabled: bool)
      requires Valid()
      modifies this
      ensures Valid() && Result(View(), enabled) == HasResult(old(View()), name, validate, check, clock)
    {
      if lastUpdate.None? || clock.looks - lastUpdate.value > CACHE_TTL {
        RefreshFeatures(validate, clock.validated, clock.written);
      }
      if name in features {
        return features[name];
      }
      if check.None? {
        return false;
      }
      ZipUpdate(features, givenAt, name, check.value, clock.checked);
      features := features[name := check.value];
      givenAt := givenAt[name := clock.checked];
      return check.value;
    }
  }
}

// Calls that do not overlap are runs of the interleaved system.
module FeatureGateSequential {
  import opened Wrappers
  import opened FeatureCache
  import opened FeatureGateRuns
  import FeatureGate

  // How long a call waits for the validation, for the lock, for the read lock, for the direct check and for the lock
  // again.
  datatype Waits = Waits(validation: nat, lock: nat, readLock: nat, check: nat, lockAgain: nat)

  function ClockOf(now: int, w: Waits): FeatureGate.Clock {
    var written := now + w.validation + w.lock;
    FeatureGate.Clock(now, now + w.validation, written, written + w.readLock + w.check)
  }

  // A run extended by a call that has looked at the age of the cache and holds the read lock. Labels that do not
  // apply, such as a server answer that is not asked for, change nothing.
  function Looked(run: seq<Label>, t: nat, name: string, validate: Option<seq<Feature>>, w: Waits): seq<Label> {
    run + [CallHas(t, name)] + [Tick(w.validation)] + [ValidateReply(t, validate)] + [Tick(w.lock)] + [CommitRefresh(t)]
    + [Tick(w.readLock)] + [RLock(t)]
  }

  function WithCall(run: seq<Label>, t: nat, name: string, validate: Option<seq<Feature>>, check: Option<bool>,
      w: Waits): seq<Label> {
    Looked(run, t, name, validate, w) + [ReadMap(t)] + [Tick(w.check)] + [CheckReply(t, check)] + [Tick(w.lockAgain)]
    + [CommitCheck(t)]
  }

  // What the labels of a call that holds the read lock return, whichever of them ends it.
  function Answered(s: System, t: nat, check: Option<bool>, w: Waits): Option<Feature> {
    var u := Step(Step(s, ReadMap(t)), Tick(w.check));
    var v := Step(Step(u, CheckReply(t, check)), Tick(w.lockAgain));
    if Returned(s, ReadMap(t)).Some? then Returned(s, ReadMap(t))
    else if Returned(u, CheckReply(t, check)).Some? then Returned(u, CheckReply(t, check))
    else Returned(v, CommitCheck(t))
  }

  ghost predicate AllIdle(s: System) {
    forall t :: t in s.threads ==> s.threads[t].Idle?
  }

  ghost predicate OthersIdle(s: System, t: nat) {
    forall v :: v in s.threads && v != t ==> s.threads[v].Idle?
  }

  // The labels of a call up to the write of the refreshed map, then up to the read lock, then to its end.
  function Written(s: System, t: nat, validate: Option<seq<Feature>>, w: Waits): System {
    Step(Step(Step(Step(s, Tick(w.validation)), ValidateReply(t, validate)), Tick(w.lock)), CommitRefresh(t))
  }

  function Looks(s: System, t: nat, name: string, validate: Option<seq<Feature>>, w: Waits): System {
    Step(Step(Written(Step(s, CallHas(t, name)), t, validate, w), Tick(w.readLock)), RLock(t))
  }

  function Finishes(s: System, t: nat, check: Option<bool>, w: Waits): System {
    Step(Step(Step(Step(Step(s, ReadMap(t)), Tick(w.check)), CheckReply(t, check)), Tick(w.lockAgain)), CommitCheck(t))
  }

  lemma RefreshPart(s: System, t: nat, name: string, validate: Option<seq<Feature>>, w: Waits)
    requires OthersIdle(s, t) && PhaseOf(s, t) == Refreshing(Some(name))
    ensures var u := Written(s, t, validate, w);
      && u.cache == FeatureGate.AfterRefresh(s.cache, validate, s.now + w.validation, s.now + w.validation + w.lock)
      && PhaseOf(u, t) == Relocking(name) && u.now == s.now + w.validation + w.lock && OthersIdle(u, t)
  {
    hide Entries;
  }

  lemma ReadingWaits(s: System, t: nat, validate: Option<seq<Feature>>, w: Waits)
    requires OthersIdle(s, t) && PhaseOf(s, t).Reading?
    ensures var u := Written(s, t, validate, w);
      && u.cache == s.cache && PhaseOf(u, t) == PhaseOf(s, t) && OthersIdle(u, t)
      && u.now == s.now + w.validation + w.lock
  {
  }

  lemma CallLooks(s: System, t: nat, name: string, validate: Option<seq<Feature>>, w: Waits)
    requires AllIdle(s)
    ensures var u := Looks(s, t, name, validate, w);
      && u.cache == (if Stale(s.cache, s.now) then
           FeatureGate.AfterRefresh(s.cache, validate, s.now + w.validation, s.now + w.validation + w.lock)
         else s.cache)
      && PhaseOf(u, t).Reading? && PhaseOf(u, t).name == name && u.now == s.now + w.validation + w.lock + w.readLock
      && OthersIdle(u, t)
  {
    hide Step, OthersIdle, AllIdle, Written, Stale, FeatureGate.AfterRefresh;
    var c := Step(s, CallHas(t, name));
    CallStarts(s, t, name);
    if Stale(s.cache, s.now) {
      RefreshPart(c, t, name, validate, w);
    } else {
      ReadingWaits(c, t, validate, w);
    }
    CallLocks(Written(c, t, validate, w), t, name, w);
  }

  lemma CallStarts(s: System, t: nat, name: string)
    requires AllIdle(s)
    ensures var c := Step(s, CallHas(t, name));
      && PhaseOf(c, t) == (if Stale(s.cache, s.now) then Refreshing(Some(name)) else Reading(name, true, s.now))
      && OthersIdle(c, t) && c.cache == s.cache && c.now == s.now
  {
    hide Stale;
  }

  lemma CallLocks(s: System, t: nat, name: string, w: Waits)
    requires OthersIdle(s, t)
    requires PhaseOf(s, t) == Relocking(name) || (PhaseOf(s, t).Reading? && PhaseOf(s, t).name == name)
    ensures var u := Step(Step(s, Tick(w.readLock)), RLock(t));
      && PhaseOf(u, t).Reading? && PhaseOf(u, t).name == name && OthersIdle(u, t)
      && u.cache == s.cache && u.now == s.now + w.readLock
  {
  }

  lemma CallFinishes(s: System, t: nat, check: Option<bool>, w: Waits)
    requires PhaseOf(s, t).Reading? && OthersIdle(s, t)
    ensures var u, name := Finishes(s, t, check, w), PhaseOf(s, t).name;
      && u.cache == (if name in s.cache.features || check.None? then s.cache
                     else Stored(s.cache, name, check.value, s.now + w.check))
      && AllIdle(u)
      && Answered(s, t, check, w) == Some(Feature(name,
           if name in s.cache.features then s.cache.features[name].enabled else check.Some? && check.value))
  {
  }

  // One call that nothing interferes with, however long it waits, is a run of the interleaved system with the
  // result the method computes.
  lemma CallIsRun(run: seq<Label>, t: nat, name: string, validate: Option<seq<Feature>>, check: Option<bool>, w: Waits)
    requires AllIdle(Exec(run))
    ensures var s, e := Exec(run), Exec(WithCall(run, t, name, validate, check, w));
      var result := FeatureGate.HasResult(s.cache, name, validate, check, ClockOf(s.now, w));
      && e.cache == result.cache && AllIdle(e)
      && Answered(Exec(Looked(run, t, name, validate, w)), t, check, w) == Some(Feature(name, result.enabled))
  {
    hide Step, Exec, AllIdle, Answered, Looked, OthersIdle, Looks, Finishes, WithCall, Stale,
      FeatureGate.AfterRefresh, Stored;
    CallLooks(Exec(run), t, name, validate, w);
    LookedRun(run, t, name, validate, w);
    CallFinishes(Exec(Looked(run, t, name, validate, w)), t, check, w);
    FinishedRun(run, t, name, validate, check, w);
  }

  // The call's answer, from what the server sent: a map refreshed at most five minutes ago, or one that cannot be
  // refreshed, answers for the names in it; a refreshed one answers with the last entry of the list; for other
  // names the direct check does, and an error counts as no.
  ghost predicate Grants(c: Cache, now: int, name: string, validate: Option<seq<Feature>>, check: Option<bool>) {
    if (c.lastUpdate.Some? && now - c.lastUpdate.value <= 300_000) || validate.None? then
      if name in c.features then c.features[name].enabled else check == Some(true)
    else Listed(validate.value, name, true) || (!Listed(validate.value, name, false) && check == Some(true))
  }

  lemma CallAnswers(run: seq<Label>, t: nat, name: string, validate: Option<seq<Feature>>, check: Option<bool>,
      w: Waits)
    requires AllIdle(Exec(run))
    ensures var s := Exec(run);
      Answered(Exec(Looked(run, t, name, validate, w)), t, check, w)
      == Some(Feature(name, Grants(s.cache, s.now, name, validate, check)))
  {
    CallIsRun(run, t, name, validate, check, w);
    ResultGrants(Exec(run).cache, Exec(run).now, name, validate, check, w);
    hide *;
  }

  lemma ResultGrants(c: Cache, now: int, name: string, validate: Option<seq<Feature>>, check: Option<bool>, w: Waits)
    ensures FeatureGate.HasResult(c, name, validate, check, ClockOf(now, w)).enabled
      <==> Grants(c, now, name, validate, check)
  {
    hide Entries, Listed;
    if validate.Some? {
      EntriesAreLast(validate.value, now + w.validation, name);
    }
  }

  // A refresh is asked for exactly when none has succeeded in the last five minutes; a successful one is dated.
  lemma RefreshedIffStale(run: seq<Label>, t: nat, name: string, validate: Option<seq<Feature>>, check: Option<bool>,
      w: Waits)
    requires AllIdle(Exec(run))
    ensures var s, e := Exec(run), Exec(WithCall(run, t, name, validate, check, w));
      var recent := s.cache.lastUpdate.Some? && s.now - s.cache.lastUpdate.value <= 300_000;
      && e.cache.lastUpdate == (if recent || validate.None? then s.cache.lastUpdate
                                else Some(s.now + w.validation + w.lock))
      && (forall other :: (recent || validate.None?) && other in s.cache.features ==>
            other in e.cache.features && e.cache.features[other] == s.cache.features[other])
  {
    CallIsRun(run, t, name, validate, check, w);
    hide Exec, AllIdle, Answered, Looked, Entries, WithCall;
  }

  // A granted feature is in the map afterwards, and so is any other answer but an error's.
  lemma AnswerIsCached(run: seq<Label>, t: nat, name: string, validate: Option<seq<Feature>>, check: Option<bool>,
      w: Waits)
    requires AllIdle(Exec(run))
    ensures var s, e := Exec(run), Exec(WithCall(run, t, name, validate, check, w));
      && (check.Some? ==> name in e.cache.features)
      && (name in e.cache.features ==> e.cache.features[name].enabled == Grants(s.cache, s.now, name, validate, check))
      && (name !in e.cache.features ==> !Grants(s.cache, s.now, name, validate, check))
      && AllIdle(e)
  {
    CallIsRun(run, t, name, validate, check, w);
    CallAnswers(run, t, name, validate, check, w);
    hide Exec, AllIdle, Answered, Looked, Entries, WithCall, Grants;
  }

  // Within five minutes of the last refresh the same question gets the same answer, whatever the server would say
  // by then.
  lemma AnswerIsRepeated(run: seq<Label>, t: nat, name: string, validate: Option<seq<Feature>>, check: Option<bool>,
      w: Waits, t2: nat, validate2: Option<seq<Feature>>, check2: Option<bool>, w2: Waits)
    requires AllIdle(Exec(run)) && check.Some?
    requires var e := Exec(WithCall(run, t, name, validate, check, w));
      e.cache.lastUpdate.Some? && e.now - e.cache.lastUpdate.value <= 300_000
    ensures var once := WithCall(run, t, name, validate, check, w);
      Answered(Exec(Looked(run, t, name, validate, w)), t, check, w)
      == Answered(Exec(Looked(once, t2, name, validate2, w2)), t2, check2, w2)
  {
    var once := WithCall(run, t, name, validate, check, w);
    AnswerIsCached(run, t, name, validate, check, w);
    CallAnswers(run, t, name, validate, check, w);
    CallAnswers(once, t2, name, validate2, check2, w2);
    hide Exec, AllIdle, Answered, Looked, WithCall;
    hide Listed;
  }

  lemma FinishedRun(run: seq<Label>, t: nat, name: string, validate: Option<seq<Feature>>, check: Option<bool>,
      w: Waits)
    ensures Exec(WithCall(run, t, name, validate, check, w))
      == Finishes(Exec(Looked(run, t, name, validate, w)), t, check, w)
  {
    hide Step, Exec, Looked;
    var looked, a, b := Looked(run, t, name, validate, w), [ReadMap(t)], [Tick(w.check)];
    var c, d := [CheckReply(t, check)], [Tick(w.lockAgain)];
    Then(looked, a[0]);
    Then(looked + a, b[0]);
    Then(looked + a + b, c[0]);
    Then(looked + a + b + c, d[0]);
    Then(looked + a + b + c + d, CommitCheck(t));
  }

  lemma LookedRun(run: seq<Label>, t: nat, name: string, validate: Option<seq<Feature>>, w: Waits)
    ensures Exec(Looked(run, t, name, validate, w)) == Looks(Exec(run), t, name, validate, w)
  {
    hide Step, Exec;
    var a, b, c := [CallHas(t, name)], [Tick(w.validation)], [ValidateReply(t, validate)];
    var d, e, f := [Tick(w.lock)], [CommitRefresh(t)], [Tick(w.readLock)];
    Then(run, a[0]);
    Then(run + a, b[0]);
    Then(run + a + b, c[0]);
    Then(run + a + b + c, d[0]);
    Then(run + a + b + c + d, e[0]);
    Then(run + a + b + c + d + e, f[0]);
    Then(run + a + b + c + d + e + f, RLock(t));
  }
}
