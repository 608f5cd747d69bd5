// Two streams whose workers write to one index: each is a pipeline of its own, but a document's key names only the
// Redis id of its message, not its stream.
module LogStreams {
  import opened Wrappers
  import opened ConsumerGroup
  import opened LogDocuments
  import opened LogPipeline
  import opened LogGuarantees
  import opened LogConditions
  import opened LogRecovery
  import LogSweep

  datatype RedisId = RedisId(ms: nat, number: nat)
  datatype SharedKey = SharedKey(index: DailyIndex, id: RedisId)

  datatype Side = Logs | Metrics
  datatype Origin = Origin(side: Side, source: Source)

  // The configuration of the two workers, and the ids that Redis gave to the entries of the two streams.
  datatype Setting = Setting(logs: Config, metrics: Config, logId: nat -> RedisId, metricId: nat -> RedisId)

  // Redis gives no id twice in one stream.
  ghost predicate UniqueIds(st: Setting) {
    && (forall i: nat, j: nat :: i != j ==> st.logId(i) != st.logId(j))
    && (forall i: nat, j: nat :: i != j ==> st.metricId(i) != st.metricId(j))
  }

  function ConfigOf(st: Setting, side: Side): Config {
    if side == Logs then st.logs else st.metrics
  }

  function IdOf(st: Setting, side: Side, message: nat): RedisId {
    if side == Logs then st.logId(message) else st.metricId(message)
  }

  function KeyOf(st: Setting, side: Side, key: DocKey): SharedKey {
    SharedKey(key.index, IdOf(st, side, key.id.message))
  }

  // The index inside each system is what that stream wrote; es is the one index there is.
  datatype World = World(logs: System, metrics: System, es: map<SharedKey, Origin>)
  datatype Event = Event(side: Side, move: Label)

  const BEGINNING := World(INITIAL, INITIAL, map[])

  function SystemOf(x: World, side: Side): System {
    if side == Logs then x.logs else x.metrics
  }

  function StoreShared(st: Setting, side: Side, es: map<SharedKey, Origin>, docs: seq<Doc>,
      outcome: BulkOutcome): map<SharedKey, Origin> {
    if docs == [] then es
    else
      var last := docs[|docs| - 1];
      var before := StoreShared(st, side, es, docs[..|docs| - 1], outcome);
      if Stored(docs, outcome, |docs| - 1) then before[KeyOf(st, side, last.key) := Origin(side, last.source)]
      else before
  }

  // The clock is common; everything else happens in one of the two pipelines, and a bulk call writes to the index.
  function Happens(st: Setting, x: World, e: Event): World {
    if e.move.Tick? then World(Step(st.logs, x.logs, e.move), Step(st.metrics, x.metrics, e.move), x.es)
    else
      var s := SystemOf(x, e.side);
      var t := Step(ConfigOf(st, e.side), s, e.move);
      var es := if Bulks(s, e.move) then StoreShared(st, e.side, x.es, PhaseOf(s, e.move.w).docs, e.move.outcome)
        else x.es;
      if e.side == Logs then World(t, x.metrics, es) else World(x.logs, t, es)
  }

  function History(st: Setting, events: seq<Event>): World {
    if events == [] then BEGINNING else Happens(st, History(st, events[..|events| - 1]), events[|events| - 1])
  }

  // The run of one of the two pipelines.
  function Part(events: seq<Event>, side: Side): seq<Label> {
    if events == [] then []
    else
      var last := events[|events| - 1];
      Part(events[..|events| - 1], side) + if last.move.Tick? || last.side == side then [last.move] else []
  }

  // Each pipeline runs as if it were alone, so everything proved of one stream holds of both.
  lemma {:induction false} PartsAreRuns(st: Setting, events: seq<Event>)
    ensures History(st, events).logs == Final(st.logs, Part(events, Logs))
    ensures History(st, events).metrics == Final(st.metrics, Part(events, Metrics))
  {
    if events != [] {
      PartsAreRuns(st, events[..|events| - 1]);
      PartGrows(st, events, Logs);
      PartGrows(st, events, Metrics);
      hide Step;
    }
  }

  lemma PartGrows(st: Setting, events: seq<Event>, side: Side)
    requires events != []
    ensures var before, last := Part(events[..|events| - 1], side), events[|events| - 1];
      Final(ConfigOf(st, side), Part(events, side))
      == if last.move.Tick? || last.side == side then
           Step(ConfigOf(st, side), Final(ConfigOf(st, side), before), last.move)
         else Final(ConfigOf(st, side), before)
  {
    var before, last := Part(events[..|events| - 1], side), events[|events| - 1];
    assert before + [] == before && (before + [last.move])[..|before|] == before;
    hide Step;
  }

  // ---------------------------------------------------------------- the shared index

  // The stream wrote this document under this key, and no other since.
  predicate Backed(st: Setting, side: Side, own: Index, k: SharedKey, source: Source) {
    var key := DocKey(k.index, Sha256(source.message));
    key in own && own[key] == source && IdOf(st, side, source.message) == k.id
  }

  // Everything in the shared index is backed by one of the streams, and whatever a stream wrote has its key there.
  ghost predicate Merged(st: Setting, x: World) {
    && (forall k :: k in x.es ==> Backed(st, x.es[k].side, SystemOf(x, x.es[k].side).es, k, x.es[k].source))
    && (forall side, key :: key in SystemOf(x, side).es ==> KeyOf(st, side, key) in x.es)
  }

  ghost predicate Genuines(docs: seq<Doc>) {
    forall d :: d in docs ==> d.key.id == Sha256(d.source.message)
  }

  // What writing to an index keeps: nothing disappears, the writer's documents are backed, the others are as they were.
  ghost predicate KeepsBacked(st: Setting, side: Side, es: map<SharedKey, Origin>, after: map<SharedKey, Origin>,
      own: Index, k: SharedKey) {
    && (k in es ==> k in after)
    && (k in after && after[k].side == side ==> Backed(st, side, own, k, after[k].source))
    && (k in after && after[k].side != side ==> k in es && after[k] == es[k])
  }

  // A document written under another key does not disturb the one under this key; written under this key, it is the
  // one.
  lemma OneDocKeepsBacked(st: Setting, side: Side, es: map<SharedKey, Origin>, after: map<SharedKey, Origin>,
      own: Index, d: Doc, k: SharedKey)
    requires d.key.id == Sha256(d.source.message) && KeepsBacked(st, side, es, after, own, k)
    ensures var written := after[KeyOf(st, side, d.key) := Origin(side, d.source)];
      KeepsBacked(st, side, es, written, own[d.key := d.source], k)
  {
  }

  // One bulk call, document by document.
  lemma {:induction false} BulkKeepsBacked(st: Setting, side: Side, es: map<SharedKey, Origin>, own: Index,
      docs: seq<Doc>, outcome: BulkOutcome, k: SharedKey)
    requires Genuines(docs)
    requires k in es && es[k].side == side ==> Backed(st, side, own, k, es[k].source)
    ensures KeepsBacked(st, side, es, StoreShared(st, side, es, docs, outcome), Store(own, docs, outcome), k)
  {
    if docs != [] {
      var init, last := docs[..|docs| - 1], docs[|docs| - 1];
      assert last in docs && Genuines(init);
      hide Store, Backed, KeepsBacked, Genuines, KeyOf;
      BulkKeepsBacked(st, side, es, own, init, outcome, k);
      StoreLast(own, docs, outcome);
      OneDocKeepsBacked(st, side, es, StoreShared(st, side, es, init, outcome), Store(own, init, outcome), last, k);
    }
  }

  lemma {:induction false} BulkKeepsKeys(st: Setting, side: Side, es: map<SharedKey, Origin>, own: Index,
      docs: seq<Doc>, outcome: BulkOutcome, key: DocKey)
    requires key in own ==> KeyOf(st, side, key) in es
    requires key in Store(own, docs, outcome)
    ensures KeyOf(st, side, key) in StoreShared(st, side, es, docs, outcome)
  {
    if docs != [] {
      StoreLast(own, docs, outcome);
      var init := docs[..|docs| - 1];
      if key in Store(own, init, outcome) {
        BulkKeepsKeys(st, side, es, own, init, outcome, key);
      }
      hide Store;
    }
  }

  lemma OnlyBulkWrites(cfg: Config, s: System, l: Label)
    ensures Step(cfg, s, l).es == if Bulks(s, l) then Store(s.es, PhaseOf(s, l.w).docs, l.outcome) else s.es
  {
    hide Store;
  }

  lemma HeldDocsAreGenuine(cfg: Config, s: System, w: string)
    requires Inv(cfg, s) && PhaseOf(s, w).Converting?
    ensures Genuines(PhaseOf(s, w).docs)
  {
    assert PhaseOk(cfg, s.g, PhaseOf(s, w));
  }

  lemma HappensKeepsMerged(st: Setting, x: World, e: Event)
    requires Merged(st, x) && Inv(ConfigOf(st, e.side), SystemOf(x, e.side))
    ensures Merged(st, Happens(st, x, e))
  {
    OnlyBulkWrites(st.logs, x.logs, e.move);
    OnlyBulkWrites(st.metrics, x.metrics, e.move);
    hide Step, Store, StoreShared, Merged, Inv;
    var s := SystemOf(x, e.side);
    if Bulks(s, e.move) {
      HeldDocsAreGenuine(ConfigOf(st, e.side), s, e.move.w);
      BulkKeepsMerged(st, x, e);
    } else {
      SameIndexes(st, x, Happens(st, x, e));
    }
  }

  lemma SameIndexes(st: Setting, x: World, y: World)
    requires Merged(st, x) && y.es == x.es && y.logs.es == x.logs.es && y.metrics.es == x.metrics.es
    ensures Merged(st, y)
  {
  }

  lemma BulkKeepsMerged(st: Setting, x: World, e: Event)
    requires Merged(st, x) && Bulks(SystemOf(x, e.side), e.move)
      && Genuines(PhaseOf(SystemOf(x, e.side), e.move.w).docs)
    ensures Merged(st, Happens(st, x, e))
  {
    var s, y := SystemOf(x, e.side), Happens(st, x, e);
    var docs, outcome := PhaseOf(s, e.move.w).docs, e.move.outcome;
    OnlyBulkWrites(ConfigOf(st, e.side), s, e.move);
    hide Step, Store, StoreShared;
    forall k | k in y.es ensures Backed(st, y.es[k].side, SystemOf(y, y.es[k].side).es, k, y.es[k].source) {
      BulkKeepsBacked(st, e.side, x.es, s.es, docs, outcome, k);
    }
    forall side, key | key in SystemOf(y, side).es ensures KeyOf(st, side, key) in y.es {
      if side == e.side {
        BulkKeepsKeys(st, side, x.es, s.es, docs, outcome, key);
      } else {
        BulkKeepsBacked(st, e.side, x.es, s.es, docs, outcome, KeyOf(st, side, key));
      }
    }
  }

  lemma {:induction false} HistoryKeepsMerged(st: Setting, events: seq<Event>)
    ensures Merged(st, History(st, events))
  {
    if events != [] {
      var init := events[..|events| - 1];
      HistoryKeepsMerged(st, init);
      PartsAreRuns(st, init);
      RunKeepsInv(st.logs, Part(init, Logs));
      RunKeepsInv(st.metrics, Part(init, Metrics));
      HappensKeepsMerged(st, History(st, init), events[|events| - 1]);
    }
  }

  // ---------------------------------------------------------------- exactly when the streams overwrite each other

  // The document that a stream wrote last for a message and day is the one that is there.
  predicate Kept(st: Setting, x: World, side: Side, key: DocKey) {
    && key in SystemOf(x, side).es && KeyOf(st, side, key) in x.es
    && x.es[KeyOf(st, side, key)] == Origin(side, SystemOf(x, side).es[key])
  }

  ghost predicate AllKept(st: Setting, x: World) {
    forall side, key :: key in SystemOf(x, side).es ==> Kept(st, x, side, key)
  }

  // Two documents, one of each stream, have the same key.
  predicate Collide(st: Setting, x: World, a: DocKey, b: DocKey) {
    a in x.logs.es && b in x.metrics.es && KeyOf(st, Logs, a) == KeyOf(st, Metrics, b)
  }

  lemma UnkeptCollides(st: Setting, x: World, side: Side, key: DocKey)
    requires UniqueIds(st) && Merged(st, x) && key in SystemOf(x, side).es && !Kept(st, x, side, key)
    ensures exists a, b :: Collide(st, x, a, b)
  {
    var k := KeyOf(st, side, key);
    var o := x.es[k];
    var other := DocKey(k.index, Sha256(o.source.message));
    assert Backed(st, o.side, SystemOf(x, o.side).es, k, o.source);
    OneKeyPerSide(st, side, key, other);
    hide UniqueIds, Merged;
    var a, b := if side == Logs then key else other, if side == Logs then other else key;
    assert Collide(st, x, a, b);
  }

  lemma OneKeyPerSide(st: Setting, side: Side, key: DocKey, other: DocKey)
    requires UniqueIds(st)
    ensures KeyOf(st, side, key) == KeyOf(st, side, other) <==> key == other
  {
  }

  // In every history, both streams have all their documents in the index exactly when no two of them have the same
  // index and Redis id; of two that do, only the later one is there.
  lemma KeptIffNoCollision(st: Setting, events: seq<Event>)
    requires UniqueIds(st)
    ensures var x := History(st, events); AllKept(st, x) <==> forall a, b :: !Collide(st, x, a, b)
  {
    var x := History(st, events);
    HistoryKeepsMerged(st, events);
    if !AllKept(st, x) {
      var side, key :| key in SystemOf(x, side).es && !Kept(st, x, side, key);
      UnkeptCollides(st, x, side, key);
    }
    if a, b :| Collide(st, x, a, b) {
      assert !(Kept(st, x, Logs, a) && Kept(st, x, Metrics, b));
    }
  }

  lemma DatedKey(cfg: Config, run: seq<Label>, key: DocKey)
    requires key in Final(cfg, run).es && Final(cfg, run).es[key].fields.day.Some?
    ensures var stream, i := Final(cfg, run).g.stream, key.id.message;
      && i < |stream| && stream[i].day.Some?
      && key == DocKey(DailyIndex(cfg.prefix, stream[i].day.value), Sha256(i))
  {
    RunKeepsInv(cfg, run);
    assert Genuine(cfg, Final(cfg, run).g, key, Final(cfg, run).es[key]);
  }

  // When both timestamps parse, two indexed messages collide exactly when prefix, day and Redis id agree.
  lemma CollisionOfDated(st: Setting, events: seq<Event>, a: DocKey, b: DocKey)
    requires var x := History(st, events);
      && a in x.logs.es && b in x.metrics.es
      && x.logs.es[a].fields.day.Some? && x.metrics.es[b].fields.day.Some?
    ensures var x := History(st, events); var i, j := a.id.message, b.id.message;
      && i < |x.logs.g.stream| && j < |x.metrics.g.stream|
      && (Collide(st, x, a, b) <==>
            && st.logs.prefix == st.metrics.prefix && st.logId(i) == st.metricId(j)
            && x.logs.g.stream[i].day == x.metrics.g.stream[j].day)
  {
    PartsAreRuns(st, events);
    DatedKey(st.logs, Part(events, Logs), a);
    DatedKey(st.metrics, Part(events, Metrics), b);
    hide Final, History;
  }

  // A history continued by a run of one of the streams.
  function Continued(events: seq<Event>, run: seq<Label>, side: Side): seq<Event> {
    if run == [] then events else Continued(events, run[..|run| - 1], side) + [Event(side, run[|run| - 1])]
  }

  lemma PartThen(events: seq<Event>, e: Event, side: Side)
    ensures Part(events + [e], side) ==
      if e.move.Tick? || e.side == side then Part(events, side) + [e.move] else Part(events, side)
  {
    assert (events + [e])[..|events|] == events;
  }

  lemma Longer(a: seq<Label>, run: seq<Label>)
    requires run != []
    ensures a + run[..|run| - 1] + [run[|run| - 1]] == a + run
  {
  }

  lemma {:induction false} PartContinues(events: seq<Event>, run: seq<Label>, side: Side, other: Side)
    requires side != other && forall l :: l in run ==> !l.Tick?
    ensures Part(Continued(events, run, side), side) == Part(events, side) + run
    ensures Part(Continued(events, run, side), other) == Part(events, other)
  {
    if run != [] {
      var init, last := run[..|run| - 1], run[|run| - 1];
      assert last in run;
      hide Part;
      PartContinues(events, init, side, other);
      PartThen(Continued(events, init, side), Event(side, last), side);
      PartThen(Continued(events, init, side), Event(side, last), other);
      Longer(Part(events, side), run);
    }
  }

  // Each stream processes and acknowledges one message.
  function OneEach(w: string, f: Fields): seq<Event> {
    var run := OneAttempt(w, f, false, AllIndexed);
    Continued(Continued([], run, Logs), run, Metrics)
  }

  lemma OneEachParts(w: string, f: Fields)
    ensures Part(OneEach(w, f), Logs) == OneAttempt(w, f, false, AllIndexed)
    ensures Part(OneEach(w, f), Metrics) == OneAttempt(w, f, false, AllIndexed)
  {
    var run := OneAttempt(w, f, false, AllIndexed);
    assert forall l :: l in run ==> !l.Tick?;
    assert [] + run == run;
    hide Continued, OneAttempt;
    PartContinues([], run, Logs, Metrics);
    PartContinues(Continued([], run, Logs), run, Metrics, Logs);
  }

  // Two first messages with the same Redis id and day: both are processed without a failure and acknowledged, and
  // one of the two has no document.
  lemma SameIdOverwrites(st: Setting, w: string, f: Fields)
    requires UniqueIds(st) && st.logId(0) == st.metricId(0) && st.logs.prefix == st.metrics.prefix
    requires st.logs.batchSize > 0 && st.metrics.batchSize > 0 && f.day.Some? && f.message != ""
    ensures var x := History(st, OneEach(w, f));
      x.logs.g.acked == {0} && x.metrics.g.acked == {0} && !AllKept(st, x)
  {
    var x := History(st, OneEach(w, f));
    OneEachParts(w, f);
    PartsAreRuns(st, OneEach(w, f));
    OneAttemptLoses(st.logs, w, f, false, AllIndexed);
    OneAttemptLoses(st.metrics, w, f, false, AllIndexed);
    hide History, OneEach, Final, OneAttempt;
    var a :| a in Copies(x.logs.es, 0);
    var b :| b in Copies(x.metrics.es, 0);
    FirstKey(st.logs, OneAttempt(w, f, false, AllIndexed), f, a);
    FirstKey(st.metrics, OneAttempt(w, f, false, AllIndexed), f, b);
    assert Collide(st, x, a, b);
    KeptIffNoCollision(st, OneEach(w, f));
  }

  lemma FirstKey(cfg: Config, run: seq<Label>, f: Fields, key: DocKey)
    requires Final(cfg, run).g.stream == [f] && f.day.Some? && key in Copies(Final(cfg, run).es, 0)
    ensures key == DocKey(DailyIndex(cfg.prefix, f.day.value), Sha256(0))
  {
    AtMostOneDocument(cfg, run, 0);
  }

  // ---------------------------------------------------------------- over all histories

  // A label without a failure, and without the passage of time.
  predicate Clean(l: Label) {
    !l.Tick? && (l.Convert? ==> !l.fails) && (l.Bulk? ==> l.outcome.AllIndexed?)
  }

  ghost predicate AllClean(run: seq<Label>) {
    forall l :: l in run ==> Clean(l)
  }

  // A worker is about to read, and everything delivered so far has been acknowledged.
  predicate Served(s: System, w: string) {
    PhaseOf(s, w) == Reading && s.g.pending == map[]
  }

  function WithConversions(run: seq<Label>, w: string, k: nat): seq<Label> {
    if k == 0 then run else WithConversions(run, w, k - 1) + [Convert(w, false)]
  }

  // It reads, converts, indexes, acknowledges, and starts again.
  function WithBatch(run: seq<Label>, w: string, k: nat): seq<Label> {
    WithConversions(run + [Read(w, true)], w, k) + [Bulk(w, AllIndexed)] + [XAck(w, Acknowledged)] + [Crash(w)]
  }

  lemma {:induction false} ConversionsAreClean(run: seq<Label>, w: string, k: nat)
    requires AllClean(run)
    ensures AllClean(WithConversions(run, w, k))
  {
    if k > 0 {
      ConversionsAreClean(run, w, k - 1);
    }
  }

  lemma {:induction false} ConversionsGoOn(cfg: Config, run: seq<Label>, w: string, batch: seq<nat>, k: nat)
    requires k <= |batch| && PhaseOf(Final(cfg, run), w) == Converting(batch, 0, [], ThenScan)
    ensures var s, t := Final(cfg, run), Final(cfg, WithConversions(run, w, k)); var p := PhaseOf(t, w);
      t.g == s.g && p.Converting? && p.batch == batch && p.done == k
  {
    hide Exec, Step;
    if k > 0 {
      ConversionsGoOn(cfg, run, w, batch, k - 1);
      LogSweep.ExecThen(cfg, INITIAL, WithConversions(run, w, k - 1), Convert(w, false));
      ConversionGoesOn(cfg, Final(cfg, WithConversions(run, w, k - 1)), w);
    }
  }

  lemma ConversionGoesOn(cfg: Config, s: System, w: string)
    requires PhaseOf(s, w).Converting? && PhaseOf(s, w).done < |PhaseOf(s, w).batch|
    ensures var t := Step(cfg, s, Convert(w, false)); var p := PhaseOf(t, w);
      t.g == s.g && p.Converting? && p.batch == PhaseOf(s, w).batch && p.done == PhaseOf(s, w).done + 1
  {
    hide ToDocument, IsLog;
  }

  lemma ReadStarts(cfg: Config, s: System, w: string)
    requires Served(s, w) && cfg.batchSize > 0 && s.g.cursor < |s.g.stream|
    ensures var t, ids := Step(cfg, s, Read(w, true)), NextIds(s.g, cfg.batchSize);
      && PhaseOf(t, w) == Converting(ids, 0, [], ThenScan) && t.g.pending.Keys == Ids(ids)
      && t.g.stream == s.g.stream && t.g.cursor > s.g.cursor
  {
  }

  lemma BatchEnds(cfg: Config, s: System, w: string)
    requires PhaseOf(s, w).Converting? && PhaseOf(s, w).done == |PhaseOf(s, w).batch|
    requires s.g.pending.Keys == Ids(PhaseOf(s, w).batch)
    ensures var t := Step(cfg, Step(cfg, Step(cfg, s, Bulk(w, AllIndexed)), XAck(w, Acknowledged)), Crash(w));
      Served(t, w) && t.g.stream == s.g.stream && t.g.cursor == s.g.cursor
  {
    hide Store;
  }

  lemma BatchServes(cfg: Config, run: seq<Label>, w: string) returns (next: seq<Label>)
    requires Served(Final(cfg, run), w) && AllClean(run) && cfg.batchSize > 0
    requires Final(cfg, run).g.cursor < |Final(cfg, run).g.stream|
    ensures Served(Final(cfg, next), w) && AllClean(next)
    ensures Final(cfg, next).g.stream == Final(cfg, run).g.stream
      && Final(cfg, next).g.cursor > Final(cfg, run).g.cursor
  {
    var s := Final(cfg, run);
    var ids := NextIds(s.g, cfg.batchSize);
    next := WithBatch(run, w, |ids|);
    ReadStarts(cfg, s, w);
    LogSweep.ExecThen(cfg, INITIAL, run, Read(w, true));
    hide Exec, Step, WithConversions, NextIds, Ids, Served;
    var all := WithConversions(run + [Read(w, true)], w, |ids|);
    ConversionsAreClean(run + [Read(w, true)], w, |ids|);
    assert AllClean(next);
    hide AllClean, Clean;
    ConversionsGoOn(cfg, run + [Read(w, true)], w, ids, |ids|);
    LogSweep.ExecThen(cfg, INITIAL, all, Bulk(w, AllIndexed));
    LogSweep.ExecThen(cfg, INITIAL, all + [Bulk(w, AllIndexed)], XAck(w, Acknowledged));
    LogSweep.ExecThen(cfg, INITIAL, all + [Bulk(w, AllIndexed)] + [XAck(w, Acknowledged)], Crash(w));
    BatchEnds(cfg, Final(cfg, all), w);
  }

  lemma {:induction false} ServesUpTo(cfg: Config, run: seq<Label>, w: string, i: nat) returns (next: seq<Label>)
    requires Served(Final(cfg, run), w) && AllClean(run) && cfg.batchSize > 0
    requires i < |Final(cfg, run).g.stream|
    ensures Served(Final(cfg, next), w) && AllClean(next)
    ensures Final(cfg, next).g.stream == Final(cfg, run).g.stream && Final(cfg, next).g.cursor > i
    decreases i + 1 - Final(cfg, run).g.cursor
  {
    hide Exec;
    if Final(cfg, run).g.cursor > i {
      next := run;
    } else {
      var more := BatchServes(cfg, run, w);
      next := ServesUpTo(cfg, more, w, i);
    }
  }

  lemma {:induction false} ArrivalsAreClean(f: Fields, n: nat)
    ensures AllClean(Arrivals(f, n))
  {
    if n > 0 {
      ArrivalsAreClean(f, n - 1);
    }
  }

  // Any entry of a stream can come to be indexed, in a run without failures.
  lemma EntryIndexed(cfg: Config, w: string, f: Fields, i: nat) returns (run: seq<Label>)
    requires cfg.batchSize > 0 && f.message != "" && f.day.Some?
    ensures AllClean(run) && DocKey(DailyIndex(cfg.prefix, f.day.value), Sha256(i)) in Final(cfg, run).es
  {
    var arrived := Arrivals(f, i + 1);
    ArrivalsAppend(cfg, f, i + 1);
    ArrivalsAreClean(f, i + 1);
    run := ServesUpTo(cfg, arrived, w, i);
    hide Exec, Arrivals;
    RunKeepsInv(cfg, run);
    assert i in Final(cfg, run).g.acked;
    CleanIsAllowed(cfg, run);
    AckedIsIndexedOnce(cfg, run, i);
    assert DocKey(DailyIndex(cfg.prefix, f.day.value), Sha256(i)) in Copies(Final(cfg, run).es, i);
  }

  lemma CleanIsAllowed(cfg: Config, run: seq<Label>)
    requires AllClean(run)
    ensures Allows(Environment(false, false), cfg, run)
  {
    forall k: nat | k < |run| ensures !Omits(cfg, run, k) {
      assert run[k] in run;
    }
  }

  // The law: however the two streams are processed, all documents of both are in the index.
  ghost predicate NeverOverwrites(st: Setting) {
    forall events :: AllKept(st, History(st, events))
  }

  // It holds exactly if the prefixes differ, no two ids agree, or one of the streams is never read.
  lemma OverwriteCondition(st: Setting)
    requires UniqueIds(st)
    ensures NeverOverwrites(st) <==>
      || st.logs.prefix != st.metrics.prefix || st.logs.batchSize == 0 || st.metrics.batchSize == 0
      || forall i: nat, j: nat :: st.logId(i) != st.metricId(j)
  {
    if i: nat, j: nat :| st.logId(i) == st.metricId(j) && st.logs.prefix == st.metrics.prefix
                         && st.logs.batchSize > 0 && st.metrics.batchSize > 0 {
      SameIdsOverwrite(st, i, j);
    } else {
      forall events ensures AllKept(st, History(st, events)) {
        forall a, b ensures !Collide(st, History(st, events), a, b) {
          CollisionsAgree(st, events, a, b);
        }
        KeptIffNoCollision(st, events);
      }
    }
  }

  lemma CollisionsAgree(st: Setting, events: seq<Event>, a: DocKey, b: DocKey)
    ensures Collide(st, History(st, events), a, b) ==>
      && st.logs.prefix == st.metrics.prefix && st.logs.batchSize > 0 && st.metrics.batchSize > 0
      && st.logId(a.id.message) == st.metricId(b.id.message)
  {
    if Collide(st, History(st, events), a, b) {
      PartsAreRuns(st, events);
      IndexedKey(st.logs, Part(events, Logs), a);
      IndexedKey(st.metrics, Part(events, Metrics), b);
      hide History, Final;
    }
  }

  lemma IndexedKey(cfg: Config, run: seq<Label>, key: DocKey)
    requires key in Final(cfg, run).es
    ensures key.index.prefix == cfg.prefix && cfg.batchSize > 0
  {
    RunKeepsInv(cfg, run);
    assert Genuine(cfg, Final(cfg, run).g, key, Final(cfg, run).es[key]);
    if cfg.batchSize == 0 {
      NothingIsRead(cfg, run);
    }
  }

  // Two entries with the same id: some history without a failure overwrites one with the other.
  lemma SameIdsOverwrite(st: Setting, i: nat, j: nat)
    requires UniqueIds(st) && st.logId(i) == st.metricId(j) && st.logs.prefix == st.metrics.prefix
    requires st.logs.batchSize > 0 && st.metrics.batchSize > 0
    ensures !NeverOverwrites(st)
  {
    var f := Fields("m", "", Some(0));
    var logs := EntryIndexed(st.logs, "w", f, i);
    var metrics := EntryIndexed(st.metrics, "w", f, j);
    hide Exec, Final, Continued;
    PartContinues([], logs, Logs, Metrics);
    PartContinues(Continued([], logs, Logs), metrics, Metrics, Logs);
    var events := Continued(Continued([], logs, Logs), metrics, Metrics);
    assert [] + logs == logs && [] + metrics == metrics;
    PartsAreRuns(st, events);
    var index := DailyIndex(st.logs.prefix, 0);
    hide History, Part;
    assert Collide(st, History(st, events), DocKey(index, Sha256(i)), DocKey(index, Sha256(j)));
    KeptIffNoCollision(st, events);
  }
}
