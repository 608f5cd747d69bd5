// The documents the log worker writes, and the bulk call that stores them.
module LogDocuments {
  import opened Wrappers
  import opened ConsumerGroup

  const DAY_MS: nat := 86_400_000

  // The configured stream decides how a message is classified.
  datatype StreamName = LogsRaw | MetricsRaw | OtherStream
  datatype Config = Config(stream: StreamName, batchSize: nat, prefix: string)

  datatype MessageKind = LogMessage | MetricMessage | Unrecognised

  // One index a day; the document id is the hash of the message id. A free constructor stands
  // for the hash, which assumes that SHA-256 does not collide on the ids of the stream.
  datatype DailyIndex = DailyIndex(prefix: string, day: nat)
  datatype DocId = Sha256(message: nat)
  datatype DocKey = DocKey(index: DailyIndex, id: DocId)
  datatype Source = Source(message: nat, fields: Fields)
  datatype Doc = Doc(key: DocKey, source: Source)
  type Index = map<DocKey, Source>

  // helpers.bulk either returns, having indexed everything, or raises after indexing some of it.
  datatype BulkOutcome = AllIndexed | Raised(applied: set<nat>)

  function Kind(cfg: Config, f: Fields): MessageKind {
    if cfg.stream == LogsRaw || f.message != "" then LogMessage
    else if cfg.stream == MetricsRaw || f.metricName != "" then MetricMessage
    else Unrecognised
  }

  predicate IsLog(cfg: Config, f: Fields) {
    Kind(cfg, f) == LogMessage
  }

  // A timestamp that does not parse is replaced by the clock of the worker.
  function DocumentDay(f: Fields, now: nat): nat {
    if f.day.Some? then f.day.value else now / DAY_MS
  }

  function ToDocument(cfg: Config, f: Fields, id: nat, now: nat): Doc {
    Doc(DocKey(DailyIndex(cfg.prefix, DocumentDay(f, now)), Sha256(id)), Source(id, f))
  }

  predicate Stored(docs: seq<Doc>, outcome: BulkOutcome, j: nat) {
    j < |docs| && (outcome.AllIndexed? || j in outcome.applied)
  }

  // Documents are indexed in order; a later one with the same key replaces an earlier one.
  function Store(es: Index, docs: seq<Doc>, outcome: BulkOutcome): (r: Index)
    ensures forall key :: key in r <==> key in es || exists j: nat :: Stored(docs, outcome, j) && docs[j].key == key
    ensures forall key :: key in r ==>
      (key in es && r[key] == es[key]) || exists j: nat :: Stored(docs, outcome, j) && docs[j] == Doc(key, r[key])
  {
    if docs == [] then es
    else
      var init, last := docs[..|docs| - 1], docs[|docs| - 1];
      var before := Store(es, init, outcome);
      assert forall j: nat :: Stored(init, outcome, j) ==> Stored(docs, outcome, j) && docs[j] == init[j];
      assert forall j: nat :: Stored(docs, outcome, j) && j < |init| ==> Stored(init, outcome, j) && docs[j] == init[j];
      if Stored(docs, outcome, |docs| - 1) then
        assert docs[|docs| - 1] == Doc(last.key, last.source);
        before[last.key := last.source]
      else before
  }

  // A bulk call keeps the documents it does not write, and when it does not raise it leaves every document it was
  // given, or a later one of the same call with the same key.
  lemma StoreFrame(es: Index, docs: seq<Doc>, outcome: BulkOutcome, key: DocKey)
    ensures key in es ==> key in Store(es, docs, outcome)
    ensures (forall d :: d in docs ==> d.key != key) ==>
      (key in Store(es, docs, outcome) <==> key in es) && (key in es ==> Store(es, docs, outcome)[key] == es[key])
    ensures outcome.AllIndexed? && (exists d :: d in docs && d.key == key) ==>
      key in Store(es, docs, outcome) && Doc(key, Store(es, docs, outcome)[key]) in docs
  {
    if forall d :: d in docs ==> d.key != key {
      assert forall j: nat :: j < |docs| ==> docs[j] in docs;
    }
    if outcome.AllIndexed? && exists d :: d in docs && d.key == key {
      WrittenKeyHolds(es, docs, key);
    }
  }

  lemma {:induction false} WrittenKeyHolds(es: Index, docs: seq<Doc>, key: DocKey)
    requires exists d :: d in docs && d.key == key
    ensures key in Store(es, docs, AllIndexed) && Doc(key, Store(es, docs, AllIndexed)[key]) in docs
  {
    var init, last := docs[..|docs| - 1], docs[|docs| - 1];
    StoreLast(es, docs, AllIndexed);
    if last.key != key {
      assert docs == init + [last];
      WrittenKeyHolds(es, init, key);
    }
  }

  lemma StoreLast(es: Index, docs: seq<Doc>, outcome: BulkOutcome)
    requires docs != []
    ensures var init, last := docs[..|docs| - 1], docs[|docs| - 1];
      Store(es, docs, outcome) ==
        if Stored(docs, outcome, |docs| - 1) then Store(es, init, outcome)[last.key := last.source]
        else Store(es, init, outcome)
  {
  }

  // What a worker holds of an entry it was handed.
  datatype Message = Message(id: nat, fields: Fields)

  // The entries of a batch, with their fields.
  function Fetch(stream: seq<Fields>, batch: seq<nat>): (r: seq<Message>)
    requires forall i :: 0 <= i < |batch| ==> batch[i] < |stream|
    ensures |r| == |batch|
  {
    seq(|batch|, i requires 0 <= i < |batch| => Message(batch[i], stream[batch[i]]))
  }

  // How much time passes before a worker converts a message.
  function WaitFor(waits: map<nat, nat>, id: nat): nat {
    if id in waits then waits[id] else 0
  }

  // The time after the conversions of a batch; metrics are not converted.
  function TimeAfter(cfg: Config, messages: seq<Message>, waits: map<nat, nat>, now: nat): nat {
    if messages == [] then now
    else
      var init, m := messages[..|messages| - 1], messages[|messages| - 1];
      TimeAfter(cfg, init, waits, now) + if IsLog(cfg, m.fields) then WaitFor(waits, m.id) else 0
  }

  // The documents of a batch in order, leaving out metrics and the messages whose conversion fails.
  function Documents(cfg: Config, messages: seq<Message>, fails: set<nat>, waits: map<nat, nat>, now: nat): seq<Doc> {
    if messages == [] then []
    else
      var init, m := messages[..|messages| - 1], messages[|messages| - 1];
      Documents(cfg, init, fails, waits, now)
      + if IsLog(cfg, m.fields) && m.id !in fails then
          [ToDocument(cfg, m.fields, m.id, TimeAfter(cfg, messages, waits, now))] else []
  }

  // What one more message of a batch adds: for a log, the time that passes before it is converted, and its document, on
  // the day of its timestamp or else of that time.
  lemma OneMessageMore(cfg: Config, messages: seq<Message>, m: Message, fails: set<nat>, waits: map<nat, nat>, now: nat)
    ensures var all, log := messages + [m], cfg.stream == LogsRaw || m.fields.message != "";
      var at := TimeAfter(cfg, messages, waits, now) + if log && m.id in waits then waits[m.id] else 0;
      var day := if m.fields.day.Some? then m.fields.day.value else at / 86_400_000;
      && TimeAfter(cfg, all, waits, now) == at
      && Documents(cfg, all, fails, waits, now) == Documents(cfg, messages, fails, waits, now)
           + if log && m.id !in fails then
               [Doc(DocKey(DailyIndex(cfg.prefix, day), Sha256(m.id)), Source(m.id, m.fields))]
             else []
  {
    assert (messages + [m])[..|messages|] == messages;
  }

  // The documents that exist for a message, in whatever index.
  function Copies(es: Index, id: nat): set<DocKey> {
    set key | key in es && key.id == Sha256(id)
  }

  function KeysOn(cfg: Config, id: nat, days: set<nat>): set<DocKey> {
    set day | day in days :: DocKey(DailyIndex(cfg.prefix, day), Sha256(id))
  }
}

// The whole pipeline as a labelled transition system: producers, any number of workers, the clock,
// failures and crashes, all interleaved. A label carries every choice the environment makes; a label
// that is not enabled leaves the system as it is, so every sequence of labels is a run.
module LogPipeline {
  import opened Wrappers
  import opened ConsumerGroup
  import opened LogDocuments

  const MIN_IDLE_MS: nat := 60_000
  const PENDING_COUNT: nat := 100

  // Where a batch came from decides what the worker does after it.
  datatype After = ThenScan | ThenRead

  // Where a worker stands in its loop.
  datatype Phase =
    | Reading
    | Converting(batch: seq<nat>, done: nat, docs: seq<Doc>, after: After)
    | Acking(acking: seq<nat>, next: After)
    | Scanning
    | Claiming(ids: seq<nat>)

  datatype System = System(g: Group, es: Index, workers: map<string, Phase>, now: nat)

  datatype AckOutcome = Acknowledged | NotSent | ReplyLost

  datatype Label =
    | Append(fields: Fields)
    | Tick(ms: nat)
    | Read(w: string, replied: bool)
    | Convert(w: string, fails: bool)
    | Bulk(w: string, outcome: BulkOutcome)
    | XAck(w: string, ack: AckOutcome)
    | Scan(w: string, replied: bool)
    | XClaim(w: string, replied: bool)
    | Crash(w: string)

  const INITIAL := System(EMPTY_GROUP, map[], map[], 0)

  function PhaseOf(s: System, w: string): Phase {
    if w in s.workers then s.workers[w] else Reading
  }

  function Resume(after: After): Phase {
    if after == ThenScan then Scanning else Reading
  }

  // The pending entries a scan finds idle for more than 60 seconds, among the first 100.
  function StaleIds(g: Group, ids: seq<nat>, now: nat): (stale: seq<nat>)
    ensures forall id :: id in stale <==> id in ids && id in g.pending && now > g.pending[id].at + MIN_IDLE_MS
    ensures |stale| <= |ids|
  {
    Winners(g, ids, MIN_IDLE_MS + 1, now)
  }

  function Moved(s: System, w: string, phase: Phase): System {
    s.(workers := s.workers[w := phase])
  }

  function ReadStep(cfg: Config, s: System, w: string, replied: bool): System {
    var ids := NextIds(s.g, cfg.batchSize);
    var phase := if !replied then Reading else if ids == [] then Scanning else Converting(ids, 0, [], ThenScan);
    Moved(s.(g := ReadGroup(s.g, w, cfg.batchSize, s.now)), w, phase)
  }

  function ConvertStep(cfg: Config, s: System, w: string, p: Phase, fails: bool): System
    requires p.Converting? && p.done < |p.batch|
  {
    var id := p.batch[p.done];
    if id < |s.g.stream| && !fails && IsLog(cfg, s.g.stream[id]) then
      Moved(s, w, p.(done := p.done + 1, docs := p.docs + [ToDocument(cfg, s.g.stream[id], id, s.now)]))
    else
      Moved(s, w, p.(done := p.done + 1))
  }

  function ScanStep(s: System, w: string, replied: bool): System {
    var stale := StaleIds(s.g, PendingRange(s.g, PENDING_COUNT), s.now);
    Moved(s, w, if !replied || stale == [] then Reading else Claiming(stale))
  }

  function ClaimStep(s: System, w: string, ids: seq<nat>, replied: bool): System {
    var won := Winners(s.g, ids, MIN_IDLE_MS, s.now);
    Moved(s.(g := Claim(s.g, w, ids, MIN_IDLE_MS, s.now)), w,
          if !replied || won == [] then Reading else Converting(won, 0, [], ThenRead))
  }

  function Step(cfg: Config, s: System, l: Label): System {
    match l
    case Append(fields) => s.(g := s.g.(stream := s.g.stream + [fields]))
    case Tick(ms) => s.(now := s.now + ms)
    case Read(w, replied) => if PhaseOf(s, w).Reading? then ReadStep(cfg, s, w, replied) else s
    case Convert(w, fails) =>
      var p := PhaseOf(s, w);
      if p.Converting? && p.done < |p.batch| then ConvertStep(cfg, s, w, p, fails) else s
    case Bulk(w, outcome) =>
      var p := PhaseOf(s, w);
      if p.Converting? && p.done == |p.batch| then
        Moved(s.(es := Store(s.es, p.docs, outcome)), w, Acking(p.batch, p.after))
      else s
    case XAck(w, ack) =>
      var p := PhaseOf(s, w);
      if p.Acking? then
        Moved(if ack == NotSent then s else s.(g := Ack(s.g, Ids(p.acking))), w, Resume(p.next))
      else s
    case Scan(w, replied) => if PhaseOf(s, w).Scanning? then ScanStep(s, w, replied) else s
    case XClaim(w, replied) =>
      var p := PhaseOf(s, w);
      if p.Claiming? then ClaimStep(s, w, p.ids, replied) else s
    case Crash(w) => Moved(s, w, Reading)
  }

  // The state after a run.
  function Exec(cfg: Config, s: System, run: seq<Label>): System {
    if run == [] then s
    else Step(cfg, Exec(cfg, s, run[..|run| - 1]), run[|run| - 1])
  }

  // The state before label k of a run from the start.
  function Before(cfg: Config, run: seq<Label>, k: nat): System
    requires k <= |run|
  {
    Exec(cfg, INITIAL, run[..k])
  }

  lemma BeforeStep(cfg: Config, run: seq<Label>, k: nat)
    requires k < |run|
    ensures Before(cfg, run, k + 1) == Step(cfg, Before(cfg, run, k), run[k])
  {
    assert run[..k + 1][..k] == run[..k];
  }

  // ---------------------------------------------------------------- the invariant

  ghost predicate Genuine(cfg: Config, g: Group, key: DocKey, source: Source) {
    && source.message < g.cursor <= |g.stream|
    && source.fields == g.stream[source.message]
    && IsLog(cfg, source.fields)
    && key.id == Sha256(source.message)
    && key.index.prefix == cfg.prefix
    && (source.fields.day.Some? ==> key.index.day == source.fields.day.value)
  }

  ghost predicate PhaseOk(cfg: Config, g: Group, p: Phase) {
    match p
    case Converting(batch, done, docs, _) =>
      && done <= |batch|
      && (forall id :: id in batch ==> id < g.cursor)
      && (forall d :: d in docs ==> Genuine(cfg, g, d.key, d.source) && d.source.message in batch[..done])
    case Acking(batch, _) => forall id :: id in batch ==> id < g.cursor
    case Claiming(ids) => forall id :: id in ids ==> id < g.cursor
    case _ => true
  }

  ghost predicate Inv(cfg: Config, s: System) {
    && Consistent(s.g)
    && (forall id :: id in s.g.pending ==> s.g.pending[id].at <= s.now)
    && (forall w :: w in s.workers ==> PhaseOk(cfg, s.g, s.workers[w]))
    && (forall key :: key in s.es ==> Genuine(cfg, s.g, key, s.es[key]))
  }

  // The group only moves forward.
  ghost predicate Grows(g: Group, h: Group) {
    g.cursor <= h.cursor && g.stream <= h.stream && g.acked <= h.acked
  }

  lemma StepGrows(cfg: Config, s: System, l: Label)
    ensures Grows(s.g, Step(cfg, s, l).g)
    ensures s.now <= Step(cfg, s, l).now
  {
  }

  lemma PhaseOkGrows(cfg: Config, g: Group, h: Group, p: Phase)
    requires Grows(g, h) && h.cursor <= |h.stream| && PhaseOk(cfg, g, p)
    ensures PhaseOk(cfg, h, p)
  {
  }

  lemma ConvertKeepsPhase(cfg: Config, s: System, w: string, p: Phase, fails: bool)
    requires Consistent(s.g) && p.Converting? && p.done < |p.batch| && PhaseOk(cfg, s.g, p)
    ensures PhaseOk(cfg, s.g, ConvertStep(cfg, s, w, p, fails).workers[w])
  {
    var q := ConvertStep(cfg, s, w, p, fails).workers[w];
    var id := p.batch[p.done];
    assert id in p.batch;
    assert p.batch[..p.done + 1] == p.batch[..p.done] + [id];
    forall d | d in q.docs
      ensures Genuine(cfg, s.g, d.key, d.source) && d.source.message in q.batch[..q.done]
    {
      if d !in p.docs {
        assert d == ToDocument(cfg, s.g.stream[id], id, s.now);
      }
    }
  }

  lemma StepKeepsConsistent(cfg: Config, s: System, l: Label)
    requires Inv(cfg, s)
    ensures Consistent(Step(cfg, s, l).g)
    ensures var t := Step(cfg, s, l); forall id :: id in t.g.pending ==> t.g.pending[id].at <= t.now
  {
  }

  lemma StepKeepsPhase(cfg: Config, s: System, l: Label, w: string)
    requires Inv(cfg, s) && w in Step(cfg, s, l).workers
    ensures PhaseOk(cfg, Step(cfg, s, l).g, Step(cfg, s, l).workers[w])
  {
    var t := Step(cfg, s, l);
    var p := PhaseOf(s, w);
    StepGrows(cfg, s, l);
    StepKeepsConsistent(cfg, s, l);
    if t.workers[w] == p {
      PhaseOkGrows(cfg, s.g, t.g, p);
    } else if l.Convert? {
      ConvertKeepsPhase(cfg, s, w, p, l.fails);
    }
  }

  lemma BulkStoresGenuine(cfg: Config, s: System, docs: seq<Doc>, outcome: BulkOutcome, key: DocKey)
    requires forall d :: d in docs ==> Genuine(cfg, s.g, d.key, d.source)
    requires forall k :: k in s.es ==> Genuine(cfg, s.g, k, s.es[k])
    requires key in Store(s.es, docs, outcome)
    ensures Genuine(cfg, s.g, key, Store(s.es, docs, outcome)[key])
  {
    var source := Store(s.es, docs, outcome)[key];
    if !(key in s.es && source == s.es[key]) {
      var j: nat :| Stored(docs, outcome, j) && docs[j] == Doc(key, source);
      assert docs[j] in docs;
    }
  }

  lemma StepKeepsIndex(cfg: Config, s: System, l: Label, key: DocKey)
    requires Inv(cfg, s) && key in Step(cfg, s, l).es
    ensures Genuine(cfg, Step(cfg, s, l).g, key, Step(cfg, s, l).es[key])
  {
    StepGrows(cfg, s, l);
    StepKeepsConsistent(cfg, s, l);
    if l.Bulk? && PhaseOf(s, l.w).Converting? {
      if PhaseOf(s, l.w).done == |PhaseOf(s, l.w).batch| {
        BulkStoresGenuine(cfg, s, PhaseOf(s, l.w).docs, l.outcome, key);
      }
    }
  }

  lemma StepKeepsInv(cfg: Config, s: System, l: Label)
    requires Inv(cfg, s)
    ensures Inv(cfg, Step(cfg, s, l))
  {
    var t := Step(cfg, s, l);
    StepKeepsConsistent(cfg, s, l);
    forall w | w in t.workers ensures PhaseOk(cfg, t.g, t.workers[w]) {
      StepKeepsPhase(cfg, s, l, w);
    }
    forall key | key in t.es ensures Genuine(cfg, t.g, key, t.es[key]) {
      StepKeepsIndex(cfg, s, l, key);
    }
  }

  lemma {:induction false} RunKeepsInv(cfg: Config, run: seq<Label>)
    ensures Inv(cfg, Exec(cfg, INITIAL, run))
  {
    if run != [] {
      RunKeepsInv(cfg, run[..|run| - 1]);
      StepKeepsInv(cfg, Exec(cfg, INITIAL, run[..|run| - 1]), run[|run| - 1]);
    }
  }
}
