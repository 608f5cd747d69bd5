// Exactly when a message is indexed, exactly when it can be lost, and exactly when it can be indexed twice:
// conditions on the message and on what the environment does, not on what the worker computes.
module LogConditions {
  import opened Wrappers
  import opened ConsumerGroup
  import opened LogDocuments
  import opened LogPipeline
  import opened LogGuarantees
  import opened LogSweep

  // ---------------------------------------------------------------- what the environment did to a batch

  // A conversion that a worker made: whether it failed, and when it was made.
  datatype Conversion = Conversion(fails: bool, at: nat)

  // The conversions that a worker has made of its present batch.
  function Tried(cfg: Config, run: seq<Label>, n: nat, w: string): seq<Conversion>
    requires n <= |run|
  {
    if n == 0 || !PhaseOf(Before(cfg, run, n), w).Converting? then []
    else
      var p := PhaseOf(Before(cfg, run, n - 1), w);
      if !p.Converting? then []
      else if run[n - 1].Convert? && run[n - 1].w == w && p.done < |p.batch| then
        Tried(cfg, run, n - 1, w) + [Conversion(run[n - 1].fails, Before(cfg, run, n - 1).now)]
      else Tried(cfg, run, n - 1, w)
  }

  // The message at a position of the batch is a log message and its conversion did not fail.
  predicate Converts(cfg: Config, g: Group, batch: seq<nat>, tried: seq<Conversion>, i: nat) {
    && i < |batch| && i < |tried| && !tried[i].fails && batch[i] < |g.stream|
    && (cfg.stream == LogsRaw || g.stream[batch[i]].message != "")
  }

  // How many messages before position i were converted: the place of message i among the documents of the bulk call.
  function Place(cfg: Config, g: Group, batch: seq<nat>, tried: seq<Conversion>, i: nat): nat {
    if i == 0 then 0
    else Place(cfg, g, batch, tried, i - 1) + if Converts(cfg, g, batch, tried, i - 1) then 1 else 0
  }

  predicate Applies(outcome: BulkOutcome, place: nat) {
    outcome.AllIndexed? || place in outcome.applied
  }

  // Label k is the bulk call of an attempt; the conversion of the message at position i did not fail, and the outcome
  // applies its place.
  predicate IndexesAt(cfg: Config, run: seq<Label>, k: nat, i: nat)
    requires k < |run|
  {
    && Bulks(Before(cfg, run, k), run[k])
    && var g, batch, tried := Before(cfg, run, k).g, PhaseOf(Before(cfg, run, k), run[k].w).batch,
       Tried(cfg, run, k, run[k].w);
       Converts(cfg, g, batch, tried, i) && Applies(run[k].outcome, Place(cfg, g, batch, tried, i))
  }

  // A worker with a converted batch makes its bulk call.
  predicate Bulks(s: System, l: Label) {
    l.Bulk? && PhaseOf(s, l.w).Converting? && PhaseOf(s, l.w).done == |PhaseOf(s, l.w).batch|
  }

  // The message at that position, and the key it has on the day of its timestamp or else of its conversion.
  function MessageAt(cfg: Config, run: seq<Label>, k: nat, i: nat): nat
    requires k < |run| && IndexesAt(cfg, run, k, i)
  {
    PhaseOf(Before(cfg, run, k), run[k].w).batch[i]
  }

  function KeyAt(cfg: Config, run: seq<Label>, k: nat, i: nat): DocKey
    requires k < |run| && IndexesAt(cfg, run, k, i)
  {
    var id, at := MessageAt(cfg, run, k, i), Tried(cfg, run, k, run[k].w)[i].at;
    var day := Before(cfg, run, k).g.stream[id].day;
    DocKey(DailyIndex(cfg.prefix, if day.Some? then day.value else at / 86_400_000), Sha256(id))
  }

  // ---------------------------------------------------------------- the documents of a batch

  // The documents in hand are those of the converted messages, each at its place.
  ghost predicate InPlace(cfg: Config, g: Group, p: Phase, tried: seq<Conversion>) {
    p.Converting? ==>
      && |tried| == p.done <= |p.batch| && |p.docs| == Place(cfg, g, p.batch, tried, p.done)
      && (forall i: nat :: Converts(cfg, g, p.batch, tried, i) ==>
            Place(cfg, g, p.batch, tried, i) < |p.docs|
            && p.docs[Place(cfg, g, p.batch, tried, i)]
               == ToDocument(cfg, g.stream[p.batch[i]], p.batch[i], tried[i].at))
      && forall j: nat :: j < |p.docs| ==> Filled(cfg, g, p.batch, tried, j)
  }

  // Some converted message has this place.
  ghost predicate Filled(cfg: Config, g: Group, batch: seq<nat>, tried: seq<Conversion>, j: nat) {
    exists i: nat :: Converts(cfg, g, batch, tried, i) && Place(cfg, g, batch, tried, i) == j
  }

  lemma {:induction false} PlaceGrows(cfg: Config, g: Group, h: Group, batch: seq<nat>, tried: seq<Conversion>,
      more: seq<Conversion>, i: nat)
    requires g.stream <= h.stream && (forall id :: id in batch ==> id < |g.stream|) && i <= |tried|
    ensures Place(cfg, h, batch, tried + more, i) == Place(cfg, g, batch, tried, i)
    ensures i < |tried| ==> Converts(cfg, h, batch, tried + more, i) == Converts(cfg, g, batch, tried, i)
  {
    if i > 0 {
      PlaceGrows(cfg, g, h, batch, tried, more, i - 1);
    }
    if i < |batch| {
      assert batch[i] in batch;
    }
  }

  lemma GrowthKeepsInPlace(cfg: Config, g: Group, h: Group, p: Phase, tried: seq<Conversion>)
    requires g.stream <= h.stream && PhaseOk(cfg, g, p) && g.cursor <= |g.stream| && InPlace(cfg, g, p, tried)
    ensures InPlace(cfg, h, p, tried)
  {
    if p.Converting? {
      forall i: nat | i <= |tried|
        ensures Place(cfg, h, p.batch, tried, i) == Place(cfg, g, p.batch, tried, i)
        ensures i < |tried| ==> Converts(cfg, h, p.batch, tried, i) == Converts(cfg, g, p.batch, tried, i)
      {
        PlaceGrows(cfg, g, h, p.batch, tried, [], i);
        assert tried + [] == tried;
      }
      forall j: nat | j < |p.docs| ensures Filled(cfg, h, p.batch, tried, j) {
        assert Filled(cfg, g, p.batch, tried, j);
        var i: nat :| Converts(cfg, g, p.batch, tried, i) && Place(cfg, g, p.batch, tried, i) == j;
        assert Converts(cfg, h, p.batch, tried, i);
      }
    }
  }

  // One conversion more leaves the places of the earlier messages as they are.
  lemma OneMoreTried(cfg: Config, g: Group, batch: seq<nat>, tried: seq<Conversion>, one: Conversion)
    requires forall id :: id in batch ==> id < |g.stream|
    ensures forall i: nat :: i <= |tried| ==> Place(cfg, g, batch, tried + [one], i) == Place(cfg, g, batch, tried, i)
    ensures forall i: nat :: i < |tried| ==>
      Converts(cfg, g, batch, tried + [one], i) == Converts(cfg, g, batch, tried, i)
  {
    forall i: nat | i <= |tried|
      ensures Place(cfg, g, batch, tried + [one], i) == Place(cfg, g, batch, tried, i)
      ensures i < |tried| ==> Converts(cfg, g, batch, tried + [one], i) == Converts(cfg, g, batch, tried, i)
    {
      PlaceGrows(cfg, g, g, batch, tried, [one], i);
    }
  }

  lemma MoreFilled(cfg: Config, g: Group, batch: seq<nat>, tried: seq<Conversion>, one: Conversion, j: nat)
    requires (forall id :: id in batch ==> id < |g.stream|) && Filled(cfg, g, batch, tried, j)
    ensures Filled(cfg, g, batch, tried + [one], j)
  {
    OneMoreTried(cfg, g, batch, tried, one);
    var i: nat :| Converts(cfg, g, batch, tried, i) && Place(cfg, g, batch, tried, i) == j;
    assert Converts(cfg, g, batch, tried + [one], i);
  }

  // One conversion more, which fails or not.
  lemma ConvertKeepsInPlace(cfg: Config, s: System, w: string, p: Phase, tried: seq<Conversion>, fails: bool)
    requires p.Converting? && p.done < |p.batch| && PhaseOk(cfg, s.g, p) && s.g.cursor <= |s.g.stream|
    requires InPlace(cfg, s.g, p, tried)
    ensures InPlace(cfg, s.g, ConvertStep(cfg, s, w, p, fails).workers[w], tried + [Conversion(fails, s.now)])
  {
    var one := Conversion(fails, s.now);
    var q, more := ConvertStep(cfg, s, w, p, fails).workers[w], tried + [one];
    OneMoreTried(cfg, s.g, p.batch, tried, one);
    NextDocuments(cfg, s, w, p, fails);
    assert more[p.done] == one;
    forall j: nat | j < |q.docs| ensures Filled(cfg, s.g, p.batch, more, j) {
      if j < |p.docs| {
        MoreFilled(cfg, s.g, p.batch, tried, one, j);
      } else {
        assert Converts(cfg, s.g, p.batch, more, p.done);
      }
    }
    hide Place, ConvertStep, PhaseOk, Filled, ToDocument;
    forall i: nat | Converts(cfg, s.g, p.batch, more, i)
      ensures Place(cfg, s.g, p.batch, more, i) < |q.docs|
      ensures q.docs[Place(cfg, s.g, p.batch, more, i)]
        == ToDocument(cfg, s.g.stream[p.batch[i]], p.batch[i], more[i].at)
    {
      assert i < |tried| ==> Converts(cfg, s.g, p.batch, tried, i) && more[i] == tried[i];
    }
  }

  lemma NextDocuments(cfg: Config, s: System, w: string, p: Phase, fails: bool)
    requires p.Converting? && p.done < |p.batch|
    ensures var q, id := ConvertStep(cfg, s, w, p, fails).workers[w], p.batch[p.done];
      && q.Converting? && q.batch == p.batch && q.done == p.done + 1 && p.docs <= q.docs
      && (if !fails && id < |s.g.stream| && IsLog(cfg, s.g.stream[id]) then
            |q.docs| == |p.docs| + 1 && q.docs[|p.docs|] == ToDocument(cfg, s.g.stream[id], id, s.now)
          else q.docs == p.docs)
  {
    hide ToDocument;
  }

  lemma {:induction false} DocumentsAreInPlace(cfg: Config, run: seq<Label>, n: nat, w: string)
    requires n <= |run|
    ensures InPlace(cfg, Before(cfg, run, n).g, PhaseOf(Before(cfg, run, n), w), Tried(cfg, run, n, w))
  {
    if n > 0 {
      var s, l := Before(cfg, run, n - 1), run[n - 1];
      DocumentsAreInPlace(cfg, run, n - 1, w);
      BeforeStep(cfg, run, n - 1);
      RunKeepsInv(cfg, run[..n - 1]);
      StepKeepsInPlace(cfg, s, l, w, Tried(cfg, run, n - 1, w));
    }
  }

  lemma StepKeepsInPlace(cfg: Config, s: System, l: Label, w: string, tried: seq<Conversion>)
    requires Inv(cfg, s) && InPlace(cfg, s.g, PhaseOf(s, w), tried)
    ensures var t, p := Step(cfg, s, l), PhaseOf(s, w);
      InPlace(cfg, t.g, PhaseOf(t, w),
        if !p.Converting? then []
        else if l.Convert? && l.w == w && p.done < |p.batch| then tried + [Conversion(l.fails, s.now)]
        else tried)
  {
    var t, p := Step(cfg, s, l), PhaseOf(s, w);
    StepGrows(cfg, s, l);
    if p.Converting? && l.Convert? && l.w == w && p.done < |p.batch| {
      ConvertKeepsInPlace(cfg, s, w, p, tried, l.fails);
    } else if p.Converting? {
      GrowthKeepsInPlace(cfg, s.g, t.g, p, tried);
      PhaseStays(cfg, s, l, w);
    } else {
      FreshPhase(cfg, s, l, w);
    }
  }

  lemma PhaseStays(cfg: Config, s: System, l: Label, w: string)
    requires PhaseOf(s, w).Converting? && !(l.Convert? && l.w == w && PhaseOf(s, w).done < |PhaseOf(s, w).batch|)
    ensures PhaseOf(Step(cfg, s, l), w).Converting? ==> PhaseOf(Step(cfg, s, l), w) == PhaseOf(s, w)
  {
  }

  lemma FreshPhase(cfg: Config, s: System, l: Label, w: string)
    requires !PhaseOf(s, w).Converting?
    ensures var q := PhaseOf(Step(cfg, s, l), w); q.Converting? ==> q.done == 0 && q.docs == []
  {
  }

  // ---------------------------------------------------------------- exactly when a message is indexed

  lemma WritesIffIndexes(cfg: Config, run: seq<Label>, k: nat, key: DocKey)
    requires k < |run|
    ensures Writes(cfg, run, k, key) <==> exists i: nat :: IndexesAt(cfg, run, k, i) && KeyAt(cfg, run, k, i) == key
  {
    var s := Before(cfg, run, k);
    if Bulks(s, run[k]) {
      var p, tried := PhaseOf(s, run[k].w), Tried(cfg, run, k, run[k].w);
      DocumentsAreInPlace(cfg, run, k, run[k].w);
      hide ToDocument, Place, Before;
      if Writes(cfg, run, k, key) {
        var j: nat :| Stored(p.docs, run[k].outcome, j) && p.docs[j].key == key;
        assert Filled(cfg, s.g, p.batch, tried, j);
        var i: nat :| Converts(cfg, s.g, p.batch, tried, i) && Place(cfg, s.g, p.batch, tried, i) == j;
        assert IndexesAt(cfg, run, k, i) && KeyAt(cfg, run, k, i) == key;
      }
      if i: nat :| IndexesAt(cfg, run, k, i) && KeyAt(cfg, run, k, i) == key {
        assert Stored(p.docs, run[k].outcome, Place(cfg, s.g, p.batch, tried, i));
      }
    }
  }

  // The documents there are, exactly: in every run, those of the messages that some attempt converted without a failure
  // and whose place in the bulk call was applied, each in the index of its timestamp's day or else of its conversion's.
  lemma DocumentIffAttempt(cfg: Config, run: seq<Label>, key: DocKey)
    ensures key in Final(cfg, run).es
      <==> exists k: nat, i: nat :: k < |run| && IndexesAt(cfg, run, k, i) && KeyAt(cfg, run, k, i) == key
  {
    FinalIsBefore(cfg, run);
    DocumentsAreWritten(cfg, run, |run|, key);
    hide Writes, Final, IndexesAt, KeyAt;
    if k: nat :| k < |run| && Writes(cfg, run, k, key) {
      WritesIffIndexes(cfg, run, k, key);
    }
    if k: nat, i: nat :| k < |run| && IndexesAt(cfg, run, k, i) && KeyAt(cfg, run, k, i) == key {
      WritesIffIndexes(cfg, run, k, key);
    }
  }

  lemma KeyNamesMessage(cfg: Config, run: seq<Label>, k: nat, i: nat)
    requires k < |run| && IndexesAt(cfg, run, k, i)
    ensures KeyAt(cfg, run, k, i).id == Sha256(MessageAt(cfg, run, k, i))
  {
  }

  // So a message is indexed exactly when it is a log message and some attempt on it had a conversion that did not fail
  // and a bulk call that applied its place.
  lemma IndexedIffAttempt(cfg: Config, run: seq<Label>, id: nat)
    ensures Copies(Final(cfg, run).es, id) != {}
      <==> exists k: nat, i: nat :: k < |run| && IndexesAt(cfg, run, k, i) && MessageAt(cfg, run, k, i) == id
  {
    hide Final, IndexesAt, KeyAt, MessageAt;
    if key :| key in Copies(Final(cfg, run).es, id) {
      DocumentIffAttempt(cfg, run, key);
      var k: nat, i: nat :| k < |run| && IndexesAt(cfg, run, k, i) && KeyAt(cfg, run, k, i) == key;
      KeyNamesMessage(cfg, run, k, i);
    }
    if k: nat, i: nat :| k < |run| && IndexesAt(cfg, run, k, i) && MessageAt(cfg, run, k, i) == id {
      DocumentIffAttempt(cfg, run, KeyAt(cfg, run, k, i));
      KeyNamesMessage(cfg, run, k, i);
      assert KeyAt(cfg, run, k, i) in Copies(Final(cfg, run).es, id);
    }
  }

  // ---------------------------------------------------------------- exactly when a message can be lost

  // What an environment may do to conversions and to bulk calls. Every other failure is always allowed.
  datatype Environment = Environment(conversionsFail: bool, bulksOmit: bool)

  // Label k is a bulk call that leaves out a converted message.
  ghost predicate Omits(cfg: Config, run: seq<Label>, k: nat)
    requires k < |run|
  {
    && Bulks(Before(cfg, run, k), run[k])
    && var g, batch, tried := Before(cfg, run, k).g, PhaseOf(Before(cfg, run, k), run[k].w).batch,
       Tried(cfg, run, k, run[k].w);
       exists i: nat :: Converts(cfg, g, batch, tried, i) && !Applies(run[k].outcome, Place(cfg, g, batch, tried, i))
  }

  ghost predicate Allows(env: Environment, cfg: Config, run: seq<Label>) {
    && (!env.conversionsFail ==> forall l :: l in run && l.Convert? ==> !l.fails)
    && (!env.bulksOmit ==> forall k: nat :: k < |run| ==> !Omits(cfg, run, k))
  }

  // The law: an acknowledged log message is indexed.
  ghost predicate NothingIsLost(cfg: Config, env: Environment) {
    forall run, id :: Allows(env, cfg, run) && id in Final(cfg, run).g.acked && LogEntry(cfg, Final(cfg, run).g, id)
      ==> Copies(Final(cfg, run).es, id) != {}
  }

  lemma {:induction false} NoneFails(cfg: Config, run: seq<Label>, n: nat, w: string)
    requires n <= |run| && forall l :: l in run && l.Convert? ==> !l.fails
    ensures forall i :: 0 <= i < |Tried(cfg, run, n, w)| ==> !Tried(cfg, run, n, w)[i].fails
  {
    if n > 0 {
      assert run[n - 1] in run;
      NoneFails(cfg, run, n - 1, w);
    }
  }

  lemma AckedIsIndexed(cfg: Config, run: seq<Label>, id: nat)
    requires Allows(Environment(false, false), cfg, run)
    requires id in Final(cfg, run).g.acked && LogEntry(cfg, Final(cfg, run).g, id)
    ensures Copies(Final(cfg, run).es, id) != {}
  {
    FinalIsBefore(cfg, run);
    AckedWasAttempted(cfg, run, |run|, id);
    var k: nat :| k < |run| && AttemptEnds(cfg, run, k, id);
    HistoryGrows(cfg, run, k, |run|);
    RunKeepsInv(cfg, run[..k]);
    DocumentsAreInPlace(cfg, run, k, run[k].w);
    NoneFails(cfg, run, k, run[k].w);
    AttemptSucceeds(cfg, run, k, id);
    IndexedIffAttempt(cfg, run, id);
  }

  lemma AttemptSucceeds(cfg: Config, run: seq<Label>, k: nat, id: nat)
    requires k < |run| && AttemptEnds(cfg, run, k, id) && !Omits(cfg, run, k)
    requires var tried := Tried(cfg, run, k, run[k].w);
      |tried| == |PhaseOf(Before(cfg, run, k), run[k].w).batch| && forall i :: 0 <= i < |tried| ==> !tried[i].fails
    requires LogEntry(cfg, Before(cfg, run, k).g, id)
    ensures exists i: nat :: IndexesAt(cfg, run, k, i) && MessageAt(cfg, run, k, i) == id
  {
    var g, batch, tried := Before(cfg, run, k).g, PhaseOf(Before(cfg, run, k), run[k].w).batch,
      Tried(cfg, run, k, run[k].w);
    var i: nat :| i < |batch| && batch[i] == id;
    assert Converts(cfg, g, batch, tried, i);
    assert Applies(run[k].outcome, Place(cfg, g, batch, tried, i));
    assert IndexesAt(cfg, run, k, i);
  }

  // One attempt on one message, acknowledged: the message is lost exactly when it is not a log message, its conversion
  // fails, or the bulk call leaves it out.
  function OneAttempt(w: string, f: Fields, fails: bool, outcome: BulkOutcome): seq<Label> {
    [] + [Append(f)] + [Read(w, true)] + [Convert(w, fails)] + [Bulk(w, outcome)] + [XAck(w, Acknowledged)]
  }

  lemma OneAttemptLoses(cfg: Config, w: string, f: Fields, fails: bool, outcome: BulkOutcome)
    requires cfg.batchSize > 0
    ensures var s := Final(cfg, OneAttempt(w, f, fails, outcome));
      && s.g.acked == {0} && s.g.stream == [f]
      && (Copies(s.es, 0) == {} <==>
            fails || (cfg.stream != LogsRaw && f.message == "") || !Applies(outcome, 0))
  {
    var a, b, c, d := [Append(f)], [Read(w, true)], [Convert(w, fails)], [Bulk(w, outcome)];
    FirstRead(cfg, w, f);
    ExecThen(cfg, INITIAL, [], a[0]);
    ExecThen(cfg, INITIAL, [] + a, b[0]);
    ExecThen(cfg, INITIAL, [] + a + b, c[0]);
    ExecThen(cfg, INITIAL, [] + a + b + c, d[0]);
    ExecThen(cfg, INITIAL, [] + a + b + c + d, XAck(w, Acknowledged));
    var s := Step(cfg, Step(cfg, INITIAL, a[0]), b[0]);
    hide Exec;
    ConvertAndStore(cfg, s, w, f, fails, outcome);
  }

  lemma FirstRead(cfg: Config, w: string, f: Fields)
    requires cfg.batchSize > 0
    ensures var s := Step(cfg, Step(cfg, INITIAL, Append(f)), Read(w, true));
      && PhaseOf(s, w) == Converting([0], 0, [], ThenScan)
      && s.g.stream == [f] && s.g.pending.Keys == {0} && s.g.acked == {} && s.es == map[]
  {
    var s := Step(cfg, INITIAL, Append(f));
    assert s.g == Group([f], 0, map[], {});
    assert NextIds(s.g, cfg.batchSize) == [0];
  }

  lemma ConvertAndStore(cfg: Config, s: System, w: string, f: Fields, fails: bool, outcome: BulkOutcome)
    requires PhaseOf(s, w) == Converting([0], 0, [], ThenScan)
    requires s.g.stream == [f] && s.g.pending.Keys == {0} && s.g.acked == {} && s.es == map[]
    ensures var t := Step(cfg, Step(cfg, Step(cfg, s, Convert(w, fails)), Bulk(w, outcome)), XAck(w, Acknowledged));
      && t.g.acked == {0} && t.g.stream == [f]
      && (Copies(t.es, 0) == {} <==> fails || !IsLog(cfg, f) || !Applies(outcome, 0))
  {
    var docs := if fails || !IsLog(cfg, f) then [] else [ToDocument(cfg, f, 0, s.now)];
    FirstConverts(cfg, s, w, f, fails);
    StoreOne(cfg, f, s.now, docs, outcome);
    hide Store, Step, Copies, IsLog, ToDocument, Applies;
    FirstBulks(cfg, Step(cfg, s, Convert(w, fails)), w, docs, outcome);
    FirstAcks(cfg, Step(cfg, Step(cfg, s, Convert(w, fails)), Bulk(w, outcome)), w);
  }

  lemma FirstConverts(cfg: Config, s: System, w: string, f: Fields, fails: bool)
    requires PhaseOf(s, w) == Converting([0], 0, [], ThenScan) && s.g.stream == [f]
    ensures var t := Step(cfg, s, Convert(w, fails));
      && PhaseOf(t, w) == Converting([0], 1,
           if fails || !IsLog(cfg, f) then [] else [ToDocument(cfg, f, 0, s.now)], ThenScan)
      && t.g == s.g && t.es == s.es
  {
    hide IsLog, ToDocument;
  }

  lemma FirstBulks(cfg: Config, s: System, w: string, docs: seq<Doc>, outcome: BulkOutcome)
    requires PhaseOf(s, w) == Converting([0], 1, docs, ThenScan)
    ensures var t := Step(cfg, s, Bulk(w, outcome));
      PhaseOf(t, w) == Acking([0], ThenScan) && t.g == s.g && t.es == Store(s.es, docs, outcome)
  {
    hide Store;
  }

  lemma FirstAcks(cfg: Config, s: System, w: string)
    requires PhaseOf(s, w) == Acking([0], ThenScan) && s.g.pending.Keys == {0} && s.g.acked == {}
    ensures var t := Step(cfg, s, XAck(w, Acknowledged)); t.g.acked == {0} && t.g.stream == s.g.stream && t.es == s.es
  {
    assert Ids([0]) == {0};
  }

  lemma StoreOne(cfg: Config, f: Fields, now: nat, docs: seq<Doc>, outcome: BulkOutcome)
    requires docs == [] || docs == [ToDocument(cfg, f, 0, now)]
    ensures Copies(Store(map[], docs, outcome), 0) == {} <==> docs == [] || !Applies(outcome, 0)
  {
    if docs != [] {
      assert docs[..0] == [];
      StoreLast(map[], docs, outcome);
      if Applies(outcome, 0) {
        assert docs[0].key in Copies(Store(map[], docs, outcome), 0);
      }
    }
  }

  lemma {:induction false} NothingIsRead(cfg: Config, run: seq<Label>)
    requires cfg.batchSize == 0
    ensures Final(cfg, run).g.cursor == 0
  {
    if run != [] {
      NothingIsRead(cfg, run[..|run| - 1]);
    }
  }

  // The law holds over all runs of an environment exactly when the environment allows neither a failing conversion
  // nor a bulk call that leaves a document out (or the worker reads nothing at all).
  lemma LossCondition(cfg: Config, env: Environment)
    ensures NothingIsLost(cfg, env) <==> cfg.batchSize == 0 || (!env.conversionsFail && !env.bulksOmit)
  {
    if cfg.batchSize == 0 {
      forall run ensures Final(cfg, run).g.acked == {} {
        NothingIsRead(cfg, run);
        RunKeepsInv(cfg, run);
      }
    } else if env.conversionsFail || env.bulksOmit {
      LossIsAllowed(cfg, env);
    } else {
      forall run, id | Allows(env, cfg, run) && id in Final(cfg, run).g.acked && LogEntry(cfg, Final(cfg, run).g, id)
        ensures Copies(Final(cfg, run).es, id) != {}
      {
        AckedIsIndexed(cfg, run, id);
      }
    }
  }

  lemma LossIsAllowed(cfg: Config, env: Environment)
    requires cfg.batchSize > 0 && (env.conversionsFail || env.bulksOmit)
    ensures !NothingIsLost(cfg, env)
  {
    var f, outcome := Fields("m", "", None), if env.conversionsFail then AllIndexed else Raised({});
    var run := OneAttempt("w", f, env.conversionsFail, outcome);
    OneAttemptLoses(cfg, "w", f, env.conversionsFail, outcome);
    hide Final, Tried, Place, Before;
    assert Allows(env, cfg, run);
    assert 0 in Final(cfg, run).g.acked && LogEntry(cfg, Final(cfg, run).g, 0);
  }

  // On logs:raw that is every entry, whatever its fields.
  lemma RawLogIsIndexed(cfg: Config, run: seq<Label>, id: nat)
    requires Allows(Environment(false, false), cfg, run) && cfg.stream == LogsRaw && id in Final(cfg, run).g.acked
    ensures Copies(Final(cfg, run).es, id) != {}
  {
    RunKeepsInv(cfg, run);
    AckedIsIndexed(cfg, run, id);
  }

  // On any other stream an entry without a message is never indexed, in no run at all.
  lemma MetricIsNotIndexed(cfg: Config, run: seq<Label>, id: nat)
    requires id < |Final(cfg, run).g.stream|
    requires cfg.stream != LogsRaw && Final(cfg, run).g.stream[id].message == ""
    ensures Copies(Final(cfg, run).es, id) == {}
  {
    RunKeepsInv(cfg, run);
    hide Exec;
    var s := Final(cfg, run);
    assert forall key :: key in s.es ==> Genuine(cfg, s.g, key, s.es[key]);
  }

  // The end-to-end law: where nothing is lost, every acknowledged log message has a document, and exactly one, holding
  // its own fields, when its timestamp parses.
  lemma AckedIsIndexedOnce(cfg: Config, run: seq<Label>, id: nat)
    requires Allows(Environment(false, false), cfg, run)
    requires id in Final(cfg, run).g.acked && LogEntry(cfg, Final(cfg, run).g, id)
    ensures var s := Final(cfg, run);
      && Copies(s.es, id) != {}
      && (forall key :: key in Copies(s.es, id) ==> s.es[key] == Source(id, s.g.stream[id]))
      && (s.g.stream[id].day.Some? ==>
            Copies(s.es, id) == {DocKey(DailyIndex(cfg.prefix, s.g.stream[id].day.value), Sha256(id))})
  {
    AckedIsIndexed(cfg, run, id);
    AtMostOneDocument(cfg, run, id);
  }

  // ---------------------------------------------------------------- exactly when a message can be indexed twice

  // A turn in which the acknowledgement is not sent.
  function UnackedTurn(): Turn {
    var a := Attempt({}, AllIndexed, NotSent, map[]);
    Turn(true, a, 0, Sweep(true, 0, true, a))
  }

  // The entry has been read, and not acknowledged since.
  predicate Unacked(x: Shared, w: string, f: Fields) {
    x.g == Group([f], 1, map[0 := Delivery(w, x.now)], {})
  }

  lemma OneDocument(cfg: Config, f: Fields, now: nat)
    requires IsLog(cfg, f)
    ensures Documents(cfg, [Message(0, f)], {}, map[], now) == [ToDocument(cfg, f, 0, now)]
    ensures TimeAfter(cfg, [Message(0, f)], map[], now) == now
  {
    var one := [Message(0, f)];
    assert one[..0] == [] && Documents(cfg, [], {}, map[], now) == [];
    assert TimeAfter(cfg, [], map[], now) == now && TimeAfter(cfg, one, map[], now) == now;
  }

  lemma StoreNext(es: Index, d: Doc)
    ensures Store(es, [d], AllIndexed) == es[d.key := d.source]
  {
    assert [d][..0] == [];
  }

  lemma OnePending(w: string, f: Fields, at: nat)
    ensures var g := Group([f], 1, map[0 := Delivery(w, at)], {});
      PendingRange(g, PENDING_COUNT) == [0] && Consistent(g)
  {
    var pending := map[0 := Delivery(w, at)];
    assert PendingBelow(pending, 0) == [];
    assert PendingBelow(pending, 1) == [0];
  }

  lemma OneWinner(g: Group, minIdle: nat, now: nat)
    ensures Winners(g, [0], minIdle, now) == if Claimable(g, 0, minIdle, now) then [0] else []
  {
    assert [0][..0] == [] && Winners(g, [], minIdle, now) == [];
  }

  lemma AttemptStores(cfg: Config, x: Shared, w: string, f: Fields)
    requires Unacked(x, w, f) && IsLog(cfg, f)
    ensures AfterAttempt(cfg, x, [0], UnackedTurn().attempt)
      == x.(es := x.es[ToDocument(cfg, f, 0, x.now).key := Source(0, f)])
  {
    assert Fetch(x.g.stream, [0]) == [Message(0, f)];
    OneDocument(cfg, f, x.now);
    StoreNext(x.es, ToDocument(cfg, f, 0, x.now));
  }

  // A sweep finds nothing when the delivery is recent, and indexes the message again when it is old.
  lemma RecentSweep(cfg: Config, x: Shared, w: string, f: Fields)
    requires Unacked(x, w, f)
    ensures Consistent(x.g) && AfterSweep(cfg, w, x, UnackedTurn().sweep) == x
  {
    OnePending(w, f, x.now);
    OneWinner(x.g, MIN_IDLE_MS + 1, x.now);
  }

  lemma OldSweep(cfg: Config, x: Shared, w: string, f: Fields, at: nat)
    requires x.g == Group([f], 1, map[0 := Delivery(w, at)], {}) && x.now > at + MIN_IDLE_MS && IsLog(cfg, f)
    ensures Consistent(x.g)
    ensures AfterSweep(cfg, w, x, UnackedTurn().sweep)
      == WithCopy(cfg, w, f, x.es, x.now)
  {
    OldIsWon(x, w, f, at);
    hide Stale, Won, AfterSweep, AfterClaim, AfterAttempt, ToDocument, Consistent, Claim, Known;
    var claimed := x.(g := Group([f], 1, map[0 := Delivery(w, x.now)], {}));
    SweepProcesses(cfg, w, x, UnackedTurn().sweep, [0]);
    AttemptStores(cfg, claimed, w, f);
  }

  lemma OldIsWon(x: Shared, w: string, f: Fields, at: nat)
    requires x.g == Group([f], 1, map[0 := Delivery(w, at)], {}) && x.now > at + MIN_IDLE_MS
    ensures Consistent(x.g) && Stale(x.g, x.now) == [0] == Won(x.g, x.now, x.now)
    ensures AfterClaim(w, x, 0) == x.(g := Group([f], 1, map[0 := Delivery(w, x.now)], {}))
  {
    OnePending(w, f, at);
    hide PendingRange, Winners, PendingBelow;
    OneStale(x.g, x.now);
    OneClaimed(w, x, f, at);
  }

  lemma OneStale(g: Group, now: nat)
    requires Consistent(g) && PendingRange(g, PENDING_COUNT) == [0] && Claimable(g, 0, MIN_IDLE_MS + 1, now)
    ensures Stale(g, now) == [0] == Won(g, now, now)
  {
    OneWinner(g, MIN_IDLE_MS + 1, now);
    OneWinner(g, MIN_IDLE_MS, now);
    hide PendingRange, Winners, Consistent;
  }

  lemma OneClaimed(w: string, x: Shared, f: Fields, at: nat)
    requires x.g == Group([f], 1, map[0 := Delivery(w, at)], {}) && x.now > at + MIN_IDLE_MS && Stale(x.g, x.now) == [0]
    ensures AfterClaim(w, x, 0) == x.(g := Group([f], 1, map[0 := Delivery(w, x.now)], {}))
  {
    OneWinner(x.g, MIN_IDLE_MS, x.now);
    hide Stale, Winners;
    assert Ids([0]) == {0};
  }

  lemma FirstTurn(cfg: Config, w: string, f: Fields)
    requires cfg.batchSize > 0 && IsLog(cfg, f)
    ensures var x := Shared(Group([f], 0, map[], {}), map[], 0);
      && Consistent(x.g)
      && AfterTurn(cfg, w, x, UnackedTurn()) == WithCopy(cfg, w, f, map[], 0)
  {
    var x := Shared(Group([f], 0, map[], {}), map[], 0);
    assert NextIds(x.g, cfg.batchSize) == [0];
    var read := AfterRead(cfg, w, x);
    assert read.g == Group([f], 1, map[0 := Delivery(w, 0)], {});
    AttemptStores(cfg, read, w, f);
    RecentSweep(cfg, AfterAttempt(cfg, read, [0], UnackedTurn().attempt), w, f);
    hide AfterAttempt, AfterSweep;
  }

  lemma LaterTurn(cfg: Config, x: Shared, w: string, f: Fields, at: nat)
    requires x.g == Group([f], 1, map[0 := Delivery(w, at)], {}) && x.now > at + MIN_IDLE_MS && IsLog(cfg, f)
    ensures Consistent(x.g)
    ensures AfterTurn(cfg, w, x, UnackedTurn())
      == WithCopy(cfg, w, f, x.es, x.now)
  {
    OldSweep(cfg, x, w, f, at);
    ReadsNothing(cfg, x, w);
    hide AfterSweep, NextIds, AfterRead;
  }

  lemma ReadsNothing(cfg: Config, x: Shared, w: string)
    requires x.g.cursor == |x.g.stream|
    ensures NextIds(x.g, cfg.batchSize) == [] && AfterRead(cfg, w, x) == x
  {
    assert NextIds(x.g, cfg.batchSize) == [];
  }

  // The shared state after turns on k different days, the first of them the day of the first delivery.
  function AfterDays(cfg: Config, w: string, f: Fields, k: nat): Shared
    requires k > 0
  {
    if k == 1 then WithCopy(cfg, w, f, map[], 0)
    else
      var x := AfterDays(cfg, w, f, k - 1);
      WithCopy(cfg, w, f, x.es, x.now + DAY_MS)
  }

  // The message, delivered and indexed at an instant.
  function WithCopy(cfg: Config, w: string, f: Fields, es: Index, now: nat): Shared {
    Shared(Group([f], 1, map[0 := Delivery(w, now)], {}), es[ToDocument(cfg, f, 0, now).key := Source(0, f)], now)
  }

  // A run of one worker: the message arrives, and the worker takes a turn on each of k days.
  function Days(cfg: Config, w: string, f: Fields, k: nat): seq<Label>
    requires k > 0 && cfg.batchSize > 0
  {
    if k == 1 then [Append(f)] + TurnLabels(cfg, w, Shared(Group([f], 0, map[], {}), map[], 0), UnackedTurn())
    else
      assert Consistent(AfterDays(cfg, w, f, k - 1).g);
      Days(cfg, w, f, k - 1) + [Tick(DAY_MS)]
      + TurnLabels(cfg, w, Paused(AfterDays(cfg, w, f, k - 1), DAY_MS), UnackedTurn())
  }

  ghost predicate Holds(s: System, x: Shared, w: string) {
    SharedOf(s) == x && PhaseOf(s, w) == Reading
  }

  // A turn taken at any point of a run.
  lemma TurnFollows(cfg: Config, run: seq<Label>, w: string, x: Shared)
    requires Holds(Final(cfg, run), x, w) && Consistent(x.g)
    ensures Holds(Final(cfg, run + TurnLabels(cfg, w, x, UnackedTurn())), AfterTurn(cfg, w, x, UnackedTurn()), w)
  {
    hide Exec, AfterTurn, TurnLabels, Consistent;
    TurnIsRun(cfg, Final(cfg, run), w, UnackedTurn());
    ExecConcat(cfg, INITIAL, run, TurnLabels(cfg, w, x, UnackedTurn()));
  }

  lemma NextDay(cfg: Config, run: seq<Label>, w: string, f: Fields, x: Shared)
    requires Holds(Final(cfg, run), x, w) && Unacked(x, w, f) && IsLog(cfg, f)
    ensures var later := Paused(x, DAY_MS);
      && Consistent(later.g)
      && Holds(Final(cfg, run + [Tick(DAY_MS)] + TurnLabels(cfg, w, later, UnackedTurn())),
         WithCopy(cfg, w, f, x.es, later.now), w)
  {
    var later := Paused(x, DAY_MS);
    ExecThen(cfg, INITIAL, run, Tick(DAY_MS));
    assert Holds(Final(cfg, run + [Tick(DAY_MS)]), later, w);
    hide AfterTurn, TurnLabels, Exec, ToDocument, Holds, Final;
    LaterTurn(cfg, later, w, f, x.now);
    TurnFollows(cfg, run + [Tick(DAY_MS)], w, later);
  }

  lemma FirstDay(cfg: Config, w: string, f: Fields)
    requires cfg.batchSize > 0 && IsLog(cfg, f)
    ensures Holds(Final(cfg, Days(cfg, w, f, 1)), AfterDays(cfg, w, f, 1), w)
  {
    var x := Shared(Group([f], 0, map[], {}), map[], 0);
    ExecOne(cfg, INITIAL, Append(f));
    assert Holds(Final(cfg, [Append(f)]), x, w);
    hide AfterTurn, TurnLabels, Exec, Holds, Final;
    FirstTurn(cfg, w, f);
    TurnFollows(cfg, [Append(f)], w, x);
  }

  lemma DaysStep(cfg: Config, w: string, f: Fields, k: nat)
    requires k > 1
    ensures var x := AfterDays(cfg, w, f, k - 1);
      AfterDays(cfg, w, f, k) == WithCopy(cfg, w, f, x.es, Paused(x, DAY_MS).now)
  {
    hide WithCopy;
  }

  lemma {:induction false} DaysRun(cfg: Config, w: string, f: Fields, k: nat)
    requires k > 0 && cfg.batchSize > 0 && IsLog(cfg, f)
    ensures Holds(Final(cfg, Days(cfg, w, f, k)), AfterDays(cfg, w, f, k), w)
  {
    if k == 1 {
      FirstDay(cfg, w, f);
    } else {
      var x := AfterDays(cfg, w, f, k - 1);
      hide Holds, TurnLabels, Final, WithCopy, Consistent, Unacked, IsLog, AfterDays;
      DaysAreUnacked(cfg, w, f, k - 1);
      DaysRun(cfg, w, f, k - 1);
      NextDay(cfg, Days(cfg, w, f, k - 1), w, f, x);
      DaysStep(cfg, w, f, k);
    }
  }

  function FirstDays(k: nat): set<nat> {
    if k == 0 then {} else FirstDays(k - 1) + {k - 1}
  }

  lemma {:induction false} DaysAreUnacked(cfg: Config, w: string, f: Fields, k: nat)
    requires k > 0
    ensures Unacked(AfterDays(cfg, w, f, k), w, f) && AfterDays(cfg, w, f, k).now == (k - 1) * DAY_MS
  {
    if k > 1 {
      DaysAreUnacked(cfg, w, f, k - 1);
    }
  }

  lemma KeysOnMore(cfg: Config, id: nat, days: set<nat>, day: nat)
    ensures KeysOn(cfg, id, days + {day}) == KeysOn(cfg, id, days) + {DocKey(DailyIndex(cfg.prefix, day), Sha256(id))}
    ensures day !in days ==> DocKey(DailyIndex(cfg.prefix, day), Sha256(id)) !in KeysOn(cfg, id, days)
  {
  }

  lemma EarlierDays(k: nat)
    ensures forall d :: d in FirstDays(k) ==> d < k
  {
  }

  lemma {:induction false} FirstDaysCard(cfg: Config, k: nat)
    ensures |KeysOn(cfg, 0, FirstDays(k))| == k
  {
    if k == 0 {
      assert KeysOn(cfg, 0, FirstDays(0)) == {};
    } else {
      FirstDaysCard(cfg, k - 1);
      EarlierDays(k - 1);
      KeysOnMore(cfg, 0, FirstDays(k - 1), k - 1);
      hide KeysOn;
    }
  }

  lemma CopyOf(cfg: Config, w: string, f: Fields, es: Index, now: nat)
    requires f.day.None?
    ensures WithCopy(cfg, w, f, es, now).es.Keys == es.Keys + {DocKey(DailyIndex(cfg.prefix, now / DAY_MS), Sha256(0))}
  {
  }

  lemma {:induction false} OneDocumentADay(cfg: Config, w: string, f: Fields, k: nat)
    requires k > 0 && f.day.None?
    ensures AfterDays(cfg, w, f, k).es.Keys == KeysOn(cfg, 0, FirstDays(k))
  {
    var now := (k - 1) * DAY_MS;
    DaysAreUnacked(cfg, w, f, k);
    assert now / DAY_MS == k - 1;
    KeysOnMore(cfg, 0, FirstDays(k - 1), k - 1);
    if k == 1 {
      CopyOf(cfg, w, f, map[], 0);
      assert KeysOn(cfg, 0, FirstDays(0)) == {};
    } else {
      OneDocumentADay(cfg, w, f, k - 1);
      DaysAreUnacked(cfg, w, f, k - 1);
      CopyOf(cfg, w, f, AfterDays(cfg, w, f, k - 1).es, now);
    }
    hide KeysOn, WithCopy;
  }

  // The bound on copies is reached: for every k some run processes a message without a parseable timestamp on k
  // days and leaves k documents for it.
  lemma CopiesReachBound(cfg: Config, w: string, f: Fields, k: nat)
    requires k > 0 && cfg.batchSize > 0 && f.day.None? && (cfg.stream == LogsRaw || f.message != "")
    ensures var s := Final(cfg, Days(cfg, w, f, k)); s.g.stream == [f] && |Copies(s.es, 0)| == k
  {
    DaysRun(cfg, w, f, k);
    OneDocumentADay(cfg, w, f, k);
    DaysAreUnacked(cfg, w, f, k);
    FirstDaysCard(cfg, k);
    var s := Final(cfg, Days(cfg, w, f, k));
    hide Exec, Days;
    assert Copies(s.es, 0) == KeysOn(cfg, 0, FirstDays(k));
  }

  // The law: over all runs, an entry with these fields has at most one document.
  ghost predicate NeverTwice(cfg: Config, f: Fields) {
    forall run, id: nat :: id < |Final(cfg, run).g.stream| && Final(cfg, run).g.stream[id] == f ==>
      |Copies(Final(cfg, run).es, id)| <= 1
  }

  lemma SmallSet<T>(s: set<T>, x: T)
    requires s <= {x}
    ensures |s| <= 1
  {
    if s != {} {
      assert s == {x};
    }
  }

  // It holds exactly for entries whose timestamp parses and for entries that are not log messages (or if the
  // worker reads nothing at all).
  lemma DuplicateCondition(cfg: Config, f: Fields)
    ensures NeverTwice(cfg, f)
      <==> f.day.Some? || (cfg.stream != LogsRaw && f.message == "") || cfg.batchSize == 0
  {
    if f.day.None? && IsLog(cfg, f) && cfg.batchSize > 0 {
      CopiesReachBound(cfg, "w", f, 2);
      var run := Days(cfg, "w", f, 2);
      assert Final(cfg, run).g.stream[0] == f;
    } else {
      forall run, id: nat | id < |Final(cfg, run).g.stream| && Final(cfg, run).g.stream[id] == f
        ensures |Copies(Final(cfg, run).es, id)| <= 1
      {
        CopiesAreFew(cfg, run, id);
      }
    }
  }

  lemma CopiesAreFew(cfg: Config, run: seq<Label>, id: nat)
    requires id < |Final(cfg, run).g.stream|
    requires var f := Final(cfg, run).g.stream[id]; f.day.Some? || !IsLog(cfg, f) || cfg.batchSize == 0
    ensures |Copies(Final(cfg, run).es, id)| <= 1
  {
    var s := Final(cfg, run);
    AtMostOneDocument(cfg, run, id);
    RunKeepsInv(cfg, run);
    if s.g.stream[id].day.Some? {
      SmallSet(Copies(s.es, id), DocKey(DailyIndex(cfg.prefix, s.g.stream[id].day.value), Sha256(id)));
    } else {
      if cfg.batchSize == 0 {
        NothingIsRead(cfg, run);
      }
      hide Exec;
      assert Copies(s.es, id) == {};
    }
  }
}
