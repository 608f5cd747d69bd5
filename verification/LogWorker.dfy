// The consumer itself, as the object it is: its loops, and the calls it makes on Redis and Elasticsearch.
module LogWorker {
  import opened Wrappers
  import opened ConsumerGroup
  import opened LogDocuments
  import opened LogPipeline
  import opened LogSweep

  // The Redis server, reduced to the one stream and group; its commands are the functions of ConsumerGroup.
  class RedisServer {
    var stream: seq<Fields>
    var cursor: nat
    var pending: map<nat, Delivery>
    ghost var acked: set<nat>

    ghost function View(): Group
      reads this
    {
      Group(stream, cursor, pending, acked)
    }

    constructor ()
      ensures View() == EMPTY_GROUP
    {
      stream, cursor, pending, acked := [], 0, map[], {};
    }

    method XReadGroup(consumer: string, count: nat, now: nat) returns (messages: seq<Message>)
      requires Consistent(View())
      modifies this
      ensures View() == ReadGroup(old(View()), consumer, count, now)
      ensures messages == Fetch(stream, NextIds(old(View()), count))
    {
      var ids := NextIds(Group(stream, cursor, pending, {}), count);
      assert ids == NextIds(View(), count);
      messages := Fetch(stream, ids);
      cursor := cursor + |ids|;
      pending := pending + map id | id in Ids(ids) :: Delivery(consumer, now);
    }

    method XAck(ids: seq<nat>)
      modifies this
      ensures View() == Ack(old(View()), Ids(ids))
    {
      acked := acked + pending.Keys * Ids(ids);
      pending := pending - Ids(ids);
    }

    method XPendingRange(count: nat, now: nat) returns (rows: seq<(nat, int)>)
      ensures |rows| == |PendingRange(View(), count)|
      ensures forall i :: 0 <= i < |rows| ==>
        (var id := PendingRange(View(), count)[i]; id in pending && rows[i] == (id, now - pending[id].at))
    {
      var ids := PendingRange(Group(stream, cursor, pending, {}), count);
      rows := [];
      for i := 0 to |ids|
        invariant |rows| == i
        invariant forall j :: 0 <= j < i ==> ids[j] in pending && rows[j] == (ids[j], now - pending[ids[j]].at)
      {
        assert ids[i] in ids;
        rows := rows + [(ids[i], now - pending[ids[i]].at)];
      }
    }

    method XClaim(consumer: string, minIdle: nat, ids: seq<nat>, now: nat) returns (messages: seq<Message>)
      requires Consistent(View())
      modifies this
      ensures View() == Claim(old(View()), consumer, ids, minIdle, now)
      ensures forall i :: 0 <= i < |Winners(old(View()), ids, minIdle, now)| ==>
        Winners(old(View()), ids, minIdle, now)[i] < |stream|
      ensures messages == Fetch(stream, Winners(old(View()), ids, minIdle, now))
    {
      var won := Winners(Group(stream, cursor, pending, {}), ids, minIdle, now);
      WinnersIgnoreAcked(View(), {}, ids, minIdle, now);
      forall i | 0 <= i < |won| ensures won[i] < |stream| {
        assert won[i] in won;
      }
      messages := Fetch(stream, won);
      pending := pending + map id | id in Ids(won) :: Delivery(consumer, now);
    }
  }

  lemma {:induction false} WinnersIgnoreAcked(g: Group, acked: set<nat>, ids: seq<nat>, minIdle: nat, now: nat)
    ensures Winners(g.(acked := acked), ids, minIdle, now) == Winners(g, ids, minIdle, now)
  {
    if ids != [] {
      WinnersIgnoreAcked(g, acked, ids[..|ids| - 1], minIdle, now);
    }
  }

  class SearchCluster {
    var docs: Index

    constructor ()
      ensures docs == map[]
    {
      docs := map[];
    }

    // _bulk_insert_elasticsearch: the documents are indexed one by one; an exception is swallowed and counts as no
    // success.
    method BulkInsert(batch: seq<Doc>, outcome: BulkOutcome) returns (succeeded: nat)
      modifies this
      ensures docs == Store(old(docs), batch, outcome)
      ensures forall key :: key in old(docs) ==> key in docs
      ensures forall key :: key in docs && (forall d :: d in batch ==> d.key != key) ==>
        key in old(docs) && docs[key] == old(docs)[key]
      ensures succeeded > 0 ==> succeeded == |batch|
      ensures succeeded > 0 ==> forall d :: d in batch ==> d.key in docs && Doc(d.key, docs[d.key]) in batch
      ensures succeeded == 0 <==> batch == [] || outcome.Raised?
    {
      succeeded := 0;
      for i := 0 to |batch|
        invariant docs == Store(old(docs), batch[..i], outcome)
        invariant succeeded == if outcome.AllIndexed? then i else 0
      {
        StoreLast(old(docs), batch[..i + 1], outcome);
        assert batch[..i + 1][..i] == batch[..i];
        if outcome.AllIndexed? || i in outcome.applied {
          docs := docs[batch[i].key := batch[i].source];
        }
        if outcome.AllIndexed? {
          succeeded := succeeded + 1;
        }
      }
      assert batch[..|batch|] == batch;
      hide Store;
      forall key {
        StoreFrame(old(docs), batch, outcome, key);
      }
    }
  }

  function MessageIds(messages: seq<Message>): set<nat> {
    set m | m in messages :: m.id
  }

  // The part of a batch that is handled as logs.
  function Logs(cfg: Config, messages: seq<Message>): seq<Message> {
    if messages == [] then []
    else
      var init, m := messages[..|messages| - 1], messages[|messages| - 1];
      Logs(cfg, init) + if IsLog(cfg, m.fields) then [m] else []
  }

  // The part that goes to the metrics processor.
  function Metrics(cfg: Config, messages: seq<Message>): seq<Message> {
    if messages == [] then []
    else
      var init, m := messages[..|messages| - 1], messages[|messages| - 1];
      Metrics(cfg, init) + if Kind(cfg, m.fields) == MetricMessage then [m] else []
  }

  // Every message of a batch is a log, a metric or neither, by the stream or else by what it carries.
  lemma {:induction false} EveryMessageIsClassified(cfg: Config, messages: seq<Message>, m: Message)
    ensures m in Logs(cfg, messages) <==> m in messages && (cfg.stream == LogsRaw || m.fields.message != "")
    ensures m in Metrics(cfg, messages) <==>
      && m in messages && cfg.stream != LogsRaw && m.fields.message == ""
      && (cfg.stream == MetricsRaw || m.fields.metricName != "")
  {
    if messages != [] {
      var init, last := messages[..|messages| - 1], messages[|messages| - 1];
      assert messages == init + [last];
      EveryMessageIsClassified(cfg, init, m);
    }
  }

  // The time after the conversion of messages that are all handled as logs, and their documents.
  function TimeOfLogs(logs: seq<Message>, waits: map<nat, nat>, now: nat): nat {
    if logs == [] then now
    else TimeOfLogs(logs[..|logs| - 1], waits, now) + WaitFor(waits, logs[|logs| - 1].id)
  }

  function Converted(cfg: Config, logs: seq<Message>, fails: set<nat>, waits: map<nat, nat>, now: nat): seq<Doc> {
    if logs == [] then []
    else
      var init, m := logs[..|logs| - 1], logs[|logs| - 1];
      Converted(cfg, init, fails, waits, now)
      + if m.id in fails then [] else [ToDocument(cfg, m.fields, m.id, TimeOfLogs(logs, waits, now))]
  }

  lemma {:induction false} DocumentsOfLogs(cfg: Config, messages: seq<Message>, fails: set<nat>, waits: map<nat,
      nat>, now: nat)
    ensures Converted(cfg, Logs(cfg, messages), fails, waits, now) == Documents(cfg, messages, fails, waits, now)
    ensures TimeOfLogs(Logs(cfg, messages), waits, now) == TimeAfter(cfg, messages, waits, now)
  {
    if messages != [] {
      var init, m := messages[..|messages| - 1], messages[|messages| - 1];
      DocumentsOfLogs(cfg, init, fails, waits, now);
      var logs := Logs(cfg, init);
      assert logs + [] == logs && (logs + [m])[..|logs|] == logs;
    }
  }

  class RedisStreamsConsumer {
    const cfg: Config
    const name: string
    const redis: RedisServer
    const es: SearchCluster

    constructor (cfg: Config, name: string, redis: RedisServer, es: SearchCluster)
      ensures this.cfg == cfg && this.name == name && this.redis == redis && this.es == es
    {
      this.cfg, this.name, this.redis, this.es := cfg, name, redis, es;
    }

    ghost function State(now: nat): Shared
      reads redis, es
    {
      Shared(redis.View(), es.docs, now)
    }

    // process_logs_batch; the clock is read again for every conversion.
    method ProcessLogsBatch(messages: seq<Message>, fails: set<nat>, waits: map<nat, nat>, bulk: BulkOutcome, now: nat)
      returns (succeeded: nat, later: nat)
      modifies es
      ensures es.docs == Store(old(es.docs), Converted(cfg, messages, fails, waits, now), bulk)
      ensures succeeded == if bulk.AllIndexed? then |Converted(cfg, messages, fails, waits, now)| else 0
      ensures later == TimeOfLogs(messages, waits, now)
    {
      var docs := [];
      later := now;
      for i := 0 to |messages|
        invariant docs == Converted(cfg, messages[..i], fails, waits, now)
          && later == TimeOfLogs(messages[..i], waits, now)
      {
        assert messages[..i + 1][..i] == messages[..i];
        later := later + WaitFor(waits, messages[i].id);
        if messages[i].id !in fails {
          docs := docs + [ToDocument(cfg, messages[i].fields, messages[i].id, later)];
        }
      }
      assert messages[..|messages|] == messages;
      if docs == [] {
        return 0, later;
      }
      succeeded := es.BulkInsert(docs, bulk);
    }

    // The classification loop of _process_message_batch.
    method Classify(messages: seq<Message>) returns (logs: seq<Message>, metrics: seq<Message>, ids: seq<nat>)
      ensures logs == Logs(cfg, messages) && metrics == Metrics(cfg, messages)
      ensures forall m :: m in logs <==> m in messages && (cfg.stream == LogsRaw || m.fields.message != "")
      ensures Ids(ids) == MessageIds(messages)
    {
      logs, metrics, ids := [], [], [];
      for i := 0 to |messages|
        invariant logs == Logs(cfg, messages[..i]) && metrics == Metrics(cfg, messages[..i])
        invariant |ids| == i && forall j :: 0 <= j < i ==> ids[j] == messages[j].id
      {
        assert messages[..i + 1][..i] == messages[..i];
        if cfg.stream == LogsRaw || messages[i].fields.message != "" {
          logs := logs + [messages[i]];
        } else if cfg.stream == MetricsRaw || messages[i].fields.metricName != "" {
          metrics := metrics + [messages[i]];
        }
        ids := ids + [messages[i].id];
      }
      assert messages[..|messages|] == messages;
      forall m ensures m in logs <==> m in messages && (cfg.stream == LogsRaw || m.fields.message != "") {
        EveryMessageIsClassified(cfg, messages, m);
      }
      assert Ids(ids) == MessageIds(messages) by {
        forall m | m in messages ensures m.id in ids {
          var j :| 0 <= j < |messages| && messages[j] == m;
          assert ids[j] == m.id;
        }
        forall id | id in ids ensures id in MessageIds(messages) {
          var j :| 0 <= j < |ids| && ids[j] == id;
          assert messages[j] in messages;
        }
      }
    }

    // _process_message_batch: every message of the batch is acknowledged, whatever became of it. Metric
    // messages go to the gateway, which is a placeholder and changes nothing here.
    method ProcessMessageBatch(messages: seq<Message>, a: Attempt, now: nat) returns (later: nat)
      modifies redis, es
      ensures redis.View() ==
        if a.ack == NotSent then old(redis.View()) else Ack(old(redis.View()), MessageIds(messages))
      ensures es.docs == Store(old(es.docs), Documents(cfg, messages, a.fails, a.waits, now), a.bulk)
      ensures later == TimeAfter(cfg, messages, a.waits, now)
    {
      later := now;
      if messages == [] {
        assert redis.View().acked + redis.View().pending.Keys * {} == redis.View().acked;
        assert redis.View().pending - {} == redis.View().pending;
        return;
      }
      var logs, _, ids := Classify(messages);
      DocumentsOfLogs(cfg, messages, a.fails, a.waits, now);
      if logs != [] {
        var _, t := ProcessLogsBatch(logs, a.fails, a.waits, a.bulk, now);
        later := t;
      }
      if a.ack != NotSent {
        redis.XAck(ids);
      }
    }

    // The loop of _process_pending_messages over the rows of XPENDING.
    method SelectStale(rows: seq<(nat, int)>, ghost ids: seq<nat>, now: nat) returns (stale: seq<nat>)
      requires |rows| == |ids|
      requires forall i :: 0 <= i < |rows| ==>
        ids[i] in redis.pending && rows[i] == (ids[i], now - redis.pending[ids[i]].at)
      ensures stale == StaleIds(redis.View(), ids, now)
    {
      stale := [];
      for i := 0 to |rows|
        invariant stale == StaleIds(redis.View(), ids[..i], now)
      {
        assert ids[..i + 1][..i] == ids[..i];
        if rows[i].1 > MIN_IDLE_MS {
          stale := stale + [rows[i].0];
        }
      }
      assert ids[..|rows|] == ids;
    }

    // The second half of _process_pending_messages: claim what is stale and process what was won.
    method ClaimStale(stale: seq<nat>, v: Sweep, now: nat) returns (later: nat)
      requires Consistent(redis.View()) && v.scanReplied && stale == Stale(redis.View(), now) && stale != []
      modifies redis, es
      ensures State(later) == AfterSweep(cfg, name, old(State(now)), v)
    {
      hide Stale, Winners, Documents, Store, Ack, Consistent, TimeAfter, PendingRange, Ids, Fetch;
      ghost var g := redis.View();
      later := now + v.pause;
      var claimed := redis.XClaim(name, MIN_IDLE_MS, stale, later);
      if v.claimReplied && claimed != [] {
        assert redis.stream == g.stream;
        FetchIds(g.stream, Won(g, now, later));
        later := ProcessMessageBatch(claimed, v.attempt, later);
      }
    }

    // _process_pending_messages
    method ProcessPendingMessages(v: Sweep, now: nat) returns (later: nat)
      requires Consistent(redis.View())
      modifies redis, es
      ensures State(later) == AfterSweep(cfg, name, old(State(now)), v)
    {
      hide StaleIds, PendingRange, AfterAttempt, AfterClaim, Won, Consistent;
      later := now;
      if v.scanReplied {
        var rows := redis.XPendingRange(PENDING_COUNT, now);
        var stale := SelectStale(rows, PendingRange(redis.View(), PENDING_COUNT), now);
        if stale != [] {
          later := ClaimStale(stale, v, now);
        }
      }
    }

    // One turn of consume_messages.
    method Consume(t: Turn, now: nat) returns (later: nat)
      requires Consistent(redis.View())
      modifies redis, es
      ensures State(later) == AfterTurn(cfg, name, old(State(now)), t)
    {
      hide AfterSweep, Store, Documents, NextIds, TimeAfter;
      ghost var g := redis.View();
      later := now;
      var messages := redis.XReadGroup(name, cfg.batchSize, now);
      if t.readReplied {
        FetchIds(g.stream, NextIds(g, cfg.batchSize));
        if messages != [] {
          later := ProcessMessageBatch(messages, t.attempt, now);
        }
        later := ProcessPendingMessages(t.sweep, later + t.pause);
      }
    }
  }

  lemma FetchIds(stream: seq<Fields>, batch: seq<nat>)
    requires forall i :: 0 <= i < |batch| ==> batch[i] < |stream|
    ensures MessageIds(Fetch(stream, batch)) == Ids(batch)
  {
    var messages := Fetch(stream, batch);
    forall id | id in batch ensures id in MessageIds(messages) {
      var i :| 0 <= i < |batch| && batch[i] == id;
      assert messages[i] in messages;
    }
  }
}
