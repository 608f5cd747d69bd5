// What the pipeline guarantees over whole runs: no entry is lost by the group, deliveries are spaced,
// documents are not duplicated, and when an acknowledged message is indexed.
module LogGuarantees {
  import opened Wrappers
  import opened ConsumerGroup
  import opened LogDocuments
  import opened LogPipeline

  function Final(cfg: Config, run: seq<Label>): System {
    Exec(cfg, INITIAL, run)
  }

  lemma FinalIsBefore(cfg: Config, run: seq<Label>)
    ensures Final(cfg, run) == Before(cfg, run, |run|)
  {
    assert run[..|run|] == run;
  }

  // ---------------------------------------------------------------- one place for every entry

  // Each entry of the stream is undelivered, pending to one consumer, or acknowledged; never two of these.
  lemma OnePlace(cfg: Config, run: seq<Label>, id: nat)
    requires id < |Final(cfg, run).g.stream|
    ensures var g := Final(cfg, run).g;
      var undelivered, pending, acked := id >= g.cursor, id in g.pending, id in g.acked;
      && (undelivered || pending || acked)
      && !(undelivered && pending) && !(undelivered && acked) && !(pending && acked)
  {
    RunKeepsInv(cfg, run);
  }

  // Delivered stays delivered, acknowledged stays acknowledged, and the stream keeps its entries.
  lemma {:induction false} HistoryGrows(cfg: Config, run: seq<Label>, i: nat, j: nat)
    requires i <= j <= |run|
    ensures Grows(Before(cfg, run, i).g, Before(cfg, run, j).g)
    ensures Before(cfg, run, i).now <= Before(cfg, run, j).now
  {
    hide Step;
    if i < j {
      HistoryGrows(cfg, run, i, j - 1);
      BeforeStep(cfg, run, j - 1);
      StepGrows(cfg, Before(cfg, run, j - 1), run[j - 1]);
    }
  }

  // The only way out of the pending list is an executed XACK by a worker that holds the entry. So a crash,
  // a failed XACK, a claim by another worker or a lost reply leaves it pending.
  lemma OnlyAckUnpends(cfg: Config, run: seq<Label>, k: nat, id: nat)
    requires k < |run| && id in Before(cfg, run, k).g.pending
    ensures id in Before(cfg, run, k + 1).g.pending
      <==> !(&& run[k].XAck? && run[k].ack != NotSent
             && PhaseOf(Before(cfg, run, k), run[k].w).Acking?
             && id in PhaseOf(Before(cfg, run, k), run[k].w).acking)
    ensures id !in Before(cfg, run, k + 1).g.pending ==> id in Before(cfg, run, k + 1).g.acked
  {
    BeforeStep(cfg, run, k);
  }

  // ---------------------------------------------------------------- no acknowledgement before processing

  // Label k ends a processing attempt of a batch that contains the entry.
  ghost predicate AttemptEnds(cfg: Config, run: seq<Label>, k: nat, id: nat)
    requires k < |run|
  {
    && run[k].Bulk?
    && var p := PhaseOf(Before(cfg, run, k), run[k].w);
       p.Converting? && p.done == |p.batch| && id in p.batch
  }

  ghost predicate Attempted(cfg: Config, run: seq<Label>, n: nat, id: nat)
    requires n <= |run|
  {
    exists k: nat :: k < n && AttemptEnds(cfg, run, k, id)
  }

  lemma OnlyBulkLeadsToAck(cfg: Config, s: System, l: Label, w: string)
    requires PhaseOf(Step(cfg, s, l), w).Acking? && PhaseOf(Step(cfg, s, l), w) != PhaseOf(s, w)
    ensures l.Bulk? && l.w == w
    ensures var p := PhaseOf(s, w);
      p.Converting? && p.done == |p.batch| && p.batch == PhaseOf(Step(cfg, s, l), w).acking
  {
  }

  lemma {:induction false} HeldForAckWasAttempted(cfg: Config, run: seq<Label>, n: nat, w: string, id: nat)
    requires n <= |run|
    requires PhaseOf(Before(cfg, run, n), w).Acking? && id in PhaseOf(Before(cfg, run, n), w).acking
    ensures Attempted(cfg, run, n, id)
  {
    hide Step, Exec;
    if n > 0 {
      var s := Before(cfg, run, n - 1);
      BeforeStep(cfg, run, n - 1);
      if PhaseOf(s, w) == PhaseOf(Before(cfg, run, n), w) {
        HeldForAckWasAttempted(cfg, run, n - 1, w, id);
        hide AttemptEnds, Before;
      } else {
        OnlyBulkLeadsToAck(cfg, s, run[n - 1], w);
        assert AttemptEnds(cfg, run, n - 1, id);
      }
    } else {
      NothingHeldAtStart(cfg, run, w);
    }
  }

  lemma NothingHeldAtStart(cfg: Config, run: seq<Label>, w: string)
    ensures PhaseOf(Before(cfg, run, 0), w) == Reading
  {
    assert run[..0] == [];
  }

  lemma OnlyHoldersAck(cfg: Config, s: System, l: Label, id: nat)
    requires id !in s.g.acked && id in Step(cfg, s, l).g.acked
    ensures l.XAck? && PhaseOf(s, l.w).Acking? && id in PhaseOf(s, l.w).acking
  {
  }

  // In every run, an acknowledged entry was in a batch whose processing attempt finished earlier.
  lemma {:induction false} AckedWasAttempted(cfg: Config, run: seq<Label>, n: nat, id: nat)
    requires n <= |run| && id in Before(cfg, run, n).g.acked
    ensures Attempted(cfg, run, n, id)
  {
    hide Step;
    if n > 0 {
      BeforeStep(cfg, run, n - 1);
      if id in Before(cfg, run, n - 1).g.acked {
        AckedWasAttempted(cfg, run, n - 1, id);
      } else {
        OnlyHoldersAck(cfg, Before(cfg, run, n - 1), run[n - 1], id);
        HeldForAckWasAttempted(cfg, run, n - 1, run[n - 1].w, id);
      }
    }
  }

  // ---------------------------------------------------------------- deliveries

  // Label k hands the entry to a worker, by a first read or by a claim.
  ghost predicate Delivers(cfg: Config, run: seq<Label>, k: nat, id: nat)
    requires k < |run|
  {
    var s := Before(cfg, run, k);
    match run[k]
    case Read(w, _) => PhaseOf(s, w).Reading? && id in NextIds(s.g, cfg.batchSize)
    case XClaim(w, _) => PhaseOf(s, w).Claiming? && id in Winners(s.g, PhaseOf(s, w).ids, MIN_IDLE_MS, s.now)
    case _ => false
  }

  // A delivery makes the entry pending to the worker that it is handed to, from that instant.
  lemma DeliveredToWorker(cfg: Config, run: seq<Label>, k: nat, id: nat)
    requires k < |run| && Delivers(cfg, run, k, id)
    ensures id in Before(cfg, run, k + 1).g.pending
    ensures Before(cfg, run, k + 1).g.pending[id] == Delivery(run[k].w, Before(cfg, run, k).now)
  {
    BeforeStep(cfg, run, k);
  }

  ghost predicate DeliveredSince(g: Group, id: nat, t: nat) {
    id in g.acked || (id in g.pending && g.pending[id].at >= t)
  }

  lemma DeliveryStep(cfg: Config, run: seq<Label>, k: nat, id: nat)
    requires k < |run| && Delivers(cfg, run, k, id) && Inv(cfg, Before(cfg, run, k))
    ensures DeliveredSince(Before(cfg, run, k + 1).g, id, Before(cfg, run, k).now)
    ensures id < Before(cfg, run, k + 1).g.cursor
  {
    BeforeStep(cfg, run, k);
  }

  lemma LaterStep(cfg: Config, s: System, l: Label, id: nat, t: nat)
    requires DeliveredSince(s.g, id, t) && t <= s.now
    ensures DeliveredSince(Step(cfg, s, l).g, id, t)
  {
  }

  lemma {:induction false} DeliveryIsRemembered(cfg: Config, run: seq<Label>, i: nat, n: nat, id: nat)
    requires i < n <= |run| && Delivers(cfg, run, i, id)
    ensures DeliveredSince(Before(cfg, run, n).g, id, Before(cfg, run, i).now)
    ensures id < Before(cfg, run, n).g.cursor
  {
    hide Step, Delivers;
    BeforeStep(cfg, run, n - 1);
    HistoryGrows(cfg, run, i, n - 1);
    HistoryGrows(cfg, run, n - 1, n);
    if i < n - 1 {
      DeliveryIsRemembered(cfg, run, i, n - 1, id);
      LaterStep(cfg, Before(cfg, run, n - 1), run[n - 1], id, Before(cfg, run, i).now);
    } else {
      RunKeepsInv(cfg, run[..i]);
      DeliveryStep(cfg, run, i, id);
    }
  }

  // Two deliveries of the same entry, to whichever workers, are at least 60 seconds apart. When several
  // workers see the entry idle in their XPENDING snapshots, at most one XCLAIM therefore wins it.
  lemma DeliveriesAreSpaced(cfg: Config, run: seq<Label>, i: nat, j: nat, id: nat)
    requires i < j < |run| && Delivers(cfg, run, i, id) && Delivers(cfg, run, j, id)
    ensures Before(cfg, run, j).now - Before(cfg, run, i).now >= 60_000
    ensures run[j].XClaim?
  {
    DeliveryIsRemembered(cfg, run, i, j, id);
    RunKeepsInv(cfg, run[..j]);
  }

  // ---------------------------------------------------------------- documents

  // Label k stores a document of the message in the index of the given day.
  ghost predicate Writes(cfg: Config, run: seq<Label>, k: nat, key: DocKey)
    requires k < |run|
  {
    && run[k].Bulk?
    && var p := PhaseOf(Before(cfg, run, k), run[k].w);
       && p.Converting? && p.done == |p.batch|
       && exists j: nat :: Stored(p.docs, run[k].outcome, j) && p.docs[j].key == key
  }

  lemma WrittenByStep(cfg: Config, run: seq<Label>, k: nat, key: DocKey)
    requires k < |run|
    ensures key in Before(cfg, run, k + 1).es <==> key in Before(cfg, run, k).es || Writes(cfg, run, k, key)
  {
    BeforeStep(cfg, run, k);
  }

  // Exactly when a document exists: some bulk call of the run stored it.
  lemma {:induction false} DocumentsAreWritten(cfg: Config, run: seq<Label>, n: nat, key: DocKey)
    requires n <= |run|
    ensures key in Before(cfg, run, n).es <==> exists k: nat :: k < n && Writes(cfg, run, k, key)
  {
    if n > 0 {
      hide Step, Writes;
      DocumentsAreWritten(cfg, run, n - 1, key);
      WrittenByStep(cfg, run, n - 1, key);
    }
  }

  // A document is about the message its id names and no other: distinct messages never overwrite each other,
  // and a message whose timestamp parses has its documents in one index only, however often it is redelivered.
  lemma AtMostOneDocument(cfg: Config, run: seq<Label>, id: nat)
    ensures var s := Final(cfg, run);
      && (forall key :: key in s.es && key.id == Sha256(id) ==>
            id < |s.g.stream| && s.es[key] == Source(id, s.g.stream[id]) && key.index.prefix == cfg.prefix)
      && (id < |s.g.stream| && s.g.stream[id].day.Some? ==>
            Copies(s.es, id) <= {DocKey(DailyIndex(cfg.prefix, s.g.stream[id].day.value), Sha256(id))})
  {
    RunKeepsInv(cfg, run);
  }

  // The days on which the run converted the message.
  function ConversionDays(cfg: Config, run: seq<Label>, n: nat, id: nat): set<nat>
    requires n <= |run|
  {
    if n == 0 then {}
    else
      var s := Before(cfg, run, n - 1);
      ConversionDays(cfg, run, n - 1, id)
      + if run[n - 1].Convert? && PhaseOf(s, run[n - 1].w).Converting?
           && var p := PhaseOf(s, run[n - 1].w); p.done < |p.batch| && p.batch[p.done] == id
        then {s.now / DAY_MS} else {}
  }

  ghost predicate DayAccounted(cfg: Config, run: seq<Label>, n: nat, key: DocKey, source: Source)
    requires n <= |run|
  {
    source.fields.day.None? ==> key.index.day in ConversionDays(cfg, run, n, source.message)
  }

  lemma ConvertedDocIsAccounted(cfg: Config, run: seq<Label>, n: nat, w: string, d: Doc)
    requires n < |run| && Inv(cfg, Before(cfg, run, n))
    requires PhaseOf(Before(cfg, run, n + 1), w).Converting? && d in PhaseOf(Before(cfg, run, n + 1), w).docs
    requires PhaseOf(Before(cfg, run, n), w).Converting? ==> d !in PhaseOf(Before(cfg, run, n), w).docs
    ensures DayAccounted(cfg, run, n + 1, d.key, d.source)
  {
    BeforeStep(cfg, run, n);
    var s := Before(cfg, run, n);
    assert run[n].Convert? && run[n].w == w;
    var p := PhaseOf(s, w);
    var id := p.batch[p.done];
    assert id in p.batch;
    assert d == ToDocument(cfg, s.g.stream[id], id, s.now);
  }

  lemma {:induction false} HeldDocIsAccounted(cfg: Config, run: seq<Label>, n: nat, w: string, d: Doc)
    requires n <= |run| && PhaseOf(Before(cfg, run, n), w).Converting? && d in PhaseOf(Before(cfg, run, n), w).docs
    ensures DayAccounted(cfg, run, n, d.key, d.source)
  {
    if n > 0 {
      var s := Before(cfg, run, n - 1);
      if PhaseOf(s, w).Converting? && d in PhaseOf(s, w).docs {
        HeldDocIsAccounted(cfg, run, n - 1, w, d);
      } else {
        RunKeepsInv(cfg, run[..n - 1]);
        ConvertedDocIsAccounted(cfg, run, n - 1, w, d);
      }
    }
  }

  lemma {:induction false} IndexedDocIsAccounted(cfg: Config, run: seq<Label>, n: nat, key: DocKey)
    requires n <= |run| && key in Before(cfg, run, n).es
    ensures DayAccounted(cfg, run, n, key, Before(cfg, run, n).es[key])
  {
    if n > 0 {
      BeforeStep(cfg, run, n - 1);
      var s, source := Before(cfg, run, n - 1), Before(cfg, run, n).es[key];
      if key in s.es && s.es[key] == source {
        IndexedDocIsAccounted(cfg, run, n - 1, key);
      } else {
        var p := PhaseOf(s, run[n - 1].w);
        var j: nat :| Stored(p.docs, run[n - 1].outcome, j) && p.docs[j] == Doc(key, source);
        HeldDocIsAccounted(cfg, run, n - 1, run[n - 1].w, p.docs[j]);
      }
    }
  }

  lemma {:induction false} KeysOnCard(cfg: Config, id: nat, keys: set<DocKey>, days: set<nat>)
    requires keys <= KeysOn(cfg, id, days)
    ensures |keys| <= |days|
    decreases days
  {
    if keys != {} {
      var key :| key in keys;
      KeysOnCard(cfg, id, keys - {key}, days - {key.index.day});
    }
  }

  // Without a parseable timestamp the copies of a message are bounded by the number of distinct days on
  // which it was processed.
  lemma CopiesBoundedByDays(cfg: Config, run: seq<Label>, id: nat)
    requires id < |Final(cfg, run).g.stream| && Final(cfg, run).g.stream[id].day.None?
    ensures Copies(Final(cfg, run).es, id) <= KeysOn(cfg, id, ConversionDays(cfg, run, |run|, id))
    ensures |Copies(Final(cfg, run).es, id)| <= |ConversionDays(cfg, run, |run|, id)|
  {
    var s := Final(cfg, run);
    FinalIsBefore(cfg, run);
    RunKeepsInv(cfg, run);
    forall key | key in Copies(s.es, id) ensures key in KeysOn(cfg, id, ConversionDays(cfg, run, |run|, id)) {
      IndexedDocIsAccounted(cfg, run, |run|, key);
      assert key == DocKey(DailyIndex(cfg.prefix, key.index.day), Sha256(id));
    }
    KeysOnCard(cfg, id, Copies(s.es, id), ConversionDays(cfg, run, |run|, id));
  }

  // ---------------------------------------------------------------- losses

  // An entry that is a log message: any entry of logs:raw, and those of other streams that carry a message.
  ghost predicate LogEntry(cfg: Config, g: Group, id: nat) {
    id < |g.stream| && (cfg.stream == LogsRaw || g.stream[id].message != "")
  }

  ghost predicate Held(s: System, id: nat) {
    exists w :: w in s.workers && s.workers[w].Converting? && id in s.workers[w].batch
  }

  // A loss is final: once a message is acknowledged without a document and no worker is converting it,
  // it is never delivered again and never indexed.
  lemma {:induction false} LossIsFinal(cfg: Config, run: seq<Label>, i: nat, j: nat, id: nat)
    requires i <= j <= |run|
    requires id in Before(cfg, run, i).g.acked && Copies(Before(cfg, run, i).es, id) == {}
      && !Held(Before(cfg, run, i), id)
    ensures id in Before(cfg, run, j).g.acked && Copies(Before(cfg, run, j).es, id) == {}
      && !Held(Before(cfg, run, j), id)
    ensures j < |run| ==> !Delivers(cfg, run, j, id)
  {
    RunKeepsInv(cfg, run[..j]);
    if i < j {
      LossIsFinal(cfg, run, i, j - 1, id);
      RunKeepsInv(cfg, run[..j - 1]);
      BeforeStep(cfg, run, j - 1);
      StepKeepsLoss(cfg, Before(cfg, run, j - 1), run[j - 1], id);
    }
  }

  lemma StepKeepsLoss(cfg: Config, s: System, l: Label, id: nat)
    requires Inv(cfg, s) && id in s.g.acked && Copies(s.es, id) == {} && !Held(s, id)
    ensures var t := Step(cfg, s, l); id in t.g.acked && Copies(t.es, id) == {} && !Held(t, id)
  {
    hide Store, StaleIds, Winners, PendingRange, Genuine, ToDocument;
    var t := Step(cfg, s, l);
    forall w | w in t.workers && t.workers[w].Converting? ensures id !in t.workers[w].batch {
      var p := PhaseOf(s, w);
      if p.Converting? && p.batch == t.workers[w].batch {
        assert w in s.workers && s.workers[w] == p;
      }
    }
    forall key | key in t.es && key.id == Sha256(id) ensures key in Copies(s.es, id) {
      DocumentStored(cfg, s, l, key);
    }
  }

  // A document that a step adds is of an entry in the batch the worker was converting.
  lemma DocumentStored(cfg: Config, s: System, l: Label, key: DocKey)
    requires Inv(cfg, s) && key in Step(cfg, s, l).es
    ensures key in s.es || Held(s, key.id.message)
  {
    hide Store, StaleIds, Winners, PendingRange, ToDocument, NextIds;
    if key !in s.es {
      var p := PhaseOf(s, l.w);
      var j: nat :| Stored(p.docs, l.outcome, j) && p.docs[j].key == key;
      assert p.docs[j] in p.docs;
      assert p.batch[..p.done] == p.batch;
      assert l.w in s.workers && s.workers[l.w] == p;
    }
  }
}
