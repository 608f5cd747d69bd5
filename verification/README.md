# Verified models of KillKrill's stateful core

KillKrill ships logs and metrics through Redis Streams into Elasticsearch and Prometheus, filters packets with an
XDP program, and guards its services with a licence gate, a rate limiter, pooled connections and WebSocket channels.
This project models those parts in Dafny and proves what they guarantee over whole runs: every interleaving of
workers, threads, packets and requests, with every failure the code handles.

`dafny verify dfyconfig.toml` checks everything.

## How the models are built

Where several actors share state, the model is a labelled step system: a state, a total function `Step(state, label)`
in which a label carries every choice of the environment (who moves, what a server answers, whether a reply is lost),
and `Exec`/`Run` over a sequence of labels. A label that is not enabled does nothing, so a theorem about all sequences
of labels is a theorem about all runs. Where the program is an object with methods, there is a class with its fields
and loops; each method is proved to change the object as a specification function says, and the theorems are about
that function or, through a lemma that embeds the call in a run, about the step system.

| file | component |
|---|---|
| `ConsumerGroup.dfy`, `LogPipeline.dfy`, `LogGuarantees.dfy` | the log worker: consumer group, step system, guarantees over all runs |
| `LogConditions.dfy`, `LogStreams.dfy` | exactly when a message is indexed, lost or duplicated; two streams on one index |
| `LogSweep.dfy`, `LogRecovery.dfy`, `LogWorker.dfy` | one turn of the consumer loop as a run, draining, what recovery finds, and the classes |
| `XdpRules.dfy`, `XdpFilter.dfy`, `XdpMaps.dfy`, `XdpCounters.dfy`, `XdpReload.dfy` | CIDR masks, compiled tables and packets, maps and manager, what the counters count, reload interleaved with scans |
| `RateLimit.dfy` | the rate limiter |
| `FeatureGate.dfy` | the licence feature cache under its read/write lock |
| `ReceiverClient.dfy`, `ReceiverSuccess.dfy` | token, protocol selection, lock and retries of the receiver client; when its operations succeed |
| `ReceiverTasks.dfy`, `ReceiverAlone.dfy`, `ReceiverUsable.dfy` | many tasks sharing it; each operation as a run of theirs; when they find it usable |
| `Grouping.dfy`, `MetricsPush.dfy` | grouping, and the Prometheus push buffer |
| `ConnectionPool.dfy` | the API's connection pool and request contexts |
| `ChannelRegistry.dfy` | the WebSocket channel registry and broadcasts |
| `Wrappers.dfy` | what several components share |

## Where the code does not do what is promised

Each of these is proved, with the exact condition under which the promise does hold.

- `README.md:85-88` of the repository promises no loss. A batch is acknowledged whatever became of it, so the law "an
  acknowledged log message is indexed" holds over all runs of an environment if and only if that environment allows
  neither a failing conversion nor a bulk call that leaves a document out (`LossCondition`); each of the two alone loses
  a message (`OneAttemptLoses`), for good (`LossIsFinal`). Per run, the documents there are, are exactly those of the
  messages that some attempt converted and whose place in the bulk call was applied (`DocumentIffAttempt`).
- It also promises no duplication. Over all runs an entry has at most one document if and only if its timestamp parses
  or it is not a log message (`DuplicateCondition`); otherwise, for every k, some run leaves k documents
  (`CopiesReachBound`), one for each day of processing and never more (`CopiesBoundedByDays`).
- It also promises that failed workers are recovered (line 88). A sweep looks at the oldest 100 pending entries, so it
  finds an idle entry if and only if fewer than 100 pending ones are older (`FoundIffFewOlder`); an entry that is not can
  be passed over for ever, by any number of sweeps (`RecoveryCanMiss`).
- A document's id does not name the stream. Over all histories no document of the two streams is overwritten by the
  other if and only if the index prefixes differ, no two Redis ids agree, or one of the streams is not read
  (`OverwriteCondition`); in one history it happens exactly to documents that agree in Redis id and index
  (`KeptIffNoCollision`, `CollisionOfDated`).
- Addresses are stored as numbers and compared with the word the program loads. On a little-endian machine the two
  agree for every block only for addresses that read the same backwards (`ByteOrderAgrees`).
- During a reload a port behind a zero entry of the new list can be let through although neither table allows it; it
  cannot if and only if no zero hides an entry (`LeakCondition`). `CanPassExactly` says which packets can pass meanwhile;
  every packet can be dropped meanwhile, whatever the two configurations are (`AnyPacketCanBeDropped`).
- The rate limiter's expiry is sent in whole seconds. The sliding-window law holds if and only if the window is below
  one second or a whole number of seconds, or the limit is not positive (`WindowLawCondition`). A refused call re-arms the
  counter too: with a positive limit and window, a caller is sure to be admitted again if and only if it pauses for the
  whole lifetime (`PauseLawCondition`).
- The feature gate looks at the age of its cache once, before it waits. Over all runs that write an answer within D,
  answers read are at most cacheTTL + D old if and only if a refresh has succeeded and was written no longer than
  cacheTTL before the read (`StalenessCondition`). A failed refresh, a late read lock after a successful one, and a
  cache that was never refreshed all lead beyond that.
- `refresh_token` calls `authenticate` while it holds the lock that `authenticate` takes. From a free lock an operation
  hangs if and only if it gets to refresh a token and the refresh is refused, and every other operation leaves the lock
  free (`RefreshHangs`, `EnsureHangs`, `RetryHangs`, `LockIsHeldIff`); among any number of tasks, the lock can still be
  released if and only if no refresh was refused (`DeadlockIffRefused`, `ReleasableUnlessDeadlocked`). A refresh reply
  with a malformed expiry leaves the protocol client with the old token (`RefreshCondition`).
- Among tasks that share a receiver client, "No active protocol client" is unreachable (`SomeClientIsActive`), but an
  unconnected gRPC client and a closed REST client are not: over all runs of a set of tasks every submission finds a
  usable client if and only if there is no task, or there is one and its disconnects do not fail (`UsableCondition`). At
  one submission, as long as nobody closes the client, no disconnect fails and no fallback runs into a set-up, it fails
  for that reason if and only if some task is closing the old REST client, or is connecting a new one while gRPC is still
  selected (`SubmissionCondition`); a fallback that is overtaken fails also when no task is (`OvertakenFallback`).
- The log worker's joined grouping key can confuse two types if and only if one extends the other past an underscore
  (`KeyCollisions`).
- `initialize` keeps the pool within `pool_size` if and only if it finds the pool empty or ready
  (`InitializeCondition`); a retry after a failed start and a restart after a late release do not
  (`FailedStartOverfills`, `LateReleaseOverfills`).

## Model

| member | source | states |
|---|---|---|
| ConsumerGroup.NextIds | apps/log-worker/app.py:419-425 | XREADGROUP ">" hands out the next undelivered entries in stream order, at most the batch size |
| ConsumerGroup.PendingBelow | apps/log-worker/app.py:489-495 | the pending list in stream order holds every pending id once |
| ConsumerGroup.PendingRange | apps/log-worker/app.py:489-495 | a scan lists the oldest pending ids in stream order, at most the requested number, and all of them when there are fewer |
| ConsumerGroup.Winners | apps/log-worker/app.py:513-519 | XCLAIM yields exactly the requested ids that are pending and idle for the minimum time |
| LogDocuments.Store | apps/log-worker/app.py:269-290 | after a bulk call, successful or not, an indexed document is an old one or one that the call applied, and every applied key is there |
| LogDocuments.StoreFrame | apps/log-worker/app.py:269-290 | a bulk call removes nothing and leaves other keys as they were; if it does not raise, every key it was given holds one of its documents |
| LogDocuments.OneMessageMore | apps/log-worker/app.py:123-185 | one more message of a batch adds, if the stream is logs:raw or its text is not empty, the time before its conversion and, unless that fails, its document, in the index of its own day or else of that time |
| LogPipeline.StaleIds | apps/log-worker/app.py:504-510 | the ids selected for claiming are exactly the listed ones idle for more than 60000 ms |
| LogPipeline.StepGrows | apps/log-worker/app.py:414-527 | no step takes back a delivery, an acknowledgement or a stream entry |
| LogPipeline.ConvertKeepsPhase | apps/log-worker/app.py:132-140 | the documents built so far are genuine documents of messages of the batch already looked at |
| LogPipeline.BulkStoresGenuine | apps/log-worker/app.py:269-290 | a bulk call, however it ends, leaves only documents that hold the fields of the message their id names |
| LogPipeline.StepKeepsInv | apps/log-worker/app.py:414-527 | every step of every worker, the clock and the producers keeps the invariant of the pipeline |
| LogPipeline.RunKeepsInv | apps/log-worker/app.py:399-527 | the invariant holds in every reachable state, whatever fails or crashes |
| LogGuarantees.OnePlace | apps/log-worker/app.py:414-483 | in every run each entry is in exactly one of undelivered, pending to one consumer, acknowledged |
| LogGuarantees.HistoryGrows | apps/log-worker/app.py:414-527 | over any stretch of a run the delivered and the acknowledged entries only grow |
| LogGuarantees.DeliveredToWorker | apps/log-worker/app.py:414-519 | an entry that a read or a claim delivers is pending to that worker, dated now |
| LogGuarantees.OnlyAckUnpends | apps/log-worker/app.py:474-483 | an entry leaves the pending list if and only if a worker that holds it executes XACK; crashes, claims and failed calls leave it pending |
| LogGuarantees.HeldForAckWasAttempted | apps/log-worker/app.py:462-476 | what a worker is about to acknowledge was in a batch whose processing has finished |
| LogGuarantees.AckedWasAttempted | apps/log-worker/app.py:474-476 | in every run, an acknowledged entry was in a batch whose processing finished earlier |
| LogGuarantees.DeliveryIsRemembered | apps/log-worker/app.py:489-519 | after a delivery the entry is acknowledged, or pending with a delivery time no older than that one |
| LogGuarantees.DeliveriesAreSpaced | apps/log-worker/app.py:504-519 | two deliveries of one entry, to whichever workers, are at least 60000 ms apart and the later one is a claim |
| LogGuarantees.DocumentsAreWritten | apps/log-worker/app.py:269-290 | a document exists if and only if some bulk call of the run stored it |
| LogGuarantees.AtMostOneDocument | apps/log-worker/app.py:175-185 | distinct messages never overwrite each other, and a message whose timestamp parses has at most one document, in the index of its own day, however often it is redelivered |
| LogGuarantees.IndexedDocIsAccounted | apps/log-worker/app.py:175-185 | the index of a document without a parseable timestamp is of a day on which the message was converted |
| LogGuarantees.CopiesBoundedByDays | apps/log-worker/app.py:175-182 | without a parseable timestamp every document of a message is in the index of a day on which it was processed, so there are at most as many as such days (CopiesReachBound: and that many are possible) |
| LogGuarantees.LossIsFinal | apps/log-worker/app.py:474-476 | a message acknowledged without a document, and in no worker's hands, is never delivered and never indexed again |
| LogConditions.DocumentsAreInPlace | apps/log-worker/app.py:131-140 | in every run the documents in a worker's hands are those of the log messages whose conversion did not fail, in order, each with the day of its own conversion |
| LogConditions.WritesIffIndexes | apps/log-worker/app.py:145-146 | a bulk call stores a key if and only if it is the key of a converted message of the batch whose place the outcome applies |
| LogConditions.DocumentIffAttempt | apps/log-worker/app.py:123-169 | in every run the documents in the index are exactly those of the messages that some attempt converted without a failure and whose place in the bulk call was applied |
| LogConditions.IndexedIffAttempt | apps/log-worker/app.py:123-169 | a message is indexed if and only if the stream is logs:raw or its text is not empty, and some attempt on it had a conversion that did not fail and a bulk call that applied its place |
| LogConditions.AckedIsIndexed | apps/log-worker/app.py:445-483 | where no conversion fails and no bulk call leaves a document out, every acknowledged log message is indexed |
| LogConditions.RawLogIsIndexed | apps/log-worker/app.py:451-460 | in such runs of a worker on logs:raw every acknowledged entry is indexed, whatever its fields are |
| LogConditions.MetricIsNotIndexed | apps/log-worker/app.py:451-460 | in every run of a worker on another stream an entry without text has no document, ever |
| LogConditions.OneAttemptLoses | apps/log-worker/app.py:474-476 | one acknowledged attempt on a message leaves it unindexed if and only if the conversion fails, the bulk call leaves it out, or the stream is not logs:raw and the message has no text |
| LogConditions.LossCondition | apps/log-worker/app.py:445-483 | nothing acknowledged is lost in any run of an environment if and only if it allows neither a failing conversion nor a bulk call that leaves a document out, or nothing is read at all |
| LogConditions.AckedIsIndexedOnce | apps/log-worker/app.py:445-483 | in such runs each acknowledged log message has a document with its own fields, and exactly one when its timestamp parses |
| LogConditions.OneDocumentADay | apps/log-worker/app.py:175-185 | the run that takes a turn on each of k days leaves a message without a parseable timestamp in exactly the k daily indexes of those days |
| LogConditions.CopiesReachBound | apps/log-worker/app.py:175-185 | for every k some run of one worker, whose acknowledgements are not sent, leaves exactly k documents for such a message |
| LogConditions.DuplicateCondition | apps/log-worker/app.py:175-185 | over all runs an entry has at most one document if and only if its timestamp parses, or it is no log message, or nothing is read at all |
| LogStreams.PartsAreRuns | apps/log-worker/app.py:560-585 | in every interleaving of the workers of both streams each stream's part is a run of its own, so all its guarantees hold |
| LogStreams.BulkKeepsBacked | apps/log-worker/app.py:258-263 | a bulk call of one stream leaves the other stream's documents as they were or replaces them by its own under the same key |
| LogStreams.HistoryKeepsMerged | apps/log-worker/app.py:258-263 | everything in the shared index is what the stream it names as origin wrote last for that message and day, and no key that a stream wrote disappears |
| LogStreams.KeptIffNoCollision | apps/log-worker/app.py:258-263 | in every history both streams have all their documents in the index if and only if no two of them have the same index and Redis id |
| LogStreams.CollisionOfDated | apps/log-worker/app.py:184-185 | two indexed messages with parseable timestamps collide if and only if index prefix, day and Redis id agree |
| LogStreams.SameIdOverwrites | apps/log-worker/app.py:451-460 | if the first entries of the two streams agree in id, prefix and day, there is a history that processes both without a failure, acknowledges both, and leaves one of the two without a document |
| LogStreams.EntryIndexed | apps/log-worker/app.py:414-483 | for every entry of a stream there is a run without a failure, of any batch size, that indexes it |
| LogStreams.OverwriteCondition | apps/log-worker/app.py:560-585 | over all histories all documents of both streams are kept if and only if the prefixes differ, no two ids agree, or a stream is not read |
| LogSweep.AttemptIsRun | apps/log-worker/app.py:445-483 | processing a batch undisturbed, however long its conversions take, is a run of conversions, one bulk call and one XACK |
| LogSweep.ConversionsRun | apps/log-worker/app.py:131-140 | any part of the conversion loop, with any waits before the conversions, is a run that builds the documents with the time of each conversion |
| LogSweep.SweepIsRun | apps/log-worker/app.py:485-527 | a pending sweep undisturbed is a run of the step system |
| LogSweep.TurnIsRun | apps/log-worker/app.py:414-443 | one turn of the consumer loop undisturbed is a run of the step system that comes back to reading |
| LogSweep.ScanSeesOldest | apps/log-worker/app.py:489-495 | a scan lists exactly min(100, n) of n pending entries, and they precede all the others |
| LogSweep.IdleIsWon | apps/log-worker/app.py:504-519 | when everything pending is idle, what is listed is what is claimed is what is won |
| LogSweep.SweepTakesOldest | apps/log-worker/app.py:485-524 | an error-free sweep over an idle pending list acknowledges exactly the oldest min(100, n) entries |
| LogSweep.RoundTakesOldest | apps/log-worker/app.py:414-439 | so does a whole turn of an otherwise quiet system, and the system is quiet again |
| LogSweep.TurnsDrain | apps/log-worker/app.py:485-524 | k such turns leave max(0, n - 100 k) entries pending and acknowledge the rest, so ceil(n/100) turns empty the list |
| LogRecovery.FoundIffFewOlder | apps/log-worker/app.py:489-510 | a pending sweep selects an entry if and only if it has been pending for more than 60000 ms and fewer than 100 pending entries, idle or not, are older |
| LogRecovery.RecoveredIffFound | apps/log-worker/app.py:485-524 | a sweep whose calls succeed acknowledges a pending entry if and only if that holds of it |
| LogRecovery.UnackedTurnClaims | apps/log-worker/app.py:414-443 | a turn over an idle pending list whose XACK is not sent redelivers the oldest 100 entries and changes nothing else in the group |
| LogRecovery.StarvationLasts | apps/log-worker/app.py:485-527 | from a state with 100 older entries, any number of turns more than 60 seconds apart, each claiming and processing 100 entries, need never deliver the entry again |
| LogRecovery.RecoveryCanMiss | apps/log-worker/app.py:485-527 | such a state arises when a worker crashes over 101 entries; for every k the newest is not redelivered in some run with k further turns |
| LogWorker.RedisServer.XReadGroup | apps/log-worker/app.py:419-425 | the group's new state and the messages, with their fields, that the worker receives |
| LogWorker.RedisServer.XAck | apps/log-worker/app.py:474-476 | the ids that are pending become acknowledged, the others are ignored |
| LogWorker.RedisServer.XPendingRange | apps/log-worker/app.py:489-495 | the rows name the oldest pending ids with the time since their delivery |
| LogWorker.RedisServer.XClaim | apps/log-worker/app.py:513-519 | exactly the winning ids change owner and their messages are returned |
| LogWorker.SearchCluster.BulkInsert | apps/log-worker/app.py:269-290 | the loop indexes the documents in order; old keys stay, other keys are untouched, and a positive count means that every document of the batch, or a later one with its key, is there |
| LogWorker.DocumentsOfLogs | apps/log-worker/app.py:455-466 | classifying first and converting afterwards gives the documents of the whole batch, in order and with the same conversion times |
| LogWorker.RedisStreamsConsumer.ProcessLogsBatch | apps/log-worker/app.py:123-169 | the conversion loop, reading the clock anew each time, hands the bulk call the documents of the convertible messages in order |
| LogWorker.RedisStreamsConsumer.Classify | apps/log-worker/app.py:451-460 | the logs in order, which are the messages with text or of logs:raw, the metrics in order, and the ids of all messages |
| LogWorker.EveryMessageIsClassified | apps/log-worker/app.py:451-460 | a message counts as a log if and only if the stream is logs:raw or it has text, and as a metric if and only if it is no log and the stream is metrics:raw or it has a metric name |
| LogWorker.RedisStreamsConsumer.ProcessMessageBatch | apps/log-worker/app.py:445-483 | every id of the batch is acknowledged unless the XACK was not sent, whatever happened to its document |
| LogWorker.RedisStreamsConsumer.SelectStale | apps/log-worker/app.py:501-510 | the loop over the scan's rows selects exactly the stale ids |
| LogWorker.RedisStreamsConsumer.ClaimStale | apps/log-worker/app.py:512-524 | what is won of the stale ids is processed as a batch |
| LogWorker.RedisStreamsConsumer.ProcessPendingMessages | apps/log-worker/app.py:485-527 | the method is the sweep whose runs and drain rate are proved above |
| LogWorker.RedisStreamsConsumer.Consume | apps/log-worker/app.py:414-443 | one turn is the turn that TurnIsRun embeds in the step system |
| CidrMask.MaskIsRange | apps/log-receiver/xdp_filter.c:59-69 | for every prefix 0..32 the masked comparison holds if and only if the address lies between the first and the last address of the block |
| CidrMask.MaskIsPrefix | apps/log-receiver/xdp_filter.c:59-69 | the masked comparison holds if and only if address and rule agree in their first bits, as many as the prefix says |
| CidrMask.BlockIsPrefix | apps/log-receiver/xdp_manager.py:195-201 | so the range of a block holds exactly the addresses with its first bits |
| CidrMask.HostMask | apps/log-receiver/xdp_manager.py:170-172 | the mask of a prefix is the complement of 2^(32-p) - 1 |
| CidrMask.LongerPrefixIsSmaller | apps/log-receiver/xdp_manager.py:195-201 | containment is monotone in the prefix length |
| XdpTables.PortsWritten | apps/log-receiver/xdp_manager.py:234-244 | writing ports stops at 64 or at the first entry that does not convert |
| XdpTables.CompiledMatches | apps/log-receiver/xdp_manager.py:194-205 | a compiled slot matches a packet if and only if the rule it comes from covers it |
| XdpTables.PortsRefine | apps/log-receiver/xdp_filter.c:72-83 | the scan of the compiled ports accepts exactly the ports among the first 64 that no zero or invalid entry precedes |
| XdpTables.RulesRefine | apps/log-receiver/xdp_filter.c:185-202 | the scan of the compiled rules accepts exactly what a valid enabled entry among the first 1024 covers; holes change nothing |
| XdpPacket.ByteOrderAgrees | apps/log-receiver/xdp_manager.py:166-168 | loaded word and stored number mean the same address for every block if and only if the machine is big-endian or the address is a palindrome |
| XdpPacket.ParseByBytes | apps/log-receiver/xdp_filter.c:117-177 | by the bytes of any frame: when it is passed unseen, when it is dropped as malformed, and otherwise which bytes are address, port and protocol |
| XdpPacket.ParseFindsFields | apps/log-receiver/xdp_filter.c:122-177 | parsing a well-formed frame finds source address and destination port wherever the header's options put them, and passes other protocols unseen |
| XdpPacket.WrapOfSum | apps/log-receiver/xdp_manager.py:273-284 | balance modulo 2^64 survives addition |
| XdpPacket.AddKeepsBalance | apps/log-receiver/xdp_filter.c:86-115 | adding balanced counters keeps total = allowed + blocked, for packets and bytes, and total = TCP + UDP |
| XdpPacket.SumIsBalanced | apps/log-receiver/xdp_manager.py:269-284 | the totals over the processors balance when each processor's counters do |
| XdpMaps.CountedIsBalanced | apps/log-receiver/xdp_filter.c:179-204 | counting a packet, passed or dropped, keeps the counters balanced |
| XdpMaps.BpfMaps.CheckPortAllowed | apps/log-receiver/xdp_filter.c:72-83 | the port loop returns whether the port occurs before the first zero slot |
| XdpMaps.BpfMaps.CheckSourceAllowed | apps/log-receiver/xdp_filter.c:185-202 | the rule loop returns whether some enabled slot matches port and source |
| XdpMaps.BpfMaps.Filter | apps/log-receiver/xdp_filter.c:117-211 | the verdict on a frame, and exactly which counters of the one processor change, keeping them balanced; a frame that is short or no IPv4 is passed and changes none |
| XdpMaps.BpfMaps.GetStatistics | apps/log-receiver/xdp_manager.py:269-284 | the totals are the wrapped sums over the processors and balance when those do |
| XdpMaps.XdpFilterManager.UpdateCidrRules | apps/log-receiver/xdp_manager.py:174-218 | the in-place loops leave exactly the compiled rules, or the old table when the program is not loaded |
| XdpMaps.XdpFilterManager.UpdateAllowedPorts | apps/log-receiver/xdp_manager.py:220-244 | the in-place loops leave exactly the compiled ports, also when an invalid entry ends the update, and the result says whether all were written |
| XdpMaps.XdpFilterManager.ReloadConfig | apps/log-receiver/xdp_manager.py:323-338 | both tables are rewritten and the outcomes of the two updates are ignored |
| XdpMaps.FilterRefinesConfig | apps/log-receiver/xdp_filter.c:179-210 | on compiled tables a TCP or UDP packet passes if and only if the configuration lists its port and covers the address loaded from it |
| XdpMaps.PacketPasses | apps/log-receiver/xdp_filter.c:117-211 | on a big-endian machine a well-formed TCP or UDP packet, built field by field, passes if and only if its port is listed and its address covered |
| XdpMaps.UnseenExactly | apps/log-receiver/xdp_filter.c:117-177 | whatever the tables hold, a frame is passed and counted nowhere if and only if it is shorter than 14 bytes, not of EtherType 0x0800, shorter than 34 bytes, or has a possible header length and neither TCP nor UDP |
| XdpMaps.MalformedExactly | apps/log-receiver/xdp_filter.c:133-177 | whatever the tables hold, it is dropped and counted nowhere if and only if it is a full IPv4 header with a length below 5 words, or with a TCP or UDP header that does not fit |
| XdpCounters.CountersAreTallies | apps/log-receiver/xdp_filter.c:86-115 | after any packets each of the ten counters is, modulo 2^64, the plain number or bytes of the packets it is named after |
| XdpCounters.TotalsAreTallies | apps/log-receiver/xdp_manager.py:269-284 | the reported totals are those numbers over the packets of all processors |
| XdpReload.RuleSlot | apps/log-receiver/xdp_manager.py:183-205 | at every instant of a reload a rule slot is old, then cleared, then new, and when it changes |
| XdpReload.PortSlot | apps/log-receiver/xdp_manager.py:229-237 | the same for port slots, after all the rules |
| XdpReload.ReloadCompletes | apps/log-receiver/xdp_manager.py:323-335 | a finished reload leaves exactly the compiled configuration |
| XdpReload.PassedPort | apps/log-receiver/xdp_filter.c:72-83 | a port passed during a reload was allowed by the old table or is among the ports written |
| XdpReload.PassedRule | apps/log-receiver/xdp_filter.c:187-202 | a source passed during a reload is covered by the old rules or by the new ones |
| XdpReload.NewPortMeetsNewRules | apps/log-receiver/xdp_manager.py:323-335 | a packet whose port the old table does not allow is matched against the finished new rules |
| XdpReload.PassedDuringReload | apps/log-receiver/xdp_filter.c:179-210 | a packet passed during a reload has a port of the old table or of the new list and a source of the old or the new rules, and a port from the new list meets the new rules |
| XdpReload.NewPortIsSpliced | apps/log-receiver/xdp_filter.c:72-83 | a port found in a new slot is reached over slots of the old table up to some point and of the new list from there, none of them zero |
| XdpReload.CanPassExactly | apps/log-receiver/xdp_filter.c:179-210 | some scan during the reload passes a packet if and only if its port is in the old table and its source in the old or the new rules, or its port is reached by such a splice and its source is in the new rules |
| XdpReload.AnyPacketCanBeDropped | apps/log-receiver/xdp_manager.py:183-187 | whatever the old tables and the new configuration are, some scan during the reload drops the packet |
| XdpReload.DroppedOnlyMeanwhile | apps/log-receiver/xdp_manager.py:323-335 | a scan that drops a packet which both the old and the new tables pass began before the last write and ended after the first |
| XdpReload.HiddenPortLeaks | apps/log-receiver/xdp_manager.py:229-237 | a port hidden behind a zero of the new list can pass during the reload although neither table allows it |
| XdpReload.LeakCondition | apps/log-receiver/xdp_manager.py:229-237 | no scan during a reload passes a port that neither table allows if and only if no zero of the new list hides an entry |
| RateLimit.RateLimiter.Check | shared/database/redis.go:200-218 | the counter's new state, the answer, and that an error is answered with false |
| RateLimit.KeysDiffer | shared/database/redis.go:201 | different identifiers have different counters |
| RateLimit.TtlIsWholeSeconds | shared/database/redis.go:205 | the lifetime of a counter is the window cut to whole seconds, and one second for a shorter positive window |
| RateLimit.CounterIsChain | shared/database/redis.go:203-207 | the stored counter is the length of the current chain of calls with gaps shorter than the lifetime, and expires one lifetime after the last of them |
| RateLimit.AnswerIsChainBound | shared/database/redis.go:212-217 | a call is admitted if and only if it is executed and reported and its chain is no longer than the limit; other identifiers do not matter |
| RateLimit.AdmittedIffChainWithinLimit | shared/database/redis.go:200-218 | a reported call is admitted if and only if the chain of executed calls it ends, with gaps below that lifetime written out, is no longer than the limit |
| RateLimit.RunsAreBounded | shared/database/redis.go:200-218 | the calls admitted since an instant that the last lifetime reaches are bounded by counter and limit |
| RateLimit.LifetimeBound | shared/database/redis.go:200-218 | in every run, every half-open interval as long as the counter's lifetime holds at most limit admitted calls |
| RateLimit.TruncationBreaksLaw | shared/database/redis.go:205 | when the lifetime is shorter than the window, some run admits limit + 1 calls within one window |
| RateLimit.WindowLawCondition | shared/database/redis.go:200-218 | the sliding-window law holds over all runs if and only if the limit is not positive, the window is below a second, or it is a whole number of seconds |
| RateLimit.LimitHoldsForLifetime | shared/database/redis.go:200-218 | no interval of window minus its fraction of a second, or one second for a shorter window, holds more than limit admitted calls |
| RateLimit.PauseLawCondition | shared/database/redis.go:200-218 | over all runs a reported call is admitted after a pause without executed calls if and only if the limit is positive and the pause is at least that long, or the window is not positive |
| FeatureCache.Entries | shared/licensing/middleware.go:101-107 | the refreshed map holds the answers of the validation and nothing else |
| FeatureCache.EntriesAreLast | shared/licensing/middleware.go:104-107 | a name is in the refreshed map if and only if the validation lists it, with the value of its last entry |
| FeatureGateRuns.StepKeepsCache | shared/licensing/middleware.go:53-110 | every step keeps each cached entry a real server answer, not older than the last refresh by more than the commit delay |
| FeatureGateRuns.RunKeepsInv | shared/licensing/middleware.go:53-110 | this holds under all interleavings of readers, direct checks and refreshes |
| FeatureGateRuns.DelayOf | shared/licensing/middleware.go:53-110 | every run has some bound on the delay between an answer and its write |
| FeatureGateRuns.ReadsAreAnswers | shared/licensing/middleware.go:63-64 | what is read was given by the server for this feature no earlier than the delay before the last refresh |
| FeatureGateRuns.FreshReadsAreRecent | shared/licensing/middleware.go:53-64 | an answer read after the freshness check passed is at most cacheTTL plus the delay old, even when an old direct check was written after a newer refresh |
| FeatureGateRuns.GrantsComeFromServer | shared/licensing/middleware.go:53-83 | in every run a positive answer was given by the server for that feature; errors and missing entries never grant |
| FeatureGateRuns.WritesIffUnread | shared/licensing/middleware.go:79-107 | a refreshed map, and a direct answer, is written if and only if no goroutine holds the read lock |
| FeatureGateRuns.ReadersSeeOneMap | shared/licensing/middleware.go:53-64 | from the moment a caller holds the read lock until it reads, no interleaving changes the map |
| FeatureGateRuns.FailedRefreshReadsOldMap | shared/licensing/middleware.go:57-64 | after a failed refresh a caller can be given an answer of any age |
| FeatureGateRuns.SlowCallerReads | shared/licensing/middleware.go:57-64 | a caller whose refresh succeeded and who then waits for the read lock can be given an answer of any age |
| FeatureGateRuns.NeverRefreshedReads | shared/licensing/middleware.go:66-77 | without a successful refresh a directly checked answer is given again at any age |
| FeatureGateRuns.StalenessCondition | shared/licensing/middleware.go:53-110 | over all runs that write answers within D, every answer read is at most cacheTTL + D old if and only if a refresh has succeeded and was written at most cacheTTL before the read |
| FeatureGate.Gate.constructor | shared/licensing/middleware.go:23-34 | a new gate has made one refresh |
| FeatureGate.Gate.RefreshFeatures | shared/licensing/middleware.go:86-110 | a failed or invalid validation changes nothing, a valid one replaces map and time |
| FeatureGate.Gate.HasFeature | shared/licensing/middleware.go:53-83 | the answer and the new cache, with the refresh, the direct check, their failures, and the instants of look, answer and write |
| FeatureGateSequential.CallIsRun | shared/licensing/middleware.go:53-83 | a call that nothing interferes with, however long it waits, is a run of the interleaved system with the method's cache and the method's answer |
| FeatureGateSequential.CallAnswers | shared/licensing/middleware.go:53-83 | the answer of such a call after any run: by the map when its refresh is at most five minutes old or fails, otherwise by the last listed entry, and for other names by the direct check, an error counting as no |
| FeatureGateSequential.RefreshedIffStale | shared/licensing/middleware.go:57-61 | the map is replaced and dated if and only if no refresh succeeded in the last five minutes and this one does; otherwise every cached entry stays |
| FeatureGateSequential.AnswerIsCached | shared/licensing/middleware.go:66-80 | an answer that is not an error is in the map afterwards, and what is in the map for the name is the answer given |
| FeatureGateSequential.AnswerIsRepeated | shared/licensing/middleware.go:53-83 | within five minutes of the last refresh the same question gets the same answer, whatever the server would say by then |
| ReceiverGuarantees.EnsureKeepsInv | shared/receiver_client/client.py:224-229 | (re)authentication with well-formed refreshes keeps the selected protocol client present, connected and on the current token, and never hangs |
| ReceiverGuarantees.RetryKeepsInv | shared/receiver_client/client.py:231-275 | so does a whole retried operation, and it never ends in "No active protocol client" |
| ReceiverGuarantees.RunKeepsInv | shared/receiver_client/client.py:75-222 | the invariant holds after every sequence of operations |
| ReceiverGuarantees.SubmitFindsClient | shared/receiver_client/client.py:291-297 | in every such run a submission finds a client object for the selected protocol that is connected, or not closed; and one with an HTTP client if every REST client that is made gets one |
| ReceiverGuarantees.RunMakesRest | shared/receiver_client/client.py:212-222 | when every REST client that is made gets its HTTP client, the one in place has it after every sequence of operations |
| ReceiverGuarantees.RefreshCondition | shared/receiver_client/client.py:126-168 | a refresh keeps the invariant if and only if it is not refused and, if its expiry is malformed, brings no new token |
| ReceiverGuarantees.AuthenticateReleases | shared/receiver_client/client.py:85-124 | authenticate leaves a free lock free on every return and exception, and hangs on a held one |
| ReceiverGuarantees.RefreshHangs | shared/receiver_client/client.py:139-168 | refresh_token hangs if and only if there is a token and the lock is held or its refresh is refused; the lock is held afterwards if and only if it was or the call hangs |
| ReceiverGuarantees.EnsureHangs | shared/receiver_client/client.py:224-229 | the check before an operation hangs if and only if it has to log in or refresh and the lock is held, or it has to refresh and is refused |
| ReceiverGuarantees.BlocksNowOrLater | shared/receiver_client/client.py:248-270 | an operation blocks at its present attempt, or goes on to the next with the client that leaves, and blocks from there |
| ReceiverGuarantees.RetryHangs | shared/receiver_client/client.py:231-275 | an operation with retries hangs, keeping the lock, if and only if it reaches an attempt whose refresh blocks |
| ReceiverGuarantees.OpHangs | shared/receiver_client/client.py:75-168 | per operation, the exact condition for hanging, from a free or a held lock; one that does not meet it leaves a free lock free, and none frees a held one |
| ReceiverGuarantees.LockIsHeldIff | shared/receiver_client/client.py:75-168 | over every sequence of operations the lock is held for ever if and only if some operation found it free and met its condition |
| ReceiverGuarantees.DeadlockIsFinal | shared/receiver_client/client.py:85-168 | after any further operations a lock held by a hanging call is still held, and every operation, submissions included, hangs if and only if it meets its condition |
| ReceiverTasks.LockHasOneHolder | shared/receiver_client/client.py:85-139 | among any number of tasks the lock is held by exactly the one task that is inside its block |
| ReceiverTasks.StepDeadlocks | shared/receiver_client/client.py:148-150 | a step makes a task wait for a lock it holds if and only if it brings the refusal of a refresh |
| ReceiverTasks.DeadlockIffRefused | shared/receiver_client/client.py:139-150 | over all interleavings a task waits for itself, for ever, if and only if some refresh of the run was refused |
| ReceiverTasks.ReleasableUnlessDeadlocked | shared/receiver_client/client.py:85-168 | from any reachable state the lock can still be released if and only if no task waits for itself |
| ReceiverTasks.StepKeepsEquipped | shared/receiver_client/client.py:170-222 | no step takes away a client object that a waiting task needs |
| ReceiverTasks.SomeClientIsActive | shared/receiver_client/client.py:291-297 | however many tasks share the client, no submission ends in "No active protocol client" |
| ReceiverTasks.FreeLockIsTaken | shared/receiver_client/client.py:85-139 | a task that waits for a free lock can take it and goes on to its request |
| ReceiverAlone.AuthenticateIsRun | shared/receiver_client/client.py:75-124 | an authentication that no other task disturbs is a run of the system of tasks with the client, the lock and the outcome of Authenticate, after every kind of reply |
| ReceiverAlone.RefreshIsRun | shared/receiver_client/client.py:126-168 | likewise a refresh, which ends waiting for itself exactly when RefreshToken hangs |
| ReceiverAlone.CloseIsRun | shared/receiver_client/client.py:346-354 | likewise a close |
| ReceiverAlone.SubmissionIsRun | shared/receiver_client/client.py:231-275 | a submission with all its retries, logins, refreshes and its fallback, undisturbed, is a run of the system of tasks that ends with the client, the number of submissions and the outcome of RetryFrom |
| ReceiverUsable.StepSettles | shared/receiver_client/client.py:170-222 | a step of a task that is not part of a close leaves the clients usable, or no worse than they were, or its task in a set-up |
| ReceiverUsable.RunKeepsSettled | shared/receiver_client/client.py:170-222 | in calm runs an authenticated client outside a set-up has a connected gRPC client or an unclosed REST client selected |
| ReceiverUsable.RunKeepsTorn | shared/receiver_client/client.py:175-220 | in calm runs the old clients are disconnected and closed while a task waits for the close, and the new gRPC client is unconnected while it waits for REST |
| ReceiverUsable.UsableUnlessReplacing | shared/receiver_client/client.py:170-222 | in calm runs an authenticated client is usable if and only if no task is closing the old REST client, or connecting a new one while gRPC is selected |
| ReceiverUsable.SubmissionCondition | shared/receiver_client/client.py:291-297 | in calm runs a submission fails for want of a usable client if and only if some task is in one of these two phases |
| ReceiverUsable.AloneRun | shared/receiver_client/client.py:75-222 | a task that has the client for itself and whose disconnects do not fail finds it usable whenever it is authenticated and not about to change that, also after closing it |
| ReceiverUsable.GrpcErrorIsReachable | shared/receiver_client/client.py:112-116 | for any two tasks, one can submit to the unconnected gRPC client while the other waits for its fallback to connect |
| ReceiverUsable.RestErrorIsReachable | shared/receiver_client/client.py:176-185 | for any two tasks, one can submit to the closed REST client while the other replaces the clients |
| ReceiverUsable.FailedDisconnectLeavesClosed | shared/receiver_client/client.py:176-179 | a single task whose disconnect fails during a refresh submits to the closed REST client afterwards |
| ReceiverUsable.UsableCondition | shared/receiver_client/client.py:75-297 | over all runs of a set of tasks every submission finds a usable client if and only if the set is empty, or has one task and no disconnect fails |
| ReceiverUsable.OvertakenFallback | shared/receiver_client/client.py:267-270 | a fallback overtaken by another task's set-up ends on a closed REST client when nobody is replacing it |
| ReceiverUsable.RestIsInitialized | shared/receiver_client/client.py:219-220 | among any tasks, when every REST client that is made gets its HTTP client, no submission ends in "REST client not initialized" |
| ReceiverGuarantees.RetryBound | shared/receiver_client/client.py:248-275 | at most max_retries executions, and exactly that many with the exact sum of sleeps when all fail |
| ReceiverGuarantees.TotalSleep | shared/receiver_client/client.py:256-265 | when all m attempts fail the total sleep is backoff * (2^(m-1) - 1) |
| ReceiverGuarantees.FallsBackOnce | shared/receiver_client/client.py:267-270 | one operation without re-authentication changes the protocol at most once, from gRPC to REST |
| ReceiverGuarantees.OneFallback | shared/receiver_client/client.py:212-270 | over any number of operations between two authentications there is at most one fallback and no way back |
| ReceiverSuccess.SucceedsAtFirstAccepted | shared/receiver_client/client.py:248-265 | on a usable client with a valid token, when the attempts before j are refused and attempt j is accepted, the operation returns after exactly j + 1 executions and backoff * (2^j - 1) of sleep |
| ReceiverSuccess.ReturnsIffAccepted | shared/receiver_client/client.py:248-275 | it returns if and only if some attempt is accepted, and otherwise fails after as many executions as there are attempts |
| ReceiverSuccess.GoodRunReturns | shared/receiver_client/client.py:231-275 | so it does after every good run that left the client authenticated, REST clients being made, with a token that outlasts the script |
| ReceiverSuccess.FallsBackIffRefused | shared/receiver_client/client.py:267-270 | an operation falls back if and only if its first attempt goes over gRPC, is refused and is not the only one, and then leaves REST selected with the current token |
| ReceiverSuccess.FirstSubmissionReturns | shared/receiver_client/client.py:224-252 | a client without a token logs in and submits, in one execution |
| ReceiverSuccess.FailedLoginEnds | shared/receiver_client/client.py:248-252 | a failed login ends an operation before anything is executed, without a retry |
| ReceiverSuccess.UnusableEnds | shared/receiver_client/client.py:254-275 | an unusable client ends it at its first execution with its own error, without a retry |
| ReceiverSuccess.LoginGrants | shared/receiver_client/client.py:98-124 | a granted login leaves the new token, a client of the protocol that is up, the old REST client closed, and no lock |
| ReceiverSuccess.LoginInterrupted | shared/receiver_client/client.py:170-180 | a login whose disconnect fails leaves the new token with both old clients down |
| ReceiverSuccess.RefreshGrants | shared/receiver_client/client.py:152-168 | a granted refresh keeps the refresh token and replaces access token, expiry and protocol client |
| ReceiverSuccess.RefreshFails | shared/receiver_client/client.py:126-168 | the outcome and the client after every other reply to a refresh |
| ReceiverSuccess.CloseCloses | shared/receiver_client/client.py:346-354 | after a close both clients are unusable and the client is not authenticated |
| ReceiverClient.ReceiverClient.TryGrpc | shared/receiver_client/client.py:187-210 | a gRPC client with the current token is kept even when it does not connect |
| ReceiverClient.ReceiverClient.FallbackToRest | shared/receiver_client/client.py:212-222 | a REST client with the current token becomes the selected one |
| ReceiverClient.ReceiverClient.InitializeClients | shared/receiver_client/client.py:170-185 | old clients are closed first, and a failing disconnect leaves the new ones unmade |
| ReceiverClient.ReceiverClient.Authenticate | shared/receiver_client/client.py:75-124 | takes the lock, does the login, releases the lock on every way out; hangs on a held lock |
| ReceiverClient.ReceiverClient.Login | shared/receiver_client/client.py:86-124 | token, flag and clients after each kind of reply |
| ReceiverClient.ReceiverClient.RefreshToken | shared/receiver_client/client.py:126-168 | takes the lock, does the refresh, releases the lock unless the nested call hangs |
| ReceiverClient.ReceiverClient.Refresh | shared/receiver_client/client.py:140-168 | token and clients after each kind of reply, with the nested login on a refusal and the half-updated token on a malformed expiry |
| ReceiverClient.ReceiverClient.EnsureAuthenticated | shared/receiver_client/client.py:224-229 | authenticate when there is no token, refresh within five minutes of expiry, otherwise nothing |
| ReceiverClient.ReceiverClient.RetryWithBackoff | shared/receiver_client/client.py:231-275 | the loop has the result, executions, sleeps and fallbacks that the theorems above bound |
| ReceiverClient.ReceiverClient.Close | shared/receiver_client/client.py:346-354 | both clients are closed and the client is no longer authenticated, unless a disconnect fails |
| Grouping.Group | apps/metrics-worker/app.py:144-149 | the grouping loop's dictionary has the keys in order of first arrival and under each key its values in order of arrival |
| Grouping.EnteredHolds | apps/log-worker/app.py:340-350 | one iteration keeps that, also when building the value raises after the key was entered |
| Grouping.KeysAreDistinct | apps/metrics-worker/app.py:144-149 | no key has two groups |
| Grouping.KeysInOrder | apps/metrics-worker/app.py:144-149 | keys are in order of first arrival |
| Grouping.OneItemMore | apps/metrics-worker/app.py:145-149 | over any listed keys, one more item adds its value once if its key is listed and nothing otherwise |
| Grouping.GroupingConserves | apps/metrics-worker/app.py:144-149 | the groups together hold every value exactly once |
| MetricsPush.ReadingBlocks | apps/metrics-worker/app.py:153-166 | the payload's samples are the groups one after the other, each under one HELP and one TYPE line |
| MetricsPush.PayloadRegroups | apps/metrics-worker/app.py:144-166 | each payload holds every buffered metric once, one HELP and one TYPE line per (name, type), groups and samples in order of arrival |
| MetricsPush.PrometheusDestination.BuildPayload | apps/metrics-worker/app.py:144-166 | the loops build that payload |
| MetricsPush.PrometheusDestination.PushMetrics | apps/metrics-worker/app.py:138-187 | the payload of the whole buffer is posted; the buffer is cleared only on a 200 |
| MetricsPush.PrometheusDestination.AddMetric | apps/metrics-worker/app.py:111-136 | a metric that parses is buffered, and pushed with the others when the buffer is full or the interval has elapsed |
| MetricsPush.MetricsAreConserved | apps/metrics-worker/app.py:111-187 | in every run the entries that parsed, with a missing timestamp or help text replaced, are the confirmed batches followed by the buffer, in order |
| MetricsPush.ConfirmedIffDue | apps/metrics-worker/app.py:127-187 | after any run a metric that parses leaves everything confirmed if and only if it fills the buffer to 100 or the interval has passed since the last confirmed push, and the gateway answers 200; a refused push keeps buffer and time |
| MetricsPush.UnparsedIsIgnored | apps/metrics-worker/app.py:113-136 | an entry that does not parse changes nothing |
| MetricsPush.BufferIsBounded | apps/metrics-worker/app.py:128-132 | after every call the buffer holds at most 99 + f metrics, f being the failed pushes since the last success |
| LogMetrics.GroupMetrics | apps/log-worker/app.py:331-356 | every message whose value is a number is in the list of its key exactly once; the others leave only their key |
| LogMetrics.KeyCollisions | apps/log-worker/app.py:336-338 | two different (source, type) pairs can share a joined key if and only if one type extends the other past an underscore |
| LogMetrics.PlainTypesAreSeparated | apps/log-worker/app.py:336-338 | types without underscores are told apart under all sources |
| ConnectionPool.GetKeepsConserved | apps/api/models/database.py:207-221 | taking a connection moves it from the pool to one context, or creates one |
| ConnectionPool.ReleaseKeepsConserved | apps/api/models/database.py:223-229 | releasing moves it back or closes it, once |
| ConnectionPool.RunConserves | apps/api/models/database.py:38-68 | after every sequence of calls, whatever fails, every connection ever created is in exactly one place: pooled once, in use by one context, closed, or dropped by a failure |
| ConnectionPool.NothingIsDropped | apps/api/models/database.py:231-241 | without a failing table definition or a failing close in close_all nothing is dropped |
| ConnectionPool.HoldingLasts | apps/api/models/database.py:258-277 | until its context releases it, a connection stays that context's own, whatever the others do |
| ConnectionPool.GetGives | apps/api/models/database.py:207-221 | after any run a request without a connection comes to hold one if and only if the pool was not empty or opening one works: the last of the pool, or a new one that was in no place before; nobody else holds it |
| ConnectionPool.GetIsIdempotent | apps/api/models/database.py:258-268 | a request that holds a connection gets the same again and nothing changes |
| ConnectionPool.ReleaseGives | apps/api/models/database.py:223-229 | after any run a released connection goes back if and only if the pool is below its size; otherwise it is closed, and stays with its context if closing raises |
| ConnectionPool.CloseAllGives | apps/api/models/database.py:231-241 | close_all closes exactly what is pooled and can be closed, drops the rest, and takes no connection from a context |
| ConnectionPool.InitializeGives | apps/api/models/database.py:38-68 | a start adds a new connection for each opening before the first that fails, and the pool is ready if and only if none of its size does |
| ConnectionPool.InitializeIsIdempotent | apps/api/models/database.py:40-42 | a start of a ready pool changes nothing |
| ConnectionPool.ReleaseUndoesGet | apps/api/models/database.py:207-229 | releasing a pooled connection right after taking it restores the whole state |
| ConnectionPool.ReleasedIsTakenNext | apps/api/models/database.py:207-229 | a released connection is the next one taken, by whichever context, and none is created |
| ConnectionPool.InitializeCondition | apps/api/models/database.py:38-68 | initialize keeps the pool within its size, whatever happens in it, if and only if it finds the pool empty or ready |
| ConnectionPool.PoolIsBounded | apps/api/models/database.py:223-229 | the pool never exceeds its size in runs whose starts find it empty or ready |
| ConnectionPool.StartedOnceIsBounded | apps/api/models/database.py:244-249 | one start before anything else is enough |
| ConnectionPool.FailedStartOverfills | apps/api/models/database.py:51-65 | a start that fails after k connections makes the next one leave size + k |
| ConnectionPool.LateReleaseOverfills | apps/api/models/database.py:231-241 | a release between close_all and the next start makes it leave size + 1 |
| ConnectionPool.OpenIsBounded | apps/api/models/database.py:207-221 | in runs that start the pool once, at their beginning, open connections never outnumber the larger of the pool size and the peak number in use |
| ConnectionPool.DatabaseManager.InitializePool | apps/api/models/database.py:38-68 | the filling loop with a failure in any round, and when it counts as ready |
| ConnectionPool.DatabaseManager.GetDb | apps/api/models/database.py:258-268 | the context's own connection if it has one, otherwise a pooled or a new one |
| ConnectionPool.DatabaseManager.ReleaseDb | apps/api/models/database.py:271-277 | the connection goes back to the pool or is closed and the context forgets it; a second release does nothing |
| ConnectionPool.DatabaseManager.CloseAllConnections | apps/api/models/database.py:231-241 | every pooled connection is closed or, if closing raises, dropped, and the pool is empty and not ready |
| ChannelRegistry.StepKeepsTracked | apps/api/blueprints/websocket.py:70-116 | no event puts a client in a channel that its handler does not know of |
| ChannelRegistry.StepKeepsAccounted | apps/api/blueprints/websocket.py:145-151 | sent, dead and still to do always add up to the membership at the broadcast's start |
| ChannelRegistry.RunKeepsInv | apps/api/blueprints/websocket.py:53-160 | under all interleavings the channels that hold a client are among its handler's subscribed channels |
| ChannelRegistry.GoneIsGone | apps/api/blueprints/websocket.py:112-116 | after its handler's cleanup a client is in no channel, whatever else happens, unless it connects again |
| ChannelRegistry.MembershipIsHistory | apps/api/blueprints/websocket.py:68-116 | a client is in a channel if and only if it subscribed to one of the five known channels while connected and nothing since then unsubscribed it, ended its handler or found it dead |
| ChannelRegistry.ConnectionIsHistory | apps/api/blueprints/websocket.py:36-116 | a handler is running if and only if its client connected and no cleanup with a free lock followed |
| ChannelRegistry.BroadcastIsIsolated | apps/api/blueprints/websocket.py:145-151 | nobody changes any channel while a broadcast iterates, and each member is still to do or has been sent to once |
| ChannelRegistry.BroadcastAccounts | apps/api/blueprints/websocket.py:142-160 | a finished broadcast has sent to every member of its start exactly once, sent + dead is that membership, and only the dead are removed |
| ChannelRegistry.BroadcastIsRun | apps/api/blueprints/websocket.py:145-155 | the method's loop in any order of the set is a run of the step system with the same result |
| ChannelRegistry.CancelledChangesNothing | apps/api/blueprints/websocket.py:142-155 | a broadcast that is given up frees the lock and leaves every channel as it was |
| ChannelRegistry.Registrar.Join | apps/api/blueprints/websocket.py:69-74 | a known channel gains the client, and the handler's set the channel |
| ChannelRegistry.Registrar.Leave | apps/api/blueprints/websocket.py:89-94 | a known channel loses the client, and the handler's set the channel |
| ChannelRegistry.Registrar.CleanUp | apps/api/blueprints/websocket.py:112-116 | the loop over the handler's own set removes the client from every channel there is |
| ChannelRegistry.Registrar.Broadcast | apps/api/blueprints/websocket.py:121-160 | the members that cannot be reached are removed and the number of those reached is returned |

## Left out

- Redis, Elasticsearch, HTTP and gRPC internals: abstract steps with the stated semantics that may fail or lose their reply. A Redis id is the entry's position in the stream; nothing trims the stream.
- SHA-256: a free constructor, which assumes that it does not collide on Redis ids.
- ECS field mapping and label and tag parsing: wide but one-branch; the timestamp's day is the only parsed field of a log message.
- LogWorker.RedisStreamsConsumer.ProcessMessageBatch: the metrics path ends at a gateway that is a placeholder in the source, so only its grouping is modelled.
- RateLimit.RateLimiter.Check: INCR and EXPIRE of one call are one step, which the bound needs: a counter that expired between the two would start again from one; Redis deletes a counter at its deadline; go-redis is not part of this model, and is taken to send the lifetime in whole seconds, with one second for anything shorter.
- XDP: a slot read or write is atomic; loading and compiling the program, interface detection, block rate and throughput floats are not part of this model.
- XDP configuration text: an entry that does not convert is one constructor; dotted notation is not parsed.
- GetAllFeatures and the HTTP middleware around the gate: a copy and a status code.
- ReceiverClient.ReceiverClient.RetryWithBackoff: operations one after the other; where tasks interleave, the environment decides which attempt is the last. Cancellation, which would release the lock, is not part of this model.
- ReceiverClient.ReceiverClient.TryGrpc: a gRPC submission may raise SubmissionError, as its documentation and its except clause say; shared/receiver_client/grpc_client.py:103-117 does not make the call yet and so never raises it.
- ReceiverUsable.SubmissionCondition: a REST submission is one step; it waits for its answer (shared/receiver_client/client.py:294-295), and what other tasks do to the client meanwhile counts as a refused submission. health_check is an operation for one task only (ReceiverGuarantees), not among several.
- ReceiverClient.ReceiverClient.Close: httpx is not part of this model; a client is taken to be closed also when closing its transport fails.
- ReceiverClient.ReceiverClient.EnsureAuthenticated: a refresh reply is one of five kinds; the strings of the protocol are opaque.
- MetricsPush.PrometheusDestination.BuildPayload: lines are structured values; labels and numbers are not rendered as text.
- MetricsPush.PrometheusDestination.AddMetric: the clock counts in whole units, and the clock's failures are not modelled.
- The metrics worker's stream consumption: its decoding disagrees with its client's settings, so only the destination is modelled.
- ConnectionPool.DatabaseManager.GetDb: each request has a context of its own; child tasks that inherit a context, and replacing the manager, are not part of this model.
- ChannelRegistry.Registrar.Broadcast: the message and its encoding; a handler that is cancelled a second time while it waits for the lock in its cleanup is not part of this model.
- shared/licensing/python_client.py: one timestamp is set for its whole cache, so the staleness bound does not carry over.
- Authentication, users, sensors, fleet and infrastructure blueprints, stubs, web UI and the operator: lookups and plumbing.
