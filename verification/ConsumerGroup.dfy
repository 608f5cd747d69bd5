// The server side of the log worker: one Redis stream, one consumer group on it.
//
// A stream entry is named by its position: Redis hands out strictly increasing ids and the
// worker never trims the stream, so this is only a renaming.
module ConsumerGroup {
  import opened Wrappers

  // What the worker reads from an entry. `day` is the date of the entry's timestamp when that
  // timestamp parses as ISO 8601, and None when it does not.
  datatype Fields = Fields(message: string, metricName: string, day: Option<nat>)

  // One row of the group's pending list: who got the entry last, and when (milliseconds).
  datatype Delivery = Delivery(consumer: string, at: nat)

  datatype Group = Group(stream: seq<Fields>, cursor: nat, pending: map<nat, Delivery>, acked: set<nat>)

  // A group created at id 0: nothing delivered, everything still to be read.
  const EMPTY_GROUP := Group([], 0, map[], {})

  function Ids(batch: seq<nat>): (r: set<nat>)
    ensures forall id :: id in batch <==> id in r
  {
    set id | id in batch
  }

  // XREADGROUP with id ">": the next entries after the cursor, at most count of them.
  function NextIds(g: Group, count: nat): (ids: seq<nat>)
    ensures |ids| == if g.cursor < |g.stream| then Min(count, |g.stream| - g.cursor) else 0
    ensures forall id :: id in ids <==> g.cursor <= id < g.cursor + |ids|
    ensures forall i :: 0 <= i < |ids| ==> ids[i] == g.cursor + i
  {
    var n := if g.cursor < |g.stream| then Min(count, |g.stream| - g.cursor) else 0;
    var ids := seq(n, i requires 0 <= i < n => g.cursor + i);
    assert forall id | g.cursor <= id < g.cursor + n :: id in ids by {
      forall id | g.cursor <= id < g.cursor + n ensures id in ids {
        assert ids[id - g.cursor] == id;
      }
    }
    ids
  }

  function ReadGroup(g: Group, consumer: string, count: nat, now: nat): Group {
    var ids := NextIds(g, count);
    g.(cursor := g.cursor + |ids|, pending := g.pending + map id | id in Ids(ids) :: Delivery(consumer, now))
  }

  // XACK: the ids that are pending leave the pending list; the others are ignored.
  function Ack(g: Group, ids: set<nat>): Group {
    g.(pending := g.pending - ids, acked := g.acked + g.pending.Keys * ids)
  }

  // The pending ids below n in stream order, the order XPENDING lists them in.
  function PendingBelow(pending: map<nat, Delivery>, n: nat): (ids: seq<nat>)
    ensures forall id :: id in ids <==> id in pending && id < n
    ensures forall i, j :: 0 <= i < j < |ids| ==> ids[i] < ids[j]
  {
    if n == 0 then []
    else
      var ids := PendingBelow(pending, n - 1);
      assert forall i :: 0 <= i < |ids| ==> ids[i] in ids;
      if n - 1 in pending then ids + [n - 1] else ids
  }

  // XPENDING - + count: the oldest pending ids, and all of them if there are fewer than count.
  function PendingRange(g: Group, count: nat): (ids: seq<nat>)
    ensures |ids| <= count
    ensures forall id :: id in ids ==> id in g.pending && id < g.cursor
    ensures forall i, j :: 0 <= i < j < |ids| ==> ids[i] < ids[j]
    ensures forall i, j :: i in ids && j in g.pending && j < g.cursor && j !in ids ==> i < j
    ensures |ids| < count ==> forall id :: id in g.pending && id < g.cursor ==> id in ids
  {
    var all := PendingBelow(g.pending, g.cursor);
    var n := Min(count, |all|);
    PrefixPrecedes(all, n);
    all[..n]
  }

  // The first n of an ascending list precede the others.
  lemma PrefixPrecedes(ids: seq<nat>, n: nat)
    requires n <= |ids| && forall i, j :: 0 <= i < j < |ids| ==> ids[i] < ids[j]
    ensures forall id :: id in ids[..n] ==> id in ids
    ensures forall i, j :: i in ids[..n] && j in ids && j !in ids[..n] ==> i < j
    ensures n == |ids| ==> ids[..n] == ids
  {
    assert forall a :: 0 <= a < n ==> ids[a] in ids[..n];
    forall i, j | i in ids[..n] && j in ids && j !in ids[..n] ensures i < j {
      var a :| 0 <= a < n && ids[a] == i;
      var b :| 0 <= b < |ids| && ids[b] == j;
    }
  }

  predicate Claimable(g: Group, id: nat, minIdle: nat, now: nat) {
    id in g.pending && now >= g.pending[id].at + minIdle
  }

  // The ids of a request that XCLAIM gives to the caller.
  function Winners(g: Group, ids: seq<nat>, minIdle: nat, now: nat): (won: seq<nat>)
    ensures forall id :: id in won <==> id in ids && Claimable(g, id, minIdle, now)
    ensures |won| <= |ids|
  {
    if ids == [] then []
    else
      var init, last := ids[..|ids| - 1], ids[|ids| - 1];
      assert ids == init + [last];
      Winners(g, init, minIdle, now) + if Claimable(g, last, minIdle, now) then [last] else []
  }

  function Claim(g: Group, consumer: string, ids: seq<nat>, minIdle: nat, now: nat): Group {
    g.(pending := g.pending + map id | id in Ids(Winners(g, ids, minIdle, now)) :: Delivery(consumer, now))
  }

  // Every entry is not yet delivered, pending or acknowledged, and only one of the three.
  ghost predicate Consistent(g: Group) {
    && g.cursor <= |g.stream|
    && g.pending.Keys !! g.acked
    && (forall id: nat :: id < g.cursor <==> id in g.pending.Keys || id in g.acked)
  }
}
