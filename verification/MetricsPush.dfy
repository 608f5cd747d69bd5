// The Prometheus destination: a buffer that is pushed as a whole and kept when the push fails.
module MetricsPush {
  import opened Wrappers
  import opened Grouping

  const FULL: nat := 100

  datatype Entry = Entry(name: string, kind: string, value: real, labels: map<string, string>, timestamp: string,
    help: string)

  // What is buffered; empty timestamps and help texts have been replaced.
  datatype Metric = Metric(name: string, kind: string, value: real, labels: map<string, string>, timestamp: string,
    help: string)

  // The gateway answers 200, answers something else, or the request raises.
  datatype Reply = Accepted(at: int) | Refused | Raised

  function ToMetric(e: Entry, stamp: string): Metric {
    Metric(e.name, e.kind, e.value, e.labels,
           if e.timestamp != "" then e.timestamp else stamp,
           if e.help != "" then e.help else "Metric " + e.name)
  }

  // ---------------------------------------------------------------- the payload

  datatype Line = Help(name: string, text: string) | Type(name: string, kind: string) | Sample(metric: Metric)

  type Key = (string, string)

  function ItemsOf(buffer: seq<Metric>): (items: seq<Item<Key, Metric>>)
    ensures |items| == |buffer|
    ensures forall i :: 0 <= i < |buffer| ==> items[i] == Item((buffer[i].name, buffer[i].kind), Some(buffer[i]))
  {
    seq(|buffer|, i requires 0 <= i < |buffer| => Item((buffer[i].name, buffer[i].kind), Some(buffer[i])))
  }

  function Samples(metrics: seq<Metric>): (lines: seq<Line>)
    ensures |lines| == |metrics| && forall i :: 0 <= i < |metrics| ==> lines[i] == Sample(metrics[i])
  {
    seq(|metrics|, i requires 0 <= i < |metrics| => Sample(metrics[i]))
  }

  function Block(key: Key, metrics: seq<Metric>): seq<Line> {
    if metrics == [] then []
    else [Help(key.0, metrics[0].help), Type(key.0, key.1)] + Samples(metrics)
  }

  // The blocks of some keys, one after the other.
  function Blocks(items: seq<Item<Key, Metric>>, keys: seq<Key>): seq<Line> {
    if keys == [] then []
    else Blocks(items, keys[..|keys| - 1]) + Block(keys[|keys| - 1], ValuesOf(items, keys[|keys| - 1]))
  }

  function Payload(buffer: seq<Metric>): seq<Line> {
    Blocks(ItemsOf(buffer), Keys(ItemsOf(buffer)))
  }

  // What a reader of the payload finds: the samples, and the group headings.
  function SamplesIn(lines: seq<Line>): seq<Metric> {
    if lines == [] then []
    else
      var last := lines[|lines| - 1];
      SamplesIn(lines[..|lines| - 1]) + if last.Sample? then [last.metric] else []
  }

  function TypesIn(lines: seq<Line>): seq<Key> {
    if lines == [] then []
    else
      var last := lines[|lines| - 1];
      TypesIn(lines[..|lines| - 1]) + if last.Type? then [(last.name, last.kind)] else []
  }

  function HelpsIn(lines: seq<Line>): seq<string> {
    if lines == [] then []
    else
      var last := lines[|lines| - 1];
      HelpsIn(lines[..|lines| - 1]) + if last.Help? then [last.name] else []
  }

  lemma {:induction false} ReadingConcat(a: seq<Line>, b: seq<Line>)
    ensures SamplesIn(a + b) == SamplesIn(a) + SamplesIn(b)
    ensures TypesIn(a + b) == TypesIn(a) + TypesIn(b)
    ensures HelpsIn(a + b) == HelpsIn(a) + HelpsIn(b)
  {
    if b == [] {
      assert a + b == a;
    } else {
      assert (a + b)[..|a + b| - 1] == a + b[..|b| - 1];
      ReadingConcat(a, b[..|b| - 1]);
    }
  }

  lemma {:induction false} ReadingSamples(metrics: seq<Metric>)
    ensures SamplesIn(Samples(metrics)) == metrics
    ensures TypesIn(Samples(metrics)) == [] && HelpsIn(Samples(metrics)) == []
  {
    if metrics != [] {
      ReadingSamples(metrics[..|metrics| - 1]);
      assert Samples(metrics)[..|metrics| - 1] == Samples(metrics[..|metrics| - 1]);
    }
  }

  lemma ReadingHead(h: string, text: string, n: string, k: string)
    ensures SamplesIn([Help(h, text), Type(n, k)]) == []
    ensures TypesIn([Help(h, text), Type(n, k)]) == [(n, k)]
    ensures HelpsIn([Help(h, text), Type(n, k)]) == [h]
  {
    var heading: seq<Line>, both: seq<Line> := [Help(h, text)], [Help(h, text), Type(n, k)];
    assert heading[..0] == [] && both[..1] == heading && both[1] == Type(n, k);
    assert HelpsIn(heading) == HelpsIn(heading[..0]) + [h];
    assert TypesIn(both) == TypesIn(heading) + [(n, k)];
    assert SamplesIn(heading) == [] && TypesIn(heading) == [] && HelpsIn(heading) == [h];
  }

  lemma ReadingBlock(key: Key, metrics: seq<Metric>)
    requires metrics != []
    ensures SamplesIn(Block(key, metrics)) == metrics
    ensures TypesIn(Block(key, metrics)) == [key] && HelpsIn(Block(key, metrics)) == [key.0]
  {
    hide SamplesIn, TypesIn, HelpsIn;
    ReadingConcat([Help(key.0, metrics[0].help), Type(key.0, key.1)], Samples(metrics));
    ReadingHead(key.0, metrics[0].help, key.0, key.1);
    ReadingSamples(metrics);
  }

  function Names(keys: seq<Key>): (names: seq<string>)
    ensures |names| == |keys| && forall i :: 0 <= i < |keys| ==> names[i] == keys[i].0
  {
    seq(|keys|, i requires 0 <= i < |keys| => keys[i].0)
  }

  lemma {:induction false} ReadingBlocks(items: seq<Item<Key, Metric>>, keys: seq<Key>)
    requires forall k :: k in keys ==> ValuesOf(items, k) != []
    ensures SamplesIn(Blocks(items, keys)) == Regrouped(items, keys)
    ensures TypesIn(Blocks(items, keys)) == keys && HelpsIn(Blocks(items, keys)) == Names(keys)
  {
    if keys != [] {
      var init, k := keys[..|keys| - 1], keys[|keys| - 1];
      assert k in keys && keys == init + [k] && Names(keys) == Names(init) + [k.0];
      ReadingBlocks(items, init);
      ReadingBlock(k, ValuesOf(items, k));
      ReadingConcat(Blocks(items, init), Block(k, ValuesOf(items, k)));
      hide SamplesIn, TypesIn, HelpsIn, Block, ValuesOf;
    }
  }

  lemma {:induction false} PresentKeyHasValues(items: seq<Item<Key, Metric>>, k: Key)
    requires (forall item :: item in items ==> item.value.Some?) && k in Keys(items)
    ensures ValuesOf(items, k) != []
  {
    var last := items[|items| - 1];
    assert last in items;
    if last.key != k {
      PresentKeyHasValues(items[..|items| - 1], k);
    }
  }

  lemma {:induction false} AllValuesOfBuffer(buffer: seq<Metric>)
    ensures AllValues(ItemsOf(buffer)) == buffer
  {
    if buffer != [] {
      AllValuesOfBuffer(buffer[..|buffer| - 1]);
      assert ItemsOf(buffer)[..|buffer| - 1] == ItemsOf(buffer[..|buffer| - 1]);
    }
  }

  // The payload is a stable regrouping of the buffer: every metric once, one HELP and one TYPE line per (name, type)
  // in order of first arrival, and under each of them its metrics in order of arrival.
  lemma PayloadRegroups(buffer: seq<Metric>)
    ensures var items := ItemsOf(buffer); var keys := Keys(items);
      && multiset(SamplesIn(Payload(buffer))) == multiset(buffer)
      && SamplesIn(Payload(buffer)) == Regrouped(items, keys)
      && TypesIn(Payload(buffer)) == keys && HelpsIn(Payload(buffer)) == Names(keys) && Distinct(keys)
  {
    var items := ItemsOf(buffer);
    forall k | k in Keys(items) ensures ValuesOf(items, k) != [] {
      PresentKeyHasValues(items, k);
    }
    hide Keys, ValuesOf, SamplesIn, TypesIn, HelpsIn, Blocks;
    ReadingBlocks(items, Keys(items));
    GroupingConserves(items);
    KeysAreDistinct(items);
    AllValuesOfBuffer(buffer);
  }

  // ---------------------------------------------------------------- the buffer

  // confirmed and failures are the history: the batches the gateway accepted, and the failed pushes since the last.
  datatype Buffer = Buffer(metrics: seq<Metric>, lastPush: int, confirmed: seq<seq<Metric>>, failures: nat)

  const EMPTY := Buffer([], 0, [], 0)

  function Pushed(b: Buffer, reply: Reply): Buffer {
    if b.metrics == [] then b
    else
      match reply
      case Accepted(at) => Buffer([], at, b.confirmed + [b.metrics], 0)
      case _ => b.(failures := b.failures + 1)
  }

  predicate Due(b: Buffer, now: int, interval: int) {
    |b.metrics| >= FULL || now - b.lastPush >= interval
  }

  // One call of add_metric. The entry is None when it does not parse.
  datatype Add = Add(entry: Option<Entry>, stamp: string, now: int, reply: Reply)

  function AfterAdd(b: Buffer, a: Add, interval: int): Buffer {
    if a.entry.None? then b
    else
      var appended := b.(metrics := b.metrics + [ToMetric(a.entry.value, a.stamp)]);
      if Due(appended, a.now, interval) then Pushed(appended, a.reply) else appended
  }

  class PrometheusDestination {
    const interval: int
    var metricsBuffer: seq<Metric>
    var lastPush: int
    ghost var confirmed: seq<seq<Metric>>
    ghost var failures: nat

    constructor (interval: int)
      ensures View() == EMPTY && this.interval == interval
    {
      this.interval := interval;
      metricsBuffer, lastPush, confirmed, failures := [], 0, [], 0;
    }

    ghost function View(): Buffer
      reads this
    {
      Buffer(metricsBuffer, lastPush, confirmed, failures)
    }

    // The loops of _push_metrics: group the buffer, then write a block for each group.
    method BuildPayload() returns (lines: seq<Line>)
      ensures lines == Payload(metricsBuffer)
    {
      hide Keys, ValuesOf, Block;
      var items := ItemsOf(metricsBuffer);
      var groups := Group(items);
      lines := [];
      for i := 0 to |groups.order|
        invariant lines == Blocks(items, groups.order[..i])
      {
        assert groups.order[..i + 1] == groups.order[..i] + [groups.order[i]];
        var key := groups.order[i];
        var block := WriteBlock(key, groups.lists[key]);
        lines := lines + block;
      }
      assert groups.order[..|groups.order|] == groups.order;
    }

    method WriteBlock(key: Key, metrics: seq<Metric>) returns (lines: seq<Line>)
      ensures lines == Block(key, metrics)
    {
      if metrics == [] {
        return [];
      }
      lines := [Help(key.0, metrics[0].help), Type(key.0, key.1)];
      for i := 0 to |metrics|
        invariant lines == [Help(key.0, metrics[0].help), Type(key.0, key.1)] + Samples(metrics[..i])
      {
        assert Samples(metrics[..i + 1]) == Samples(metrics[..i]) + [Sample(metrics[i])];
        lines := lines + [Sample(metrics[i])];
      }
      assert metrics[..|metrics|] == metrics;
    }

    // _push_metrics; posted is the payload that was sent, if any.
    method PushMetrics(reply: Reply) returns (posted: Option<seq<Line>>)
      modifies this
      ensures View() == Pushed(old(View()), reply)
      ensures posted == if old(metricsBuffer) == [] then None else Some(Payload(old(metricsBuffer)))
    {
      if metricsBuffer == [] {
        return None;
      }
      var lines := BuildPayload();
      match reply {
        case Accepted(at) =>
          confirmed := confirmed + [metricsBuffer];
          metricsBuffer := [];
          lastPush, failures := at, 0;
        case _ =>
          failures := failures + 1;
      }
      return Some(lines);
    }

    // add_metric
    method AddMetric(a: Add) returns (ok: bool)
      modifies this
      ensures View() == AfterAdd(old(View()), a, interval)
      ensures ok <==> a.entry.Some?
    {
      if a.entry.None? {
        return false;
      }
      metricsBuffer := metricsBuffer + [ToMetric(a.entry.value, a.stamp)];
      if |metricsBuffer| >= FULL || a.now - lastPush >= interval {
        var _ := PushMetrics(a.reply);
      }
      return true;
    }
  }

  // ---------------------------------------------------------------- runs

  function After(adds: seq<Add>, interval: int): Buffer {
    if adds == [] then EMPTY else AfterAdd(After(adds[..|adds| - 1], interval), adds[|adds| - 1], interval)
  }

  // The metrics of the entries that parse, in order, with an empty timestamp and help text replaced.
  function AcceptedMetrics(adds: seq<Add>): seq<Metric> {
    if adds == [] then []
    else
      var last := adds[|adds| - 1];
      AcceptedMetrics(adds[..|adds| - 1])
      + match last.entry
        case None => []
        case Some(Entry(name, kind, value, labels, at, help)) =>
          [Metric(name, kind, value, labels, if at == "" then last.stamp else at,
                  if help == "" then "Metric " + name else help)]
  }

  function Concat(batches: seq<seq<Metric>>): seq<Metric> {
    if batches == [] then [] else Concat(batches[..|batches| - 1]) + batches[|batches| - 1]
  }

  lemma ConcatSnoc(batches: seq<seq<Metric>>, batch: seq<Metric>)
    ensures Concat(batches + [batch]) == Concat(batches) + batch
  {
    assert (batches + [batch])[..|batches|] == batches;
  }

  lemma AfterThen(adds: seq<Add>, a: Add, interval: int)
    ensures After(adds + [a], interval) == AfterAdd(After(adds, interval), a, interval)
    ensures AcceptedMetrics(adds + [a]) == AcceptedMetrics(adds) + AcceptedMetrics([a])
  {
    assert (adds + [a])[..|adds|] == adds && [a][..0] == [];
  }

  // Nothing is lost, duplicated or reordered: the accepted metrics are the confirmed batches followed by the buffer.
  lemma {:induction false} MetricsAreConserved(adds: seq<Add>, interval: int)
    ensures var b := After(adds, interval); AcceptedMetrics(adds) == Concat(b.confirmed) + b.metrics
  {
    if adds != [] {
      var init, last := adds[..|adds| - 1], adds[|adds| - 1];
      assert adds == init + [last];
      MetricsAreConserved(init, interval);
      AfterThen(init, last, interval);
      AddConserves(After(init, interval), last, interval);
      hide AfterAdd, AcceptedMetrics, Concat;
    }
  }

  lemma AddConserves(b: Buffer, a: Add, interval: int)
    ensures var c := AfterAdd(b, a, interval);
      Concat(c.confirmed) + c.metrics == Concat(b.confirmed) + b.metrics + AcceptedMetrics([a])
  {
    AcceptedOne(a);
    hide AcceptedMetrics, Concat, ToMetric;
    if a.entry.Some? {
      ConcatSnoc(b.confirmed, b.metrics + [ToMetric(a.entry.value, a.stamp)]);
    }
  }

  lemma AcceptedOne(a: Add)
    ensures AcceptedMetrics([a]) == if a.entry.Some? then [ToMetric(a.entry.value, a.stamp)] else []
  {
    assert [a][..0] == [];
  }

  // An entry that parses leaves everything confirmed exactly when it fills the buffer to 100 or the interval has passed
  // since the last confirmed push, and the gateway answers 200; otherwise nothing more is confirmed.
  lemma ConfirmedIffDue(adds: seq<Add>, a: Add, interval: int)
    requires a.entry.Some?
    ensures var b, c := After(adds, interval), After(adds + [a], interval);
      var due := |b.metrics| + 1 >= 100 || a.now - b.lastPush >= interval;
      && (AcceptedMetrics(adds + [a]) == Concat(c.confirmed) <==> due && a.reply.Accepted?)
      && (due && a.reply.Accepted? ==>
            c.metrics == [] && c.lastPush == a.reply.at && |c.confirmed| == |b.confirmed| + 1)
      && (!due || !a.reply.Accepted? ==> c.confirmed == b.confirmed && c.lastPush == b.lastPush)
      && c.failures == if !due then b.failures else if a.reply.Accepted? then 0 else b.failures + 1
  {
    AfterThen(adds, a, interval);
    MetricsAreConserved(adds + [a], interval);
    hide AcceptedMetrics, After, Concat, ToMetric;
  }

  // An entry that does not parse changes nothing.
  lemma UnparsedIsIgnored(adds: seq<Add>, a: Add, interval: int)
    requires a.entry.None?
    ensures After(adds + [a], interval) == After(adds, interval)
  {
    AfterThen(adds, a, interval);
  }

  // The buffer outgrows 99 metrics only by the number of failed pushes since the last confirmed one.
  lemma {:induction false} BufferIsBounded(adds: seq<Add>, interval: int)
    ensures |After(adds, interval).metrics| <= 99 + After(adds, interval).failures
  {
    if adds != [] {
      BufferIsBounded(adds[..|adds| - 1], interval);
    }
  }
}

// The grouping of the log worker's metric messages, and what its joined key tells apart.
module LogMetrics {
  import opened Wrappers
  import opened Grouping

  // A metric message; value is None when its text is not a number.
  datatype Message = Message(source: string, kind: string, value: Option<real>)

  function JoinedKey(source: string, kind: string): string {
    source + "_" + kind
  }

  function ItemsOf(messages: seq<Message>): (items: seq<Item<string, Message>>)
    ensures |items| == |messages|
    ensures forall i :: 0 <= i < |messages| ==> items[i] == Item(JoinedKey(messages[i].source, messages[i].kind),
      if messages[i].value.Some? then Some(messages[i]) else None)
  {
    seq(|messages|, i requires 0 <= i < |messages| =>
      Item(JoinedKey(messages[i].source, messages[i].kind),
           if messages[i].value.Some? then Some(messages[i]) else None))
  }

  // _group_metrics: every message whose value is a number is in the list of its key exactly once.
  method GroupMetrics(messages: seq<Message>) returns (g: Groups<string, Message>)
    ensures Holds(g, ItemsOf(messages))
    ensures multiset(Regrouped(ItemsOf(messages), g.order)) == multiset(AllValues(ItemsOf(messages)))
  {
    g := Group(ItemsOf(messages));
    GroupingConserves(ItemsOf(messages));
  }

  // One type ends in an underscore followed by the other.
  ghost predicate Extends(longer: string, shorter: string) {
    exists prefix: string :: longer == prefix + "_" + shorter
  }

  // Two types can be confused under some sources exactly when one extends the other past an underscore.
  lemma KeyCollisions(kind1: string, kind2: string)
    ensures (exists source1: string, source2: string :: Collide(source1, kind1, source2, kind2))
      <==> Extends(kind1, kind2) || Extends(kind2, kind1)
  {
    forall source1: string, source2: string | Collide(source1, kind1, source2, kind2)
      ensures Extends(kind1, kind2) || Extends(kind2, kind1)
    {
      if |kind1| < |kind2| {
        CollisionExtends(source1, kind1, source2, kind2);
      } else {
        CollisionExtends(source2, kind2, source1, kind1);
      }
    }
    if Extends(kind1, kind2) {
      ExtensionCollides(kind1, kind2);
    }
    if Extends(kind2, kind1) {
      ExtensionCollides(kind2, kind1);
      var s, t :| Collide(s, kind2, t, kind1);
      assert Collide(t, kind1, s, kind2);
    }
  }

  ghost predicate Collide(source1: string, kind1: string, source2: string, kind2: string) {
    JoinedKey(source1, kind1) == JoinedKey(source2, kind2) && (source1 != source2 || kind1 != kind2)
  }

  lemma SameLengthSplits(source1: string, kind1: string, source2: string, kind2: string)
    requires JoinedKey(source1, kind1) == JoinedKey(source2, kind2) && |kind1| == |kind2|
    ensures source1 == source2 && kind1 == kind2
  {
    var key := JoinedKey(source1, kind1);
    assert key[|source1| + 1..] == kind1 && key[|source2| + 1..] == kind2;
    assert key[..|source1|] == source1 && key[..|source2|] == source2;
  }

  lemma ShorterIsExtended(source1: string, kind1: string, source2: string, kind2: string)
    requires JoinedKey(source1, kind1) == JoinedKey(source2, kind2) && |kind1| < |kind2|
    ensures Extends(kind2, kind1)
  {
    var key := JoinedKey(source1, kind1);
    var n := |source1| - |source2| - 1;
    assert |key| == |source1| + 1 + |kind1| == |source2| + 1 + |kind2|;
    assert key[|source1| + 1..] == kind1 && key[|source2| + 1..] == kind2 && key[|source1|] == '_';
    assert kind2 == kind2[..n] + "_" + kind1 by {
      assert kind2[n] == key[|source2| + 1 + n];
      assert kind2[n + 1..] == key[|source1| + 1..];
    }
  }

  lemma CollisionExtends(source1: string, kind1: string, source2: string, kind2: string)
    requires |kind1| <= |kind2| && Collide(source1, kind1, source2, kind2)
    ensures Extends(kind2, kind1)
  {
    if |kind1| == |kind2| {
      SameLengthSplits(source1, kind1, source2, kind2);
    } else {
      ShorterIsExtended(source1, kind1, source2, kind2);
    }
  }

  lemma ExtensionCollides(longer: string, shorter: string)
    requires Extends(longer, shorter)
    ensures exists source1: string, source2: string :: Collide(source1, longer, source2, shorter)
  {
    var prefix: string :| longer == prefix + "_" + shorter;
    var source := "s_" + prefix;
    assert JoinedKey("s", longer) == JoinedKey(source, shorter) by {
      assert "s" + "_" + (prefix + "_" + shorter) == "s_" + prefix + "_" + shorter;
    }
    assert |source| > 1;
    assert Collide("s", longer, source, shorter);
  }

  lemma ExtensionHasUnderscore(longer: string, shorter: string)
    requires Extends(longer, shorter)
    ensures '_' in longer
  {
    var prefix: string :| longer == prefix + "_" + shorter;
    assert longer[|prefix|] == '_';
  }

  // Types without underscores are always told apart.
  lemma PlainTypesAreSeparated(source1: string, kind1: string, source2: string, kind2: string)
    requires '_' !in kind1 && '_' !in kind2 && JoinedKey(source1, kind1) == JoinedKey(source2, kind2)
    ensures source1 == source2 && kind1 == kind2
  {
    if |kind1| < |kind2| {
      ShorterIsExtended(source1, kind1, source2, kind2);
      ExtensionHasUnderscore(kind2, kind1);
    } else if |kind2| < |kind1| {
      ShorterIsExtended(source2, kind2, source1, kind1);
      ExtensionHasUnderscore(kind1, kind2);
    } else {
      SameLengthSplits(source1, kind1, source2, kind2);
    }
  }
}
