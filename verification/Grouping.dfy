// Grouping by a key into an insertion-ordered dictionary of lists, as both workers do it.
module Grouping {
  import opened Wrappers

  // An item with its key. Its value is None when building it raises, after the key was entered.
  datatype Item<K, V> = Item(key: K, value: Option<V>)

  // A dictionary with the order in which its keys were entered.
  datatype Groups<!K(==), V> = Groups(order: seq<K>, lists: map<K, seq<V>>)

  // The keys in order of first occurrence.
  function Keys<K(==), V>(items: seq<Item<K, V>>): (keys: seq<K>)
    ensures forall i :: 0 <= i < |items| ==> items[i].key in keys
    ensures forall k :: k in keys ==> exists i :: 0 <= i < |items| && items[i].key == k
  {
    if items == [] then []
    else
      var init, last := items[..|items| - 1], items[|items| - 1];
      var keys := Keys(init);
      assert forall i :: 0 <= i < |init| ==> items[i] == init[i];
      if last.key in keys then keys else keys + [last.key]
  }

  // The values under a key, in order of arrival.
  function ValuesOf<K(==), V>(items: seq<Item<K, V>>, key: K): seq<V> {
    if items == [] then []
    else
      var last := items[|items| - 1];
      ValuesOf(items[..|items| - 1], key) + if last.key == key && last.value.Some? then [last.value.value] else []
  }

  function AllValues<K, V>(items: seq<Item<K, V>>): seq<V> {
    if items == [] then []
    else
      var last := items[|items| - 1];
      AllValues(items[..|items| - 1]) + if last.value.Some? then [last.value.value] else []
  }

  // The lists of some keys, one after the other.
  function Regrouped<K(==), V>(items: seq<Item<K, V>>, keys: seq<K>): seq<V> {
    if keys == [] then [] else Regrouped(items, keys[..|keys| - 1]) + ValuesOf(items, keys[|keys| - 1])
  }

  // The dictionary after a sequence of items.
  ghost predicate Holds<K(!new), V>(g: Groups<K, V>, items: seq<Item<K, V>>) {
    && g.order == Keys(items)
    && (forall k :: k in g.lists <==> k in g.order)
    && (forall k :: k in g.lists ==> g.lists[k] == ValuesOf(items, k))
  }

  // What the loop does with one item: enter the key if it is new, then append the value if there is one.
  function Entered<K, V>(g: Groups<K, V>, item: Item<K, V>): Groups<K, V>
  {
    var h := if item.key in g.lists then g else Groups(g.order + [item.key], g.lists[item.key := []]);
    if item.value.Some? then h.(lists := h.lists[item.key := h.lists[item.key] + [item.value.value]]) else h
  }

  lemma EnteredHolds<K(!new), V>(g: Groups<K, V>, items: seq<Item<K, V>>, item: Item<K, V>)
    requires Holds(g, items)
    ensures Holds(Entered(g, item), items + [item])
  {
    var all := items + [item];
    assert all[..|items|] == items;
    if item.key !in g.lists {
      NoValues(items, item.key);
    }
    forall k | k in Entered(g, item).lists ensures Entered(g, item).lists[k] == ValuesOf(all, k) {
      assert ValuesOf(all, k) == ValuesOf(items, k) + Added(item, k);
      if item.key == k && k !in g.lists {
        assert ValuesOf(items, k) == [];
      }
    }
  }

  // The grouping loop.
  method Group<K(==, !new), V>(items: seq<Item<K, V>>) returns (g: Groups<K, V>)
    ensures Holds(g, items)
  {
    g := Groups([], map[]);
    for i := 0 to |items|
      invariant Holds(g, items[..i])
    {
      assert items[..i + 1] == items[..i] + [items[i]];
      EnteredHolds(g, items[..i], items[i]);
      hide Holds;
      var item := items[i];
      if item.key !in g.lists {
        g := Groups(g.order + [item.key], g.lists[item.key := []]);
      }
      if item.value.Some? {
        g := g.(lists := g.lists[item.key := g.lists[item.key] + [item.value.value]]);
      }
    }
    assert items[..|items|] == items;
  }

  lemma {:induction false} NoValues<K, V>(items: seq<Item<K, V>>, key: K)
    requires key !in Keys(items)
    ensures ValuesOf(items, key) == []
  {
    if items != [] {
      NoValues(items[..|items| - 1], key);
    }
  }

  lemma {:induction false} KeysAreDistinct<K, V>(items: seq<Item<K, V>>)
    ensures Distinct(Keys(items))
  {
    if items != [] {
      KeysAreDistinct(items[..|items| - 1]);
    }
  }

  function Added<K(==), V>(item: Item<K, V>, key: K): seq<V> {
    if item.key == key && item.value.Some? then [item.value.value] else []
  }

  lemma Spread<V>(a: seq<V>, b: seq<V>, v: seq<V>, added: seq<V>, rest: multiset<V>)
    requires multiset(a) == multiset(b) + rest
    ensures multiset(a + (v + added)) == multiset(b + v) + rest + multiset(added)
  {
    assert multiset(a + (v + added)) == multiset(a) + multiset(v) + multiset(added);
    assert multiset(b + v) == multiset(b) + multiset(v);
  }

  function Contribution<K(==), V>(item: Item<K, V>, keys: seq<K>): multiset<V> {
    if item.key in keys && item.value.Some? then multiset{item.value.value} else multiset{}
  }

  lemma ContributionSplits<K, V>(item: Item<K, V>, keys: seq<K>, k: K)
    requires k !in keys
    ensures Contribution(item, keys + [k]) == Contribution(item, keys) + multiset(Added(item, k))
  {
  }

  // One item more adds its value to the list of its key and to no other.
  lemma {:induction false} OneItemMore<K, V>(items: seq<Item<K, V>>, keys: seq<K>)
    requires items != [] && Distinct(keys)
    ensures multiset(Regrouped(items, keys))
      == multiset(Regrouped(items[..|items| - 1], keys)) + Contribution(items[|items| - 1], keys)
  {
    if keys != [] {
      var init, k, last := keys[..|keys| - 1], keys[|keys| - 1], items[|items| - 1];
      var before := items[..|items| - 1];
      assert keys == init + [k] && k !in init;
      OneItemMore(items, init);
      ContributionSplits(last, init, k);
      assert ValuesOf(items, k) == ValuesOf(before, k) + Added(last, k);
      hide ValuesOf, Added, Contribution;
      Spread(Regrouped(items, init), Regrouped(before, init), ValuesOf(before, k), Added(last, k),
        Contribution(last, init));
    }
  }

  // An item with a new key opens a list of its own.
  lemma NewKeyOpensList<K, V>(items: seq<Item<K, V>>)
    requires items != [] && items[|items| - 1].key !in Keys(items[..|items| - 1])
    ensures var init, last := items[..|items| - 1], items[|items| - 1];
      Regrouped(items, Keys(items)) == Regrouped(items, Keys(init)) + Added(last, last.key)
  {
    var init, last := items[..|items| - 1], items[|items| - 1];
    var keys := Keys(init);
    KeysGrow(items);
    NoValues(init, last.key);
    hide Keys, Regrouped;
    OneListMore(items, keys, last.key);
  }

  lemma KeysGrow<K, V>(items: seq<Item<K, V>>)
    requires items != []
    ensures var init, last := items[..|items| - 1], items[|items| - 1];
      Keys(items) == if last.key in Keys(init) then Keys(init) else Keys(init) + [last.key]
  {
  }

  lemma OneListMore<K, V>(items: seq<Item<K, V>>, keys: seq<K>, k: K)
    ensures Regrouped(items, keys + [k]) == Regrouped(items, keys) + ValuesOf(items, k)
  {
    hide ValuesOf;
    assert (keys + [k])[..|keys|] == keys;
  }

  // Grouping keeps every value exactly once.
  lemma {:induction false} GroupingConserves<K, V>(items: seq<Item<K, V>>)
    ensures multiset(Regrouped(items, Keys(items))) == multiset(AllValues(items))
  {
    if items != [] {
      var init, last := items[..|items| - 1], items[|items| - 1];
      GroupingConserves(init);
      KeysAreDistinct(init);
      OneItemMore(items, Keys(init));
      assert multiset(AllValues(items)) == multiset(AllValues(init)) + multiset(Added(last, last.key));
      hide Regrouped, AllValues, ValuesOf;
      if last.key !in Keys(init) {
        NewKeyOpensList(items);
      }
    }
  }

  // Keys are entered in order of arrival: before every item under a later key there is one under each earlier key.
  lemma {:induction false} KeysInOrder<K, V>(items: seq<Item<K, V>>, i: nat, j: nat, q: nat)
    requires i < j < |Keys(items)| && q < |items| && items[q].key == Keys(items)[j]
    ensures exists p :: 0 <= p < q && items[p].key == Keys(items)[i]
  {
    var init := items[..|items| - 1];
    if q < |init| {
      assert init[q] == items[q];
      KeysAreDistinct(items);
      var x :| 0 <= x < |Keys(init)| && Keys(init)[x] == init[q].key;
      assert Keys(items)[x] == Keys(items)[j] && x == j;
      KeysInOrder(init, i, j, q);
      var p :| 0 <= p < q && init[p].key == Keys(init)[i];
      assert items[p].key == Keys(items)[i];
    } else {
      assert Keys(items)[i] in Keys(init);
      var p :| 0 <= p < |init| && init[p].key == Keys(items)[i];
      assert items[p].key == Keys(items)[i];
    }
  }
}
