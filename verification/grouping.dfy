/**
 * Grouping a list by a key into an insertion-ordered dictionary, the shape
 * of `xs.reduce((acc, x) => { (acc[k] ||= []).push(v); return acc }, {})`
 * followed by `Object.entries(acc)`. A JavaScript object enumerates
 * non-index string keys in the order they were first added, so the
 * dictionary is modelled as a sequence of groups with distinct keys.
 */
module Grouping {
  import opened Collections

  datatype Group<K, V> = Group(key: K, items: seq<V>)

  function Keys<K, V>(gs: seq<Group<K, V>>): (ks: seq<K>)
    ensures |ks| == |gs| && forall i :: 0 <= i < |gs| ==> ks[i] == gs[i].key
  {
    seq(|gs|, i requires 0 <= i < |gs| => gs[i].key)
  }

  /** One step of the reduce: push `v` onto the group of `k`, creating that group at the end when `k` is new. */
  function Insert<K(==), V>(gs: seq<Group<K, V>>, k: K, v: V): seq<Group<K, V>> {
    if gs == [] then [Group(k, [v])]
    else if gs[0].key == k then [Group(k, gs[0].items + [v])] + gs[1..]
    else [gs[0]] + Insert(gs[1..], k, v)
  }

  /** The dictionary the reduce builds from `xs`, a group per key, keyed by `key` and holding `val` of each element. */
  function GroupBy<S, K(==), V>(xs: seq<S>, key: S -> K, val: S -> V): seq<Group<K, V>> {
    if xs == [] then []
    else Insert(GroupBy(xs[..|xs| - 1], key, val), key(xs[|xs| - 1]), val(xs[|xs| - 1]))
  }

  // ---------------------------------------------------------------------
  // Independent descriptions of the result

  /** The keys of `xs` in order of first appearance, each once. */
  function FirstAppearances<K(==)>(ks: seq<K>): (r: seq<K>)
    ensures NoDuplicates(r)
    ensures forall i :: 0 <= i < |r| ==> r[i] in ks
    ensures forall i :: 0 <= i < |ks| ==> ks[i] in r
  {
    if ks == [] then []
    else
      var p := FirstAppearances(ks[..|ks| - 1]);
      var last := ks[|ks| - 1];
      assert forall i :: 0 <= i < |ks| - 1 ==> ks[i] == ks[..|ks| - 1][i];
      if last in p then p
      else
        var r := p + [last];
        assert forall i :: 0 <= i < |r| - 1 ==> r[i] == p[i];
        r
  }

  function KeysOf<S, K>(xs: seq<S>, key: S -> K): (ks: seq<K>)
    ensures |ks| == |xs| && forall i :: 0 <= i < |xs| ==> ks[i] == key(xs[i])
  {
    seq(|xs|, i requires 0 <= i < |xs| => key(xs[i]))
  }

  /** `xs.filter(x => key(x) == k).map(val)`: the items of `xs` under key `k`, in input order. */
  function ItemsOf<S, K(==), V>(xs: seq<S>, key: S -> K, val: S -> V, k: K): seq<V> {
    if xs == [] then []
    else ItemsOf(xs[..|xs| - 1], key, val, k) + (if key(xs[|xs| - 1]) == k then [val(xs[|xs| - 1])] else [])
  }

  /** The items stored under `k`, or none when `k` has no group. */
  function Lookup<K(==), V>(gs: seq<Group<K, V>>, k: K): seq<V> {
    if gs == [] then []
    else if gs[0].key == k then gs[0].items
    else Lookup(gs[1..], k)
  }

  function TotalItems<K, V>(gs: seq<Group<K, V>>): nat {
    if gs == [] then 0 else |gs[0].items| + TotalItems(gs[1..])
  }

  // ---------------------------------------------------------------------
  // What one step of the reduce does

  lemma {:induction false} InsertKeys<K, V>(gs: seq<Group<K, V>>, k: K, v: V)
    ensures Keys(Insert(gs, k, v)) == if k in Keys(gs) then Keys(gs) else Keys(gs) + [k]
  {
    if gs != [] && gs[0].key != k {
      InsertKeys(gs[1..], k, v);
      assert Keys(gs) == [gs[0].key] + Keys(gs[1..]);
      assert Keys(Insert(gs, k, v)) == [gs[0].key] + Keys(Insert(gs[1..], k, v));
    } else if gs != [] {
      assert Keys(Insert(gs, k, v)) == Keys(gs);
    }
  }

  lemma {:induction false} InsertLookup<K, V>(gs: seq<Group<K, V>>, k: K, v: V, k': K)
    ensures Lookup(Insert(gs, k, v), k') == Lookup(gs, k') + (if k' == k then [v] else [])
  {
    if gs != [] && gs[0].key != k {
      InsertLookup(gs[1..], k, v, k');
    }
  }

  lemma {:induction false} InsertTotal<K, V>(gs: seq<Group<K, V>>, k: K, v: V)
    ensures TotalItems(Insert(gs, k, v)) == TotalItems(gs) + 1
  {
    if gs != [] && gs[0].key != k {
      InsertTotal(gs[1..], k, v);
    } else if gs != [] {
      assert Insert(gs, k, v)[1..] == gs[1..];
    }
  }

  lemma {:induction false} LookupDistinct<K, V>(gs: seq<Group<K, V>>, i: nat)
    requires i < |gs| && NoDuplicates(Keys(gs))
    ensures Lookup(gs, gs[i].key) == gs[i].items
  {
    if i > 0 {
      assert gs[0].key != gs[i].key by { assert Keys(gs)[0] != Keys(gs)[i]; }
      assert Keys(gs[1..]) == Keys(gs)[1..];
      LookupDistinct(gs[1..], i - 1);
    }
  }

  // ---------------------------------------------------------------------
  // What the whole reduce builds

  /** The groups are keyed by the distinct keys of the input, in order of first appearance. */
  lemma {:induction false} GroupByKeys<S, K, V>(xs: seq<S>, key: S -> K, val: S -> V)
    ensures Keys(GroupBy(xs, key, val)) == FirstAppearances(KeysOf(xs, key))
  {
    if xs != [] {
      var init := xs[..|xs| - 1];
      var ks, last := KeysOf(xs, key), key(xs[|xs| - 1]);
      GroupByKeys(init, key, val);
      var gs := GroupBy(init, key, val);
      InsertKeys(gs, last, val(xs[|xs| - 1]));
      assert ks[..|ks| - 1] == KeysOf(init, key) && ks[|ks| - 1] == last;
      assert Keys(gs) == FirstAppearances(ks[..|ks| - 1]);
      assert GroupBy(xs, key, val) == Insert(gs, last, val(xs[|xs| - 1]));
    }
  }

  /** Under every key lie exactly the input's items with that key, in input order. */
  lemma {:induction false} GroupByLookup<S, K, V>(xs: seq<S>, key: S -> K, val: S -> V, k: K)
    ensures Lookup(GroupBy(xs, key, val), k) == ItemsOf(xs, key, val, k)
  {
    if xs != [] {
      var init := xs[..|xs| - 1];
      GroupByLookup(init, key, val, k);
      InsertLookup(GroupBy(init, key, val), key(xs[|xs| - 1]), val(xs[|xs| - 1]), k);
    }
  }

  /** Every input element lands in exactly one group: the groups hold as many items as the input has. */
  lemma {:induction false} GroupByTotal<S, K, V>(xs: seq<S>, key: S -> K, val: S -> V)
    ensures TotalItems(GroupBy(xs, key, val)) == |xs|
  {
    if xs != [] {
      GroupByTotal(xs[..|xs| - 1], key, val);
      InsertTotal(GroupBy(xs[..|xs| - 1], key, val), key(xs[|xs| - 1]), val(xs[|xs| - 1]));
    }
  }

  /**
   * The grouping is a partition: distinct keys, one per distinct input key in
   * order of first appearance, each group holding that key's items in input order.
   */
  lemma GroupByPartition<S, K, V>(xs: seq<S>, key: S -> K, val: S -> V)
    ensures var gs := GroupBy(xs, key, val);
      && NoDuplicates(Keys(gs))
      && Keys(gs) == FirstAppearances(KeysOf(xs, key))
      && (forall i :: 0 <= i < |gs| ==> gs[i].items == ItemsOf(xs, key, val, gs[i].key))
      && TotalItems(gs) == |xs|
  {
    var gs := GroupBy(xs, key, val);
    GroupByKeys(xs, key, val);
    GroupByTotal(xs, key, val);
    forall i | 0 <= i < |gs| ensures gs[i].items == ItemsOf(xs, key, val, gs[i].key) {
      LookupDistinct(gs, i);
      GroupByLookup(xs, key, val, gs[i].key);
    }
  }

  // ---------------------------------------------------------------------
  // The reduce as the source runs it: an accumulator updated in place

  lemma {:induction false} InsertExisting<K, V>(gs: seq<Group<K, V>>, k: K, v: V, j: nat)
    requires j < |gs| && gs[j].key == k
    requires forall t :: 0 <= t < j ==> gs[t].key != k
    ensures Insert(gs, k, v) == gs[j := Group(k, gs[j].items + [v])]
  {
    if j > 0 {
      InsertExisting(gs[1..], k, v, j - 1);
    }
  }

  lemma {:induction false} InsertFresh<K, V>(gs: seq<Group<K, V>>, k: K, v: V)
    requires forall t :: 0 <= t < |gs| ==> gs[t].key != k
    ensures Insert(gs, k, v) == gs + [Group(k, [v])]
  {
    if gs != [] {
      InsertFresh(gs[1..], k, v);
    }
  }

  /** Runs the reduce over `xs`, looking up each element's key in the accumulator and pushing onto it. */
  method GroupInto<S, K(==), V>(xs: seq<S>, key: S -> K, val: S -> V) returns (groups: seq<Group<K, V>>)
    ensures groups == GroupBy(xs, key, val)
  {
    groups := [];
    var i := 0;
    while i < |xs|
      invariant 0 <= i <= |xs|
      invariant groups == GroupBy(xs[..i], key, val)
    {
      var k, v := key(xs[i]), val(xs[i]);
      var j := 0;
      while j < |groups| && groups[j].key != k
        invariant 0 <= j <= |groups|
        invariant forall t :: 0 <= t < j ==> groups[t].key != k
      {
        j := j + 1;
      }
      assert xs[..i + 1][..i] == xs[..i];
      if j < |groups| {
        InsertExisting(groups, k, v, j);
        groups := groups[j := Group(k, groups[j].items + [v])];
      } else {
        InsertFresh(groups, k, v);
        groups := groups + [Group(k, [v])];
      }
      i := i + 1;
    }
    assert xs[..i] == xs;
  }
}
