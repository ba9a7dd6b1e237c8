/**
 * The grouping pass shared by the flat and the hierarchical output
 * (src/App.js:122-129 and 158-166): rows arrive as (key, value) pairs and are
 * folded into an insertion-ordered association list holding one running
 * `{ total, count }` accumulator per distinct key.
 */
module Grouping {
  import opened Options

  /** The accumulator `{ total, count }` the source keeps per key. */
  datatype Acc = Acc(total: real, count: nat)

  /** The keys of an association list, in order. */
  function Keys<K, V>(s: seq<(K, V)>): seq<K> {
    seq(|s|, i requires 0 <= i < |s| => s[i].0)
  }

  lemma KeysAppend<K, V>(s: seq<(K, V)>, p: (K, V))
    ensures Keys(s + [p]) == Keys(s) + [p.0]
  {
  }

  /** Where key `k` sits in `g`, or None when `g` has no entry for it (`grouped[key]` is undefined). */
  function IndexOf<K(==), V>(g: seq<(K, V)>, k: K): (r: Option<nat>)
    ensures r.None? <==> k !in Keys(g)
    ensures r.Some? ==> r.value < |g| && g[r.value].0 == k
  {
    if g == [] then None
    else
      assert Keys(g) == [g[0].0] + Keys(g[1..]);
      if g[0].0 == k then Some(0)
      else
        var r := IndexOf(g[1..], k);
        if r.Some? then Some(r.value + 1) else None
  }

  /** One row folded in: the key's accumulator grows by the value and by one, or a new last entry starts it. */
  function Add<K(==)>(g: seq<(K, Acc)>, k: K, v: real): seq<(K, Acc)> {
    match IndexOf(g, k)
    case Some(i) => g[i := (k, Acc(g[i].1.total + v, g[i].1.count + 1))]
    case None => g + [(k, Acc(v, 1))]
  }

  /** All pairs folded in, in order. */
  function Group<K(==)>(pairs: seq<(K, real)>): seq<(K, Acc)>
    decreases |pairs|
  {
    if pairs == [] then []
    else Add(Group(pairs[..|pairs| - 1]), pairs[|pairs| - 1].0, pairs[|pairs| - 1].1)
  }

  /** Folding one more pair is one more `Add`. */
  lemma GroupSnoc<K>(pairs: seq<(K, real)>, i: nat)
    requires i < |pairs|
    ensures Group(pairs[..i + 1]) == Add(Group(pairs[..i]), pairs[i].0, pairs[i].1)
  {
    assert pairs[..i + 1][..i] == pairs[..i];
  }

  /** Reference definition: the sum of the values paired with `k`. */
  function SumOf<K(==)>(pairs: seq<(K, real)>, k: K): real
    decreases |pairs|
  {
    if pairs == [] then 0.0
    else SumOf(pairs[..|pairs| - 1], k) + (if pairs[|pairs| - 1].0 == k then pairs[|pairs| - 1].1 else 0.0)
  }

  /** The position of the first occurrence of `k` in `ks`. */
  function FirstIndex<K(==)>(ks: seq<K>, k: K): (r: nat)
    requires k in ks
    ensures r < |ks| && ks[r] == k
    ensures forall j :: 0 <= j < r ==> ks[j] != k
  {
    if ks[0] == k then 0 else 1 + FirstIndex(ks[1..], k)
  }

  lemma {:induction false} SumOfAbsent<K>(pairs: seq<(K, real)>, k: K)
    requires k !in Keys(pairs)
    ensures SumOf(pairs, k) == 0.0
    decreases |pairs|
  {
    if pairs != [] {
      var init := pairs[..|pairs| - 1];
      assert pairs == init + [pairs[|pairs| - 1]];
      KeysAppend(init, pairs[|pairs| - 1]);
      SumOfAbsent(init, k);
    }
  }

  lemma FirstIndexOfPrefix<K>(a: seq<K>, b: seq<K>, k: K)
    requires k in a
    ensures k in a + b && FirstIndex(a + b, k) == FirstIndex(a, k)
  {
    var r := FirstIndex(a, k);
    var r' := FirstIndex(a + b, k);
    assert (a + b)[r] == k;
    assert r' <= r;
    assert a[r'] == k;
  }

  /** No key has two entries. */
  ghost predicate DistinctKeys<K, V>(g: seq<(K, V)>) {
    forall i, j :: 0 <= i < j < |g| ==> g[i].0 != g[j].0
  }

  /** Each key has exactly one entry, and the entries' keys are exactly the keys of the pairs. */
  lemma {:induction false} GroupKeys<K>(pairs: seq<(K, real)>)
    ensures DistinctKeys(Group(pairs))
    ensures forall k :: k in Keys(Group(pairs)) <==> k in Keys(pairs)
    decreases |pairs|
  {
    if pairs != [] {
      var init, last := pairs[..|pairs| - 1], pairs[|pairs| - 1];
      assert pairs == init + [last];
      KeysAppend(init, last);
      GroupKeys(init);
      var g := Group(init);
      assert DistinctKeys(g);
      match IndexOf(g, last.0)
      case Some(n) =>
        var g' := g[n := (last.0, Acc(g[n].1.total + last.1, g[n].1.count + 1))];
        assert Group(pairs) == g';
        assert forall a :: 0 <= a < |g| ==> g'[a].0 == g[a].0;
        assert Keys(g') == Keys(g);
      case None =>
        var g' := g + [(last.0, Acc(last.1, 1))];
        assert Group(pairs) == g';
        KeysAppend(g, (last.0, Acc(last.1, 1)));
        forall i, j | 0 <= i < j < |g'|
          ensures g'[i].0 != g'[j].0
        {
          assert g'[i] == g[i];
          if j == |g| {
            assert Keys(g)[i] == g[i].0;
            assert Keys(g)[i] in Keys(g);
          } else {
            assert g'[j] == g[j];
          }
        }
    }
  }

  /** Every entry holds the sum of the values paired with its key and how many pairs have that key. */
  ghost predicate Tallies<K>(g: seq<(K, Acc)>, pairs: seq<(K, real)>) {
    forall i :: 0 <= i < |g| ==>
      && g[i].1.total == SumOf(pairs, g[i].0)
      && g[i].1.count == multiset(Keys(pairs))[g[i].0]
      && g[i].1.count >= 1
  }

  /** One more pair adds its value to its own key's sum and one to its own key's count. */
  lemma SumAndCountSnoc<K>(pairs: seq<(K, real)>, p: (K, real), k: K)
    ensures SumOf(pairs + [p], k) == SumOf(pairs, k) + (if p.0 == k then p.1 else 0.0)
    ensures multiset(Keys(pairs + [p]))[k] == multiset(Keys(pairs))[k] + (if p.0 == k then 1 else 0)
  {
    assert (pairs + [p])[..|pairs|] == pairs;
    KeysAppend(pairs, p);
  }

  /** Bumping the entry of an existing key keeps every entry's tallies right. */
  lemma TalliesBump<K>(g: seq<(K, Acc)>, pairs: seq<(K, real)>, p: (K, real), n: nat)
    requires Tallies(g, pairs) && DistinctKeys(g)
    requires n < |g| && g[n].0 == p.0
    ensures Tallies(g[n := (p.0, Acc(g[n].1.total + p.1, g[n].1.count + 1))], pairs + [p])
  {
    var h := g[n := (p.0, Acc(g[n].1.total + p.1, g[n].1.count + 1))];
    forall i | 0 <= i < |h|
      ensures h[i].1.total == SumOf(pairs + [p], h[i].0)
      ensures h[i].1.count == multiset(Keys(pairs + [p]))[h[i].0] && h[i].1.count >= 1
    {
      SumAndCountSnoc(pairs, p, h[i].0);
      if i != n {
        assert h[i] == g[i] && g[i].0 != g[n].0;
      }
    }
  }

  /** A new key's entry, appended last, is tallied right, and so are the others. */
  lemma TalliesAppend<K>(g: seq<(K, Acc)>, pairs: seq<(K, real)>, p: (K, real))
    requires Tallies(g, pairs) && p.0 !in Keys(pairs)
    requires forall i :: 0 <= i < |g| ==> g[i].0 != p.0
    ensures Tallies(g + [(p.0, Acc(p.1, 1))], pairs + [p])
  {
    var h := g + [(p.0, Acc(p.1, 1))];
    SumOfAbsent(pairs, p.0);
    assert multiset(Keys(pairs))[p.0] == 0;
    forall i | 0 <= i < |h|
      ensures h[i].1.total == SumOf(pairs + [p], h[i].0)
      ensures h[i].1.count == multiset(Keys(pairs + [p]))[h[i].0] && h[i].1.count >= 1
    {
      SumAndCountSnoc(pairs, p, h[i].0);
      if i < |g| {
        assert h[i] == g[i];
      }
    }
  }

  /**
   * Each entry's accumulator holds the sum of the values paired with its key and
   * the number of pairs with that key, which is at least one.
   */
  lemma {:induction false} GroupAccumulators<K>(pairs: seq<(K, real)>)
    ensures Tallies(Group(pairs), pairs)
    decreases |pairs|
  {
    if pairs != [] {
      var init, last := pairs[..|pairs| - 1], pairs[|pairs| - 1];
      assert pairs == init + [last];
      GroupAccumulators(init);
      GroupKeys(init);
      TalliesAdd(Group(init), init, last);
    }
  }

  /** Folding one more pair into a grouping of `pairs` tallies `pairs` plus that pair. */
  lemma TalliesAdd<K>(g: seq<(K, Acc)>, pairs: seq<(K, real)>, p: (K, real))
    requires Tallies(g, pairs) && DistinctKeys(g)
    requires forall k :: k in Keys(g) <==> k in Keys(pairs)
    ensures Tallies(Add(g, p.0, p.1), pairs + [p])
  {
    match IndexOf(g, p.0)
    case Some(n) =>
      TalliesBump(g, pairs, p, n);
    case None =>
      forall i | 0 <= i < |g|
        ensures g[i].0 != p.0
      {
        assert Keys(g)[i] == g[i].0;
      }
      TalliesAppend(g, pairs, p);
  }

  /** The entries of `g` are ordered by the first occurrence of their keys in `ks`. */
  ghost predicate FirstSeenOrder<K, V>(g: seq<(K, V)>, ks: seq<K>) {
    && (forall i :: 0 <= i < |g| ==> g[i].0 in ks)
    && forall i, j :: 0 <= i < j < |g| ==> FirstIndex(ks, g[i].0) < FirstIndex(ks, g[j].0)
  }

  /** Appending a key to `ks` keeps the first occurrence of every key already in it. */
  lemma FirstSeenExtend<K, V>(g: seq<(K, V)>, ks: seq<K>, k: K)
    requires FirstSeenOrder(g, ks)
    ensures FirstSeenOrder(g, ks + [k])
  {
    forall i | 0 <= i < |g|
      ensures g[i].0 in ks + [k]
    {
      FirstIndexOfPrefix(ks, [k], g[i].0);
    }
    forall i, j | 0 <= i < j < |g|
      ensures FirstIndex(ks + [k], g[i].0) < FirstIndex(ks + [k], g[j].0)
    {
      FirstIndexOfPrefix(ks, [k], g[i].0);
      FirstIndexOfPrefix(ks, [k], g[j].0);
    }
  }

  /** Ordering by first occurrence looks at the keys alone. */
  lemma FirstSeenSameKeys<K, V, W>(g: seq<(K, V)>, h: seq<(K, W)>, ks: seq<K>)
    requires FirstSeenOrder(g, ks) && |h| == |g| && forall i :: 0 <= i < |g| ==> h[i].0 == g[i].0
    ensures FirstSeenOrder(h, ks)
  {
    forall i, j | 0 <= i < j < |h|
      ensures FirstIndex(ks, h[i].0) < FirstIndex(ks, h[j].0)
    {
      assert h[i].0 == g[i].0 && h[j].0 == g[j].0;
    }
  }

  /** A new key occurring after all of `ks` may be appended as the last entry. */
  lemma FirstSeenAppendNew<K, V>(g: seq<(K, V)>, ks: seq<K>, k: K, v: V)
    requires FirstSeenOrder(g, ks) && k !in ks
    requires forall i :: 0 <= i < |g| ==> g[i].0 in ks
    ensures FirstSeenOrder(g + [(k, v)], ks + [k])
  {
    FirstSeenExtend(g, ks, k);
    var h, ks' := g + [(k, v)], ks + [k];
    assert FirstIndex(ks', k) == |ks|;
    forall i | 0 <= i < |g|
      ensures h[i].0 in ks' && FirstIndex(ks', h[i].0) < |ks|
    {
      FirstIndexOfPrefix(ks, [k], g[i].0);
    }
  }

  /** Entries appear in the order in which their keys first occur among the pairs. */
  lemma {:induction false} GroupFirstSeenOrder<K>(pairs: seq<(K, real)>)
    ensures FirstSeenOrder(Group(pairs), Keys(pairs))
    decreases |pairs|
  {
    if pairs != [] {
      var init, last := pairs[..|pairs| - 1], pairs[|pairs| - 1];
      assert pairs == init + [last];
      KeysAppend(init, last);
      GroupFirstSeenOrder(init);
      GroupKeys(init);
      var g := Group(init);
      var ks := Keys(init);
      match IndexOf(g, last.0)
      case Some(n) =>
        var g' := g[n := (last.0, Acc(g[n].1.total + last.1, g[n].1.count + 1))];
        assert Group(pairs) == g';
        FirstSeenExtend(g, ks, last.0);
        FirstSeenSameKeys(g, g', ks + [last.0]);
      case None =>
        assert Group(pairs) == g + [(last.0, Acc(last.1, 1))];
        forall i | 0 <= i < |g|
          ensures g[i].0 in ks
        {
          assert Keys(g)[i] == g[i].0;
          assert Keys(g)[i] in Keys(g);
        }
        FirstSeenAppendNew(g, ks, last.0, Acc(last.1, 1));
    }
  }

  /** The keys and counts of the grouping depend only on the keys of the pairs, never on their values. */
  lemma {:induction false} GroupShape<K>(p1: seq<(K, real)>, p2: seq<(K, real)>)
    requires Keys(p1) == Keys(p2)
    ensures |Group(p1)| == |Group(p2)|
    ensures forall i :: 0 <= i < |Group(p1)| ==>
      Group(p1)[i].0 == Group(p2)[i].0 && Group(p1)[i].1.count == Group(p2)[i].1.count
    decreases |p1|
  {
    if p1 != [] {
      var n := |p1| - 1;
      assert |p2| == |Keys(p2)| == |p1|;
      var i1, i2 := p1[..n], p2[..n];
      KeysAppend(i1, p1[n]);
      KeysAppend(i2, p2[n]);
      assert p1 == i1 + [p1[n]] && p2 == i2 + [p2[n]];
      assert Keys(i1) == Keys(p1)[..n] == Keys(p2)[..n] == Keys(i2);
      GroupShape(i1, i2);
      var g1, g2 := Group(i1), Group(i2);
      var k := p1[n].0;
      assert k == Keys(p1)[n] == p2[n].0;
      assert Keys(g1) == Keys(g2);
      assert IndexOf(g1, k) == IndexOf(g2, k) by {
        IndexOfByKeys(g1, g2, k);
      }
    }
  }

  /** Where a key sits depends only on the key sequence. */
  lemma {:induction false} IndexOfByKeys<K, V, W>(g1: seq<(K, V)>, g2: seq<(K, W)>, k: K)
    requires Keys(g1) == Keys(g2)
    ensures IndexOf(g1, k) == IndexOf(g2, k)
    decreases |g1|
  {
    assert |g1| == |Keys(g1)| == |g2|;
    if g1 != [] {
      assert g1[0].0 == Keys(g1)[0] == g2[0].0;
      assert Keys(g1[1..]) == Keys(g1)[1..] == Keys(g2)[1..] == Keys(g2[1..]);
      IndexOfByKeys(g1[1..], g2[1..], k);
    }
  }
}
