/**
 * The optional reordering of the flat result (src/App.js:138-146):
 * `Object.entries(finalData).sort((a, b) => a - b)` for "asc" and
 * `b - a` for "desc". `Array.prototype.sort` is stable, so entries with equal
 * values keep their first-seen order; it is modelled as a stable insertion sort.
 */
module Sorting {

  /** The sort selector: "" (no sort), "asc" or "desc". */
  datatype SortOrder = Unsorted | Ascending | Descending

  /** The comparator lets `a` stay before `b`. */
  predicate InOrder(order: SortOrder, a: real, b: real) {
    match order
    case Ascending => a <= b
    case Descending => a >= b
    case Unsorted => true
  }

  /** Puts `x` before the first entry it may precede, and after every entry that must precede it. */
  function Insert<K>(order: SortOrder, x: (K, real), s: seq<(K, real)>): seq<(K, real)> {
    if s == [] || InOrder(order, x.1, s[0].1) then [x] + s
    else [s[0]] + Insert(order, x, s[1..])
  }

  function StableSort<K>(order: SortOrder, s: seq<(K, real)>): seq<(K, real)> {
    if s == [] then [] else Insert(order, s[0], StableSort(order, s[1..]))
  }

  /** The entries as the source leaves them: sorted for "asc" and "desc", untouched otherwise. */
  function SortEntries<K>(order: SortOrder, s: seq<(K, real)>): seq<(K, real)> {
    if order == Unsorted then s else StableSort(order, s)
  }

  ghost predicate Sorted<K>(order: SortOrder, s: seq<(K, real)>) {
    forall i, j :: 0 <= i < j < |s| ==> InOrder(order, s[i].1, s[j].1)
  }

  /** The entries whose value is `v`, in order. */
  function WithValue<K>(s: seq<(K, real)>, v: real): seq<(K, real)> {
    if s == [] then [] else (if s[0].1 == v then [s[0]] else []) + WithValue(s[1..], v)
  }

  lemma {:induction false} InsertPermutes<K>(order: SortOrder, x: (K, real), s: seq<(K, real)>)
    ensures multiset(Insert(order, x, s)) == multiset([x] + s)
    decreases |s|
  {
    if s != [] && !InOrder(order, x.1, s[0].1) {
      InsertPermutes(order, x, s[1..]);
      assert s == [s[0]] + s[1..];
    }
  }

  lemma {:induction false} InsertSorted<K>(order: SortOrder, x: (K, real), s: seq<(K, real)>)
    requires Sorted(order, s)
    ensures Sorted(order, Insert(order, x, s))
    decreases |s|
  {
    if s != [] && !InOrder(order, x.1, s[0].1) {
      var t := s[1..];
      assert Sorted(order, t);
      InsertSorted(order, x, t);
      InsertPermutes(order, x, t);
      var r := Insert(order, x, t);
      forall j | 0 <= j < |r|
        ensures InOrder(order, s[0].1, r[j].1)
      {
        assert r[j] in multiset(r);
        assert r[j] == x || r[j] in t;
      }
    }
  }

  /** Inserting keeps, for every value, the entries with that value in the order they had with `x` in front. */
  lemma {:induction false} InsertStable<K>(order: SortOrder, x: (K, real), s: seq<(K, real)>, v: real)
    ensures WithValue(Insert(order, x, s), v) == WithValue([x] + s, v)
    decreases |s|
  {
    if s != [] && !InOrder(order, x.1, s[0].1) {
      InsertStable(order, x, s[1..], v);
      assert ([s[0]] + Insert(order, x, s[1..]))[1..] == Insert(order, x, s[1..]);
      assert ([x] + s[1..])[1..] == s[1..];
      assert ([x] + s)[1..] == s;
    }
  }

  /**
   * Sorting by "asc" or "desc" yields entries in that order, is a permutation,
   * and is stable: for every value, the entries with that value keep their
   * relative order. Without a sort order the entries are returned unchanged.
   */
  lemma {:induction false} SortEntriesSpec<K>(order: SortOrder, s: seq<(K, real)>)
    ensures var r := SortEntries(order, s);
      && Sorted(order, r)
      && multiset(r) == multiset(s)
      && (forall v :: WithValue(r, v) == WithValue(s, v))
      && (order == Unsorted ==> r == s)
  {
    if order != Unsorted {
      StableSortSpec(order, s);
    }
  }

  lemma {:induction false} StableSortSpec<K>(order: SortOrder, s: seq<(K, real)>)
    ensures var r := StableSort(order, s);
      && Sorted(order, r)
      && multiset(r) == multiset(s)
      && (forall v :: WithValue(r, v) == WithValue(s, v))
    decreases |s|
  {
    if s != [] {
      var t := StableSort(order, s[1..]);
      StableSortSpec(order, s[1..]);
      InsertSorted(order, s[0], t);
      InsertPermutes(order, s[0], t);
      assert s == [s[0]] + s[1..];
      forall v
        ensures WithValue(StableSort(order, s), v) == WithValue(s, v)
      {
        InsertStable(order, s[0], t, v);
        assert ([s[0]] + t)[1..] == t;
      }
    }
  }
}
