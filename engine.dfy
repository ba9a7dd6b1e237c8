/**
 * The aggregation engine, `applyTransformation` (src/App.js:121-149): it
 * groups the rows by their group-by cell, reduces every group by sum, average
 * or count, and optionally sorts the entries by value.
 */
module Engine {
  import opened Options
  import opened Numbers
  import opened Resolver
  import opened Grouping
  import opened Sorting

  /** A data row: `keys` in the order `Object.keys(row)` enumerates them, `cells` the raw strings. */
  datatype Row = Row(keys: seq<string>, cells: map<string, string>)

  /** A group label: the group-by cell of a row, None when the row has no such cell. */
  type Key = Option<string>

  /** `row[column]`: None when the column is unset or the row has no such cell. */
  function Cell(row: Row, column: Option<string>): Option<string> {
    if column.Some? && column.value in row.cells then Some(row.cells[column.value]) else None
  }

  /** `parseFloat(row[column]) || 0`; `parseFloat(undefined)` is NaN, hence 0. */
  function CellValue(row: Row, column: Option<string>): real {
    match Cell(row, column)
    case None => 0.0
    case Some(s) => ParseNum(s)
  }

  /** Each row as the (key, value) pair the grouping loop reads from it. */
  function FlatPairs(rows: seq<Row>, instruction: Instruction): seq<(Key, real)> {
    seq(|rows|, i requires 0 <= i < |rows| =>
      (Cell(rows[i], instruction.groupBy), CellValue(rows[i], instruction.column)))
  }

  /** The value emitted for one group (src/App.js:133-135). */
  function Reduce(acc: Acc, aggregation: Aggregation): real
    requires acc.count >= 1
  {
    match aggregation
    case Average => acc.total / acc.count as real
    case Count => acc.count as real
    case Sum => acc.total
  }

  function ReduceAll<K>(g: seq<(K, Acc)>, aggregation: Aggregation): seq<(K, real)>
    requires forall i :: 0 <= i < |g| ==> g[i].1.count >= 1
  {
    seq(|g|, i requires 0 <= i < |g| => (g[i].0, Reduce(g[i].1, aggregation)))
  }

  /** What `applyTransformation(data, instruction, sortOrder)` returns, as an ordered list of entries. */
  function Transformed(rows: seq<Row>, instruction: Instruction, order: SortOrder): seq<(Key, real)> {
    var pairs := FlatPairs(rows, instruction);
    GroupAccumulators(pairs);
    SortEntries(order, ReduceAll(Group(pairs), instruction.aggregation))
  }

  /** The body of the grouping `forEach`: start the key at `{ total: 0, count: 0 }` if it is new, then add the value and one. */
  method AddRow(grouped: seq<(Key, Acc)>, key: Key, value: real) returns (updated: seq<(Key, Acc)>)
    ensures updated == Add(grouped, key, value)
  {
    updated := grouped;
    var found := IndexOf(updated, key);
    var n: nat;
    if found.None? {
      updated := updated + [(key, Acc(0.0, 0))];
      n := |updated| - 1;
    } else {
      n := found.value;
    }
    updated := updated[n := (key, Acc(updated[n].1.total + value, updated[n].1.count + 1))];
    if found.None? {
      assert updated == grouped + [(key, Acc(value, 1))];
    }
  }

  /** The grouping loop of `applyTransformation` (src/App.js:122-129). */
  method GroupRows(data: seq<Row>, instruction: Instruction) returns (grouped: seq<(Key, Acc)>)
    ensures grouped == Group(FlatPairs(data, instruction))
  {
    ghost var pairs := FlatPairs(data, instruction);
    grouped := [];
    var i := 0;
    while i < |data|
      invariant 0 <= i <= |data|
      invariant grouped == Group(pairs[..i])
    {
      var row := data[i];
      var key := Cell(row, instruction.groupBy);
      var value := CellValue(row, instruction.column);
      grouped := AddRow(grouped, key, value);
      GroupSnoc(pairs, i);
      i := i + 1;
    }
    assert pairs[..i] == pairs;
  }

  /** The reduction loop of `applyTransformation` (src/App.js:131-137). */
  method ReduceGroups(grouped: seq<(Key, Acc)>, aggregation: Aggregation) returns (entries: seq<(Key, real)>)
    requires forall i :: 0 <= i < |grouped| ==> grouped[i].1.count >= 1
    ensures entries == ReduceAll(grouped, aggregation)
  {
    entries := [];
    var j := 0;
    while j < |grouped|
      invariant 0 <= j <= |grouped|
      invariant entries == ReduceAll(grouped, aggregation)[..j]
    {
      var acc := grouped[j].1;
      var value: real;
      if aggregation == Average {
        value := acc.total / acc.count as real;
      } else if aggregation == Count {
        value := acc.count as real;
      } else {
        value := acc.total;
      }
      entries := entries + [(grouped[j].0, value)];
      j := j + 1;
    }
    assert ReduceAll(grouped, aggregation)[..j] == ReduceAll(grouped, aggregation);
  }

  /** `applyTransformation`: group, reduce, then sort by value when an order is asked for. */
  method ApplyTransformation(data: seq<Row>, instruction: Instruction, sortOrder: SortOrder)
    returns (finalData: seq<(Key, real)>)
    ensures finalData == Transformed(data, instruction, sortOrder)
  {
    var grouped := GroupRows(data, instruction);
    GroupAccumulators(FlatPairs(data, instruction));
    finalData := ReduceGroups(grouped, instruction.aggregation);
    finalData := SortEntries(sortOrder, finalData);
  }

  /**
   * Without a sort order the flat result has one entry per distinct group-by
   * cell, in the order the cells first occur in the rows, and each entry's value
   * is the sum of the coerced value cells of its rows (sum), that sum divided by
   * the number of its rows (average), or that number (count).
   */
  lemma FlatResultUnsorted(rows: seq<Row>, instruction: Instruction)
    ensures var r := Transformed(rows, instruction, Unsorted);
      var pairs := FlatPairs(rows, instruction);
      && DistinctKeys(r)
      && (forall k :: k in Keys(r) <==> exists i :: 0 <= i < |rows| && Cell(rows[i], instruction.groupBy) == k)
      && FirstSeenOrder(r, Keys(pairs))
      && forall i :: 0 <= i < |r| ==>
        var count := multiset(Keys(pairs))[r[i].0];
        && count >= 1
        && (instruction.aggregation == Sum ==> r[i].1 == SumOf(pairs, r[i].0))
        && (instruction.aggregation == Average ==> r[i].1 == SumOf(pairs, r[i].0) / count as real)
        && (instruction.aggregation == Count ==> r[i].1 == count as real)
  {
    var pairs := FlatPairs(rows, instruction);
    var g := Group(pairs);
    GroupAccumulators(pairs);
    var r := Transformed(rows, instruction, Unsorted);
    assert r == ReduceAll(g, instruction.aggregation);
    FlatKeys(rows, instruction, g, r);
    FlatValues(pairs, g, instruction.aggregation, r);
  }

  /** The unsorted result has the grouping's keys: distinct, those of the rows, in first-seen order. */
  lemma FlatKeys(rows: seq<Row>, instruction: Instruction, g: seq<(Key, Acc)>, r: seq<(Key, real)>)
    requires g == Group(FlatPairs(rows, instruction))
    requires |r| == |g| && forall i :: 0 <= i < |r| ==> r[i].0 == g[i].0
    ensures DistinctKeys(r)
    ensures forall k :: k in Keys(r) <==> exists i :: 0 <= i < |rows| && Cell(rows[i], instruction.groupBy) == k
    ensures FirstSeenOrder(r, Keys(FlatPairs(rows, instruction)))
  {
    var pairs := FlatPairs(rows, instruction);
    GroupKeys(pairs);
    GroupFirstSeenOrder(pairs);
    FirstSeenSameKeys(g, r, Keys(pairs));
    assert Keys(r) == Keys(g);
    forall k
      ensures k in Keys(pairs) <==> exists i :: 0 <= i < |rows| && Cell(rows[i], instruction.groupBy) == k
    {
      if k in Keys(pairs) {
        var i :| 0 <= i < |pairs| && Keys(pairs)[i] == k;
        assert Cell(rows[i], instruction.groupBy) == k;
      }
      if i :| 0 <= i < |rows| && Cell(rows[i], instruction.groupBy) == k {
        assert Keys(pairs)[i] == k;
      }
    }
  }

  /** Each reduced entry is its group's sum, sum over count, or count, as the aggregation asks. */
  lemma FlatValues(pairs: seq<(Key, real)>, g: seq<(Key, Acc)>, aggregation: Aggregation, r: seq<(Key, real)>)
    requires Tallies(g, pairs)
    requires r == ReduceAll(g, aggregation)
    ensures forall i :: 0 <= i < |r| ==>
      var count := multiset(Keys(pairs))[r[i].0];
      && count >= 1
      && (aggregation == Sum ==> r[i].1 == SumOf(pairs, r[i].0))
      && (aggregation == Average ==> r[i].1 == SumOf(pairs, r[i].0) / count as real)
      && (aggregation == Count ==> r[i].1 == count as real)
  {
    forall i | 0 <= i < |r|
      ensures var count := multiset(Keys(pairs))[r[i].0];
        && count >= 1
        && (aggregation == Sum ==> r[i].1 == SumOf(pairs, r[i].0))
        && (aggregation == Average ==> r[i].1 == SumOf(pairs, r[i].0) / count as real)
        && (aggregation == Count ==> r[i].1 == count as real)
    {
      assert r[i] == (g[i].0, Reduce(g[i].1, aggregation));
    }
  }

  /**
   * With "asc" or "desc" the flat result is the unsorted one reordered: sorted
   * by value in that direction, a permutation, and stable (entries with equal
   * values keep their first-seen order).
   */
  lemma FlatResultSorted(rows: seq<Row>, instruction: Instruction, order: SortOrder)
    ensures var r := Transformed(rows, instruction, order);
      var u := Transformed(rows, instruction, Unsorted);
      && Sorted(order, r)
      && multiset(r) == multiset(u)
      && (forall v :: WithValue(r, v) == WithValue(u, v))
  {
    var pairs := FlatPairs(rows, instruction);
    GroupAccumulators(pairs);
    SortEntriesSpec(order, ReduceAll(Group(pairs), instruction.aggregation));
  }

  /** For every group, the average multiplied by the group's row count is the sum. */
  lemma AverageTimesCountIsSum(rows: seq<Row>, instruction: Instruction)
    ensures var avg := Transformed(rows, instruction.(aggregation := Average), Unsorted);
      var sum := Transformed(rows, instruction.(aggregation := Sum), Unsorted);
      var cnt := Transformed(rows, instruction.(aggregation := Count), Unsorted);
      && |avg| == |sum| == |cnt|
      && forall i :: 0 <= i < |avg| ==>
           avg[i].0 == sum[i].0 == cnt[i].0 && avg[i].1 * cnt[i].1 == sum[i].1
  {
    var pairs := FlatPairs(rows, instruction);
    assert FlatPairs(rows, instruction.(aggregation := Average)) == pairs;
    assert FlatPairs(rows, instruction.(aggregation := Sum)) == pairs;
    assert FlatPairs(rows, instruction.(aggregation := Count)) == pairs;
    GroupAccumulators(pairs);
    var g := Group(pairs);
    assert Transformed(rows, instruction.(aggregation := Average), Unsorted) == ReduceAll(g, Average);
    assert Transformed(rows, instruction.(aggregation := Sum), Unsorted) == ReduceAll(g, Sum);
    assert Transformed(rows, instruction.(aggregation := Count), Unsorted) == ReduceAll(g, Count);
    ReducedAverageTimesCount(g);
  }

  /** Group by group, the reduced average times the reduced count is the reduced sum. */
  lemma ReducedAverageTimesCount<K>(g: seq<(K, Acc)>)
    requires forall i :: 0 <= i < |g| ==> g[i].1.count >= 1
    ensures var avg, sum, cnt := ReduceAll(g, Average), ReduceAll(g, Sum), ReduceAll(g, Count);
      && |avg| == |sum| == |cnt|
      && forall i :: 0 <= i < |avg| ==>
           avg[i].0 == sum[i].0 == cnt[i].0 && avg[i].1 * cnt[i].1 == sum[i].1
  {
    var avg, sum, cnt := ReduceAll(g, Average), ReduceAll(g, Sum), ReduceAll(g, Count);
    forall i | 0 <= i < |g|
      ensures avg[i].1 * cnt[i].1 == sum[i].1
    {
      var t, c := g[i].1.total, g[i].1.count as real;
      assert avg[i].1 == t / c && cnt[i].1 == c && sum[i].1 == t;
      QuotientTimesDivisor(t, c);
    }
  }

  lemma QuotientTimesDivisor(t: real, c: real)
    requires c != 0.0
    ensures (t / c) * c == t
  {
  }

  /**
   * A count does not look at values: two data sets whose group-by cells agree
   * row by row give the same count result, whatever their value columns hold
   * and whichever value column the instructions name.
   */
  lemma CountIgnoresValues(rows1: seq<Row>, rows2: seq<Row>, i1: Instruction, i2: Instruction, order: SortOrder)
    requires i1.aggregation == Count && i2.aggregation == Count && i1.groupBy == i2.groupBy
    requires |rows1| == |rows2|
    requires forall i :: 0 <= i < |rows1| ==> Cell(rows1[i], i1.groupBy) == Cell(rows2[i], i1.groupBy)
    ensures Transformed(rows1, i1, order) == Transformed(rows2, i2, order)
  {
    var p1, p2 := FlatPairs(rows1, i1), FlatPairs(rows2, i2);
    assert Keys(p1) == Keys(p2);
    GroupShape(p1, p2);
    GroupAccumulators(p1);
    GroupAccumulators(p2);
    assert ReduceAll(Group(p1), Count) == ReduceAll(Group(p2), Count);
  }
}
