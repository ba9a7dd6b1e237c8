/**
 * The sunburst branch of `handleTransform` (src/App.js:157-177): a two-level
 * hierarchy whose children are the distinct group-by labels, each carrying the
 * sum of its rows' values, under a root named "Root".
 */
module Sunburst {
  import opened Options
  import opened Resolver
  import opened Grouping
  import opened Sorting
  import opened Engine

  /** A leaf of the hierarchy: `{ name, id, value }`, with `id` equal to `name`. */
  datatype Child = Child(name: string, id: string, value: real)

  /** The hierarchy handed to the sunburst widget. */
  datatype Hierarchy = Hierarchy(name: string, children: seq<Child>)

  const ROOT_NAME: string := "Root"
  const UNKNOWN: string := "Unknown"
  const MIN_VALUE: real := 0.1

  /** `row[groupBy] || "Unknown"`: a missing or empty cell gets the label "Unknown". */
  function ParentLabel(row: Row, groupBy: Option<string>): (r: string)
    ensures r != ""
    ensures Cell(row, groupBy).Some? && Cell(row, groupBy).value != "" ==> r == Cell(row, groupBy).value
    ensures Cell(row, groupBy).None? || Cell(row, groupBy).value == "" ==> r == UNKNOWN
  {
    match Cell(row, groupBy)
    case Some(s) => if s == "" then UNKNOWN else s
    case None => UNKNOWN
  }

  /** Each row as the (label, value) pair the accumulation loop reads from it. */
  function SunburstPairs(rows: seq<Row>, instruction: Instruction): seq<(string, real)> {
    seq(|rows|, i requires 0 <= i < |rows| =>
      (ParentLabel(rows[i], instruction.groupBy), CellValue(rows[i], instruction.column)))
  }

  /** The running totals alone, dropping the counts the sunburst does not keep. */
  function Totals<K>(g: seq<(K, Acc)>): seq<(K, real)> {
    seq(|g|, i requires 0 <= i < |g| => (g[i].0, g[i].1.total))
  }

  /** `Math.max(value, 0.1)`. */
  function Clamp(value: real): (r: real)
    ensures r >= MIN_VALUE && r >= value
    ensures r == value || r == MIN_VALUE
  {
    if value >= MIN_VALUE then value else MIN_VALUE
  }

  /** One child per entry of `hierarchyData`, in its order. */
  function Children(totals: seq<(string, real)>): seq<Child> {
    seq(|totals|, i requires 0 <= i < |totals| => Child(totals[i].0, totals[i].0, Clamp(totals[i].1)))
  }

  /** The hierarchy the sunburst branch builds from the data and the instruction. */
  function SunburstOf(rows: seq<Row>, instruction: Instruction): Hierarchy {
    Hierarchy(ROOT_NAME, Children(Totals(Group(SunburstPairs(rows, instruction)))))
  }

  /** One row folded into `hierarchyData`: its label's total grows by the value, or a new last entry starts it. */
  function AddTotal(t: seq<(string, real)>, k: string, v: real): seq<(string, real)> {
    match IndexOf(t, k)
    case Some(n) => t[n := (k, t[n].1 + v)]
    case None => t + [(k, v)]
  }

  /** All pairs folded into `hierarchyData`, in order. */
  function SumFold(pairs: seq<(string, real)>): seq<(string, real)>
    decreases |pairs|
  {
    if pairs == [] then []
    else AddTotal(SumFold(pairs[..|pairs| - 1]), pairs[|pairs| - 1].0, pairs[|pairs| - 1].1)
  }

  /** Keeping only totals commutes with folding one more pair. */
  lemma TotalsAdd(g: seq<(string, Acc)>, k: string, v: real)
    ensures Totals(Add(g, k, v)) == AddTotal(Totals(g), k, v)
  {
    assert Keys(Totals(g)) == Keys(g);
    IndexOfByKeys(g, Totals(g), k);
  }

  /** The sunburst's running sums are the totals of the shared grouping pass. */
  lemma {:induction false} SumFoldIsTotals(pairs: seq<(string, real)>)
    ensures SumFold(pairs) == Totals(Group(pairs))
    decreases |pairs|
  {
    if pairs != [] {
      var init, last := pairs[..|pairs| - 1], pairs[|pairs| - 1];
      SumFoldIsTotals(init);
      TotalsAdd(Group(init), last.0, last.1);
    }
  }

  /** The body of the sunburst `forEach`: start the label at 0 if it is new, then add the value. */
  method AddToLabel(hierarchyData: seq<(string, real)>, parent: string, value: real) returns (updated: seq<(string, real)>)
    ensures updated == AddTotal(hierarchyData, parent, value)
  {
    updated := hierarchyData;
    var found := IndexOf(updated, parent);
    var n: nat;
    if found.None? {
      updated := updated + [(parent, 0.0)];
      n := |updated| - 1;
    } else {
      n := found.value;
    }
    updated := updated[n := (parent, updated[n].1 + value)];
    if found.None? {
      assert updated == hierarchyData + [(parent, value)];
    }
  }

  /** The accumulation loop of the sunburst branch (src/App.js:158-166). */
  method SumByLabel(data: seq<Row>, parsed: Instruction) returns (hierarchyData: seq<(string, real)>)
    ensures hierarchyData == Totals(Group(SunburstPairs(data, parsed)))
  {
    ghost var pairs := SunburstPairs(data, parsed);
    hierarchyData := [];
    var i := 0;
    while i < |data|
      invariant 0 <= i <= |data|
      invariant hierarchyData == SumFold(pairs[..i])
    {
      var parent := ParentLabel(data[i], parsed.groupBy);
      var value := CellValue(data[i], parsed.column);
      hierarchyData := AddToLabel(hierarchyData, parent, value);
      assert pairs[..i + 1][..i] == pairs[..i];
      i := i + 1;
    }
    assert pairs[..i] == pairs;
    SumFoldIsTotals(pairs);
  }

  /** The sunburst branch: the totals per label, then the `map` that builds the children under "Root". */
  method BuildSunburst(data: seq<Row>, parsed: Instruction) returns (sunburstData: Hierarchy)
    ensures sunburstData == SunburstOf(data, parsed)
  {
    var hierarchyData := SumByLabel(data, parsed);
    sunburstData := Hierarchy(ROOT_NAME, Children(hierarchyData));
  }

  /** The names of the children, in order. */
  function Names(children: seq<Child>): seq<string> {
    seq(|children|, i requires 0 <= i < |children| => children[i].name)
  }

  /** The labels of the rows, in row order. */
  function Labels(rows: seq<Row>, groupBy: Option<string>): seq<string> {
    seq(|rows|, i requires 0 <= i < |rows| => ParentLabel(rows[i], groupBy))
  }

  /** The children's names are the labels of the pairs' grouping, in its order. */
  lemma NamesAreGroupKeys(rows: seq<Row>, instruction: Instruction)
    ensures Names(SunburstOf(rows, instruction).children) == Keys(Group(SunburstPairs(rows, instruction)))
    ensures Keys(SunburstPairs(rows, instruction)) == Labels(rows, instruction.groupBy)
  {
  }

  /**
   * The root is named "Root"; it has one child per distinct label among the
   * rows, and the children come in the order in which their labels first occur.
   */
  lemma {:induction false} SunburstNames(rows: seq<Row>, instruction: Instruction)
    ensures SunburstOf(rows, instruction).name == ROOT_NAME
    ensures var names := Names(SunburstOf(rows, instruction).children);
      var labels := Labels(rows, instruction.groupBy);
      && (forall i, j :: 0 <= i < j < |names| ==> names[i] != names[j])
      && (forall name :: name in names <==> name in labels)
      && forall i, j :: 0 <= i < j < |names| ==>
           names[i] in labels && names[j] in labels && FirstIndex(labels, names[i]) < FirstIndex(labels, names[j])
  {
    var pairs := SunburstPairs(rows, instruction);
    NamesAreGroupKeys(rows, instruction);
    GroupKeys(pairs);
    GroupFirstSeenOrder(pairs);
    var g := Group(pairs);
    assert forall i :: 0 <= i < |g| ==> Keys(g)[i] == g[i].0;
  }

  /**
   * Every child has a non-empty name equal to its id, and its value is the sum
   * of its rows' coerced values clamped below at 0.1, so never below 0.1.
   */
  lemma {:induction false} SunburstValues(rows: seq<Row>, instruction: Instruction)
    ensures var children := SunburstOf(rows, instruction).children;
      var pairs := SunburstPairs(rows, instruction);
      forall i :: 0 <= i < |children| ==>
        && children[i].name != "" && children[i].id == children[i].name
        && children[i].value == Clamp(SumOf(pairs, children[i].name))
        && children[i].value >= MIN_VALUE
  {
    var pairs := SunburstPairs(rows, instruction);
    var children := SunburstOf(rows, instruction).children;
    NamesAreGroupKeys(rows, instruction);
    GroupKeys(pairs);
    GroupAccumulators(pairs);
    var g := Group(pairs);
    forall i | 0 <= i < |children|
      ensures children[i].name != ""
    {
      assert children[i].name == Keys(g)[i];
      assert Keys(g)[i] in Keys(g);
      var r :| 0 <= r < |pairs| && Keys(pairs)[r] == children[i].name;
      assert Keys(pairs)[r] == ParentLabel(rows[r], instruction.groupBy);
    }
  }

  /**
   * The hierarchy always sums: it depends on the instruction's group-by and value
   * columns only, never on its aggregation or its chart kind.
   */
  lemma SunburstIgnoresAggregation(rows: seq<Row>, i1: Instruction, i2: Instruction)
    requires i1.groupBy == i2.groupBy && i1.column == i2.column
    ensures SunburstOf(rows, i1) == SunburstOf(rows, i2)
  {
    assert SunburstPairs(rows, i1) == SunburstPairs(rows, i2);
  }

  /** Labels lifted to the flat result's keys. */
  function Wrap<V>(s: seq<(string, V)>): seq<(Option<string>, V)> {
    seq(|s|, i requires 0 <= i < |s| => (Some(s[i].0), s[i].1))
  }

  lemma {:induction false} IndexOfWrap<V>(g: seq<(string, V)>, k: string)
    ensures IndexOf(Wrap(g), Some(k)) == IndexOf(g, k)
    decreases |g|
  {
    if g != [] {
      assert Wrap(g)[1..] == Wrap(g[1..]);
      IndexOfWrap(g[1..], k);
    }
  }

  /** Folding one pair commutes with lifting the labels. */
  lemma WrapAdd(g: seq<(string, Acc)>, k: string, v: real)
    ensures Wrap(Add(g, k, v)) == Add(Wrap(g), Some(k), v)
  {
    IndexOfWrap(g, k);
    match IndexOf(g, k)
    case Some(j) =>
      assert Wrap(Add(g, k, v)) == Wrap(g)[j := (Some(k), Acc(g[j].1.total + v, g[j].1.count + 1))];
    case None =>
      assert Wrap(Add(g, k, v)) == Wrap(g) + [(Some(k), Acc(v, 1))];
  }

  /** Grouping commutes with lifting the labels, since `Some` is injective. */
  lemma {:induction false} GroupWrap(pairs: seq<(string, real)>)
    ensures Group(Wrap(pairs)) == Wrap(Group(pairs))
    decreases |pairs|
  {
    if pairs != [] {
      var n := |pairs| - 1;
      var init, w := pairs[..n], Wrap(pairs);
      assert w[..n] == Wrap(init);
      assert w[n] == (Some(pairs[n].0), pairs[n].1);
      assert Group(w) == Add(Group(w[..n]), w[n].0, w[n].1);
      assert Group(pairs) == Add(Group(init), pairs[n].0, pairs[n].1);
      GroupWrap(init);
      WrapAdd(Group(init), pairs[n].0, pairs[n].1);
    }
  }

  /**
   * When every row has a non-empty group-by cell, the sunburst's children are
   * the entries of the unsorted flat sum, in the same order, each value clamped
   * below at 0.1.
   */
  lemma SunburstAgreesWithSum(rows: seq<Row>, instruction: Instruction)
    requires forall r :: 0 <= r < |rows| ==>
      Cell(rows[r], instruction.groupBy).Some? && Cell(rows[r], instruction.groupBy).value != ""
    ensures var flat := Transformed(rows, instruction.(aggregation := Sum), Unsorted);
      var children := SunburstOf(rows, instruction).children;
      && |children| == |flat|
      && forall i :: 0 <= i < |flat| ==> flat[i].0 == Some(children[i].name) && children[i].value == Clamp(flat[i].1)
  {
    var pairs := SunburstPairs(rows, instruction);
    assert FlatPairs(rows, instruction.(aggregation := Sum)) == Wrap(pairs);
    GroupWrap(pairs);
    GroupAccumulators(Wrap(pairs));
  }
}
