/**
 * The component's state and its "Generate" handler, `handleTransform`
 * (src/App.js:151-257): the empty-data guard, the manual chart override, the
 * query history capped at ten entries, and the choice between the sunburst
 * hierarchy and the flat aggregation.
 */
module App {
  import opened Text
  import opened Resolver
  import opened Sorting
  import opened Engine
  import opened Sunburst

  /** What the chart area shows: nothing yet, a flat chart of entries, or a sunburst. */
  datatype Rendered =
    | NoChart
    | FlatChart(instruction: Instruction, entries: seq<(Key, real)>)
    | SunburstChart(tree: Hierarchy)

  const HISTORY_LIMIT: nat := 10
  const INITIAL_QUERY: string := "Show sales by region"

  /** `[query, ...prev.slice(0, 9)]`. */
  function PushHistory(query: string, history: seq<string>): (r: seq<string>)
    ensures |r| <= HISTORY_LIMIT && |r| == if |history| < HISTORY_LIMIT then |history| + 1 else HISTORY_LIMIT
    ensures r[0] == query && r[1..] <= history
  {
    [query] + history[..if |history| < HISTORY_LIMIT - 1 then |history| else HISTORY_LIMIT - 1]
  }

  function Reverse<T>(s: seq<T>): (r: seq<T>)
    ensures |r| == |s| && forall i :: 0 <= i < |s| ==> r[i] == s[|s| - 1 - i]
  {
    if s == [] then [] else [s[|s| - 1]] + Reverse(s[..|s| - 1])
  }

  /** The history after generating with each of `queries` in turn, starting from `history`. */
  function Replay(history: seq<string>, queries: seq<string>): seq<string>
    decreases |queries|
  {
    if queries == [] then history
    else PushHistory(queries[|queries| - 1], Replay(history, queries[..|queries| - 1]))
  }

  function Min(a: nat, b: nat): nat {
    if a <= b then a else b
  }

  /**
   * The history always holds the most recent queries, newest first: after any
   * run of generations it is the newest ten of the queries followed by the old
   * history.
   */
  lemma {:induction false} ReplayKeepsNewest(history: seq<string>, queries: seq<string>)
    requires |history| <= HISTORY_LIMIT
    ensures Replay(history, queries) == (Reverse(queries) + history)[..Min(HISTORY_LIMIT, |queries| + |history|)]
    decreases |queries|
  {
    if queries != [] {
      var init, q := queries[..|queries| - 1], queries[|queries| - 1];
      ReplayKeepsNewest(history, init);
      var before := Reverse(init) + history;
      assert Reverse(queries) + history == [q] + before;
      var n := Min(HISTORY_LIMIT, |init| + |history|);
      PushTruncated(q, before, n);
    }
  }

  /** Pushing onto a history cut at `n` entries is the longer history cut at one more, capped at ten. */
  lemma PushTruncated(q: string, s: seq<string>, n: nat)
    requires n <= |s| && n <= HISTORY_LIMIT
    ensures PushHistory(q, s[..n]) == ([q] + s)[..Min(HISTORY_LIMIT, n + 1)]
  {
    var m := Min(HISTORY_LIMIT - 1, n);
    assert PushHistory(q, s[..n]) == [q] + s[..m];
    assert ([q] + s)[..m + 1] == [q] + s[..m];
  }

  /** The instruction `handleTransform` acts on: the parsed one, with the chart replaced by a manual choice. */
  function EffectiveInstruction(query: string, columns: seq<string>, manual: bool, chartType: ChartKind): Instruction {
    var parsed := Resolve(query, columns);
    if manual then parsed.(chart := chartType) else parsed
  }

  /** A manual chart choice replaces the chart and nothing else of the parsed instruction. */
  lemma ManualOverride(query: string, columns: seq<string>, manual: bool, chartType: ChartKind)
    ensures var r, parsed := EffectiveInstruction(query, columns, manual, chartType), Resolve(query, columns);
      && r.groupBy == parsed.groupBy && r.column == parsed.column && r.aggregation == parsed.aggregation
      && r.chart == (if manual then chartType else DetectChart(Lower(query)))
  {
  }

  /** What the handler renders for an instruction: a sunburst hierarchy, or the flat aggregation. */
  function Render(data: seq<Row>, instruction: Instruction, sortOrder: SortOrder): (r: Rendered)
    ensures r.SunburstChart? <==> instruction.chart == Sunburst
    ensures r != NoChart
  {
    if instruction.chart == Sunburst then SunburstChart(SunburstOf(data, instruction))
    else FlatChart(instruction, Transformed(data, instruction, sortOrder))
  }

  /** The component's state (src/App.js:41-47). */
  class EnhancedChartApp {
    var query: string
    var data: seq<Row>
    var queryHistory: seq<string>
    var chartType: ChartKind
    var isManualChartSelected: bool
    var sortOrder: SortOrder
    var renderedChart: Rendered

    ghost predicate Valid()
      reads this
    {
      |queryHistory| <= HISTORY_LIMIT
    }

    constructor()
      ensures Valid()
      ensures query == INITIAL_QUERY && data == [] && queryHistory == []
      ensures chartType == Bar && !isManualChartSelected && sortOrder == Unsorted && renderedChart == NoChart
    {
      query := INITIAL_QUERY;
      data := [];
      queryHistory := [];
      chartType := Bar;
      isManualChartSelected := false;
      sortOrder := Unsorted;
      renderedChart := NoChart;
    }

    /** The query text box (and the speech transcript) replace the query. */
    method SetQuery(text: string)
      modifies this
      ensures query == text
      ensures data == old(data) && queryHistory == old(queryHistory) && chartType == old(chartType)
      ensures isManualChartSelected == old(isManualChartSelected) && sortOrder == old(sortOrder)
      ensures renderedChart == old(renderedChart)
    {
      query := text;
    }

    /** A parsed upload replaces the data. */
    method SetData(rows: seq<Row>)
      modifies this
      ensures data == rows
      ensures query == old(query) && queryHistory == old(queryHistory) && chartType == old(chartType)
      ensures isManualChartSelected == old(isManualChartSelected) && sortOrder == old(sortOrder)
      ensures renderedChart == old(renderedChart)
    {
      data := rows;
    }

    /** Choosing a chart in the selector sets it and marks it as a manual choice, for good. */
    method SelectChart(kind: ChartKind)
      modifies this
      ensures chartType == kind && isManualChartSelected
      ensures query == old(query) && data == old(data) && queryHistory == old(queryHistory)
      ensures sortOrder == old(sortOrder) && renderedChart == old(renderedChart)
    {
      chartType := kind;
      isManualChartSelected := true;
    }

    /** The sort selector. */
    method SelectSortOrder(order: SortOrder)
      modifies this
      ensures sortOrder == order
      ensures query == old(query) && data == old(data) && queryHistory == old(queryHistory)
      ensures chartType == old(chartType) && isManualChartSelected == old(isManualChartSelected)
      ensures renderedChart == old(renderedChart)
    {
      sortOrder := order;
    }

    /**
     * "Generate": with no data nothing changes; otherwise the query is pushed
     * onto the history and the chart for the effective instruction is rendered.
     */
    method HandleTransform()
      requires Valid()
      modifies this
      ensures Valid()
      ensures query == old(query) && data == old(data) && chartType == old(chartType)
      ensures isManualChartSelected == old(isManualChartSelected) && sortOrder == old(sortOrder)
      ensures old(data) == [] ==> queryHistory == old(queryHistory) && renderedChart == old(renderedChart)
      ensures old(data) != [] ==>
        && queryHistory == PushHistory(old(query), old(queryHistory))
        && renderedChart == Render(data, EffectiveInstruction(query, data[0].keys, isManualChartSelected, chartType), sortOrder)
    {
      if |data| == 0 {
        return;
      }
      var parsed := ParseInstruction(query, data[0].keys);
      if isManualChartSelected {
        parsed := parsed.(chart := chartType);
      }
      queryHistory := [query] + queryHistory[..if |queryHistory| < 9 then |queryHistory| else 9];

      if parsed.chart == Sunburst {
        var sunburstData := BuildSunburst(data, parsed);
        renderedChart := SunburstChart(sunburstData);
        return;
      }

      var grouped := ApplyTransformation(data, parsed, sortOrder);
      renderedChart := FlatChart(parsed, grouped);
    }
  }
}
