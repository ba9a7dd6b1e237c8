/**
 * The instruction resolver, `parseInstruction` (src/App.js:71-119): from a
 * free-text query and the column names of the data it resolves the chart
 * kind, the aggregation, the group-by column and the value column.
 */
module Resolver {
  import opened Options
  import opened Text

  datatype ChartKind =
    | Bar | GroupedBar | StackedBar | Line | StackedLine | Pie | Doughnut
    | Radar | PolarArea | Bubble | Heatmap | Treemap | Sunburst

  datatype Aggregation = Sum | Average | Count

  /** The instruction record; `None` stands for both `null` and `undefined`. */
  datatype Instruction = Instruction(
    groupBy: Option<string>,
    aggregation: Aggregation,
    column: Option<string>,
    chart: ChartKind)

  /** JavaScript truthiness of a string-or-null field: null and "" are falsy. */
  predicate Truthy(field: Option<string>) {
    field.Some? && field.value != ""
  }

  // ---------------------------------------------------------------------------
  // Chart-kind detection (src/App.js:77-94)
  // ---------------------------------------------------------------------------

  /** The keyword chain of the source, tested in order; the first match wins. */
  function DetectChart(lower: string): ChartKind {
    if Contains(lower, "heatmap") then Heatmap
    else if Contains(lower, "grouped") then GroupedBar
    else if Contains(lower, "stacked") && Contains(lower, "bar") then StackedBar
    else if Contains(lower, "stacked") && Contains(lower, "line") then StackedLine
    else if Contains(lower, "tree") then Treemap
    else if Contains(lower, "sunburst") then Sunburst
    else if Contains(lower, "pie") then Pie
    else if Contains(lower, "line") then Line
    else if Contains(lower, "bar") then Bar
    else if Contains(lower, "doughnut") then Doughnut
    else if Contains(lower, "radar") then Radar
    else if Contains(lower, "polar") then PolarArea
    else if Contains(lower, "bubble") then Bubble
    else Bar
  }

  /** A detection rule: when every keyword occurs in the query, the chart is `kind`. */
  datatype Rule = Rule(keywords: seq<string>, kind: ChartKind)

  /** The same detection as a table, in priority order. */
  const CHART_RULES: seq<Rule> := [
    Rule(["heatmap"], Heatmap),
    Rule(["grouped"], GroupedBar),
    Rule(["stacked", "bar"], StackedBar),
    Rule(["stacked", "line"], StackedLine),
    Rule(["tree"], Treemap),
    Rule(["sunburst"], Sunburst),
    Rule(["pie"], Pie),
    Rule(["line"], Line),
    Rule(["bar"], Bar),
    Rule(["doughnut"], Doughnut),
    Rule(["radar"], Radar),
    Rule(["polar"], PolarArea),
    Rule(["bubble"], Bubble)
  ]

  predicate Matches(lower: string, rule: Rule) {
    forall k :: k in rule.keywords ==> Contains(lower, k)
  }

  /** The kind of the first rule that matches, or `default` when none does. */
  function FirstMatch(rules: seq<Rule>, lower: string, default: ChartKind): ChartKind {
    if rules == [] then default
    else if Matches(lower, rules[0]) then rules[0].kind
    else FirstMatch(rules[1..], lower, default)
  }

  /** First match wins: the result is the kind of a matching rule with no matching rule before it, or the default when no rule matches. */
  lemma {:induction false} FirstMatchSpec(rules: seq<Rule>, lower: string, default: ChartKind)
    ensures var r := FirstMatch(rules, lower, default);
      || (exists i :: 0 <= i < |rules| && Matches(lower, rules[i]) && r == rules[i].kind
            && forall j :: 0 <= j < i ==> !Matches(lower, rules[j]))
      || (r == default && forall i :: 0 <= i < |rules| ==> !Matches(lower, rules[i]))
  {
    if rules != [] && !Matches(lower, rules[0]) {
      FirstMatchSpec(rules[1..], lower, default);
      assert forall i :: 0 < i < |rules| ==> rules[i] == rules[1..][i - 1];
      var r := FirstMatch(rules[1..], lower, default);
      if i :| 0 <= i < |rules| - 1 && Matches(lower, rules[1..][i]) && r == rules[1..][i].kind
               && forall j :: 0 <= j < i ==> !Matches(lower, rules[1..][j]) {
        assert Matches(lower, rules[i + 1]) && forall j :: 0 <= j < i + 1 ==> !Matches(lower, rules[j]);
      }
    }
  }

  /** Evaluating the table from rule `i` on: rule `i` decides, or the rules after it do. */
  lemma FirstMatchFrom(rules: seq<Rule>, lower: string, default: ChartKind, i: nat)
    requires i < |rules|
    ensures FirstMatch(rules[i..], lower, default)
         == if Matches(lower, rules[i]) then rules[i].kind else FirstMatch(rules[i + 1..], lower, default)
  {
    assert rules[i..][1..] == rules[i + 1..];
  }

  /** What rules 0 to 6 of the table test. */
  lemma FirstRuleTests(lower: string)
    ensures Matches(lower, CHART_RULES[0]) == Contains(lower, "heatmap")
    ensures Matches(lower, CHART_RULES[1]) == Contains(lower, "grouped")
    ensures Matches(lower, CHART_RULES[2]) == (Contains(lower, "stacked") && Contains(lower, "bar"))
    ensures Matches(lower, CHART_RULES[3]) == (Contains(lower, "stacked") && Contains(lower, "line"))
    ensures Matches(lower, CHART_RULES[4]) == Contains(lower, "tree")
    ensures Matches(lower, CHART_RULES[5]) == Contains(lower, "sunburst")
    ensures Matches(lower, CHART_RULES[6]) == Contains(lower, "pie")
  {
    MatchesOne(lower, CHART_RULES[0]);
    MatchesOne(lower, CHART_RULES[1]);
    MatchesTwo(lower, CHART_RULES[2]);
    MatchesTwo(lower, CHART_RULES[3]);
    MatchesOne(lower, CHART_RULES[4]);
    MatchesOne(lower, CHART_RULES[5]);
    MatchesOne(lower, CHART_RULES[6]);
  }

  /** What rules 7 to 12 of the table test. */
  lemma LastRuleTests(lower: string)
    ensures Matches(lower, CHART_RULES[7]) == Contains(lower, "line")
    ensures Matches(lower, CHART_RULES[8]) == Contains(lower, "bar")
    ensures Matches(lower, CHART_RULES[9]) == Contains(lower, "doughnut")
    ensures Matches(lower, CHART_RULES[10]) == Contains(lower, "radar")
    ensures Matches(lower, CHART_RULES[11]) == Contains(lower, "polar")
    ensures Matches(lower, CHART_RULES[12]) == Contains(lower, "bubble")
  {
    MatchesOne(lower, CHART_RULES[7]);
    MatchesOne(lower, CHART_RULES[8]);
    MatchesOne(lower, CHART_RULES[9]);
    MatchesOne(lower, CHART_RULES[10]);
    MatchesOne(lower, CHART_RULES[11]);
    MatchesOne(lower, CHART_RULES[12]);
  }

  /** A one-keyword rule matches exactly when its keyword occurs. */
  lemma MatchesOne(lower: string, rule: Rule)
    requires |rule.keywords| == 1
    ensures Matches(lower, rule) == Contains(lower, rule.keywords[0])
  {
    assert rule.keywords[0] in rule.keywords;
  }

  /** A two-keyword rule matches exactly when both keywords occur. */
  lemma MatchesTwo(lower: string, rule: Rule)
    requires |rule.keywords| == 2
    ensures Matches(lower, rule) == (Contains(lower, rule.keywords[0]) && Contains(lower, rule.keywords[1]))
  {
    assert rule.keywords[0] in rule.keywords && rule.keywords[1] in rule.keywords;
  }

  /** Rules 0 to 2 of the table, then the rest. */
  lemma {:induction false} HeadRules(lower: string)
    ensures FirstMatch(CHART_RULES, lower, Bar) ==
      if Contains(lower, "heatmap") then Heatmap
      else if Contains(lower, "grouped") then GroupedBar
      else if Contains(lower, "stacked") && Contains(lower, "bar") then StackedBar
      else FirstMatch(CHART_RULES[3..], lower, Bar)
  {
    FirstRuleTests(lower);
    assert CHART_RULES[0..] == CHART_RULES;
    FirstMatchFrom(CHART_RULES, lower, Bar, 0);
    FirstMatchFrom(CHART_RULES, lower, Bar, 1);
    FirstMatchFrom(CHART_RULES, lower, Bar, 2);
  }

  /** Rules 3 and 4 of the table, then the rest. */
  lemma {:induction false} StackedLineAndTreeRules(lower: string)
    ensures FirstMatch(CHART_RULES[3..], lower, Bar) ==
      if Contains(lower, "stacked") && Contains(lower, "line") then StackedLine
      else if Contains(lower, "tree") then Treemap
      else FirstMatch(CHART_RULES[5..], lower, Bar)
  {
    FirstRuleTests(lower);
    FirstMatchFrom(CHART_RULES, lower, Bar, 3);
    FirstMatchFrom(CHART_RULES, lower, Bar, 4);
  }

  /** Rules 5 and 6 of the table, then the rest. */
  lemma {:induction false} SunburstAndPieRules(lower: string)
    ensures FirstMatch(CHART_RULES[5..], lower, Bar) ==
      if Contains(lower, "sunburst") then Sunburst
      else if Contains(lower, "pie") then Pie
      else FirstMatch(CHART_RULES[7..], lower, Bar)
  {
    FirstRuleTests(lower);
    FirstMatchFrom(CHART_RULES, lower, Bar, 5);
    FirstMatchFrom(CHART_RULES, lower, Bar, 6);
  }

  /** Rules 7 and 8 of the table, then the rest. */
  lemma {:induction false} LineAndBarRules(lower: string)
    ensures FirstMatch(CHART_RULES[7..], lower, Bar) ==
      if Contains(lower, "line") then Line
      else if Contains(lower, "bar") then Bar
      else FirstMatch(CHART_RULES[9..], lower, Bar)
  {
    LastRuleTests(lower);
    FirstMatchFrom(CHART_RULES, lower, Bar, 7);
    FirstMatchFrom(CHART_RULES, lower, Bar, 8);
  }

  /** Rules 9 to 12 of the table, then the default. */
  lemma {:induction false} TailRules(lower: string)
    ensures FirstMatch(CHART_RULES[9..], lower, Bar) ==
      if Contains(lower, "doughnut") then Doughnut
      else if Contains(lower, "radar") then Radar
      else if Contains(lower, "polar") then PolarArea
      else if Contains(lower, "bubble") then Bubble
      else Bar
  {
    LastRuleTests(lower);
    FirstMatchFrom(CHART_RULES, lower, Bar, 9);
    FirstMatchFrom(CHART_RULES, lower, Bar, 10);
    FirstMatchFrom(CHART_RULES, lower, Bar, 11);
    FirstMatchFrom(CHART_RULES, lower, Bar, 12);
    assert CHART_RULES[13..] == [];
  }

  /** The keyword chain is exactly "first matching rule of the table, else bar". */
  lemma {:induction false} DetectChartFollowsRules(lower: string)
    ensures DetectChart(lower) == FirstMatch(CHART_RULES, lower, Bar)
  {
    HeadRules(lower);
    StackedLineAndTreeRules(lower);
    SunburstAndPieRules(lower);
    LineAndBarRules(lower);
    TailRules(lower);
  }

  /** The words any of which would select a chart kind other than the default. */
  const CHART_WORDS: seq<string> :=
    ["heatmap", "grouped", "tree", "sunburst", "pie", "line", "bar", "doughnut", "radar", "polar", "bubble"]

  /** A query that names no chart keyword always yields a bar chart. */
  lemma NoKeywordMeansBar(lower: string)
    requires forall w :: w in CHART_WORDS ==> !Contains(lower, w)
    ensures DetectChart(lower) == Bar
  {
  }

  // ---------------------------------------------------------------------------
  // Aggregation detection (src/App.js:75, 96-98)
  // ---------------------------------------------------------------------------

  function DetectAggregation(lower: string): Aggregation {
    if Contains(lower, "average") || Contains(lower, "avg") then Average
    else if Contains(lower, "count") then Count
    else Sum
  }

  // ---------------------------------------------------------------------------
  // Column attribution (src/App.js:100-106)
  // ---------------------------------------------------------------------------

  /** The two fields the column loop assigns. */
  datatype Attribution = Attribution(groupBy: Option<string>, column: Option<string>)

  /** The query mentions `col` as "by <col>". */
  predicate ByMention(lower: string, col: string) {
    Contains(lower, Lower(col)) && Contains(lower, "by " + Lower(col))
  }

  /** The query mentions `col`, but not as "by <col>". */
  predicate PlainMention(lower: string, col: string) {
    Contains(lower, Lower(col)) && !Contains(lower, "by " + Lower(col))
  }

  /** A plain mention that can fill the value column for good (the empty name is falsy). */
  predicate ValueMention(lower: string, col: string) {
    PlainMention(lower, col) && col != ""
  }

  /** One turn of the `columns.forEach` body. */
  function AttributeStep(lower: string, a: Attribution, col: string): Attribution {
    if ByMention(lower, col) then a.(groupBy := Some(col))
    else if PlainMention(lower, col) && !Truthy(a.column) then a.(column := Some(col))
    else a
  }

  /** The fields after the loop has visited `cols`, in order. */
  function Attribute(lower: string, cols: seq<string>): Attribution
    decreases |cols|
  {
    if cols == [] then Attribution(None, None)
    else AttributeStep(lower, Attribute(lower, cols[..|cols| - 1]), cols[|cols| - 1])
  }

  /** One turn of the loop sets the group-by exactly when it meets a "by <col>" mention. */
  lemma StepGroupBy(lower: string, a: Attribution, col: string)
    ensures AttributeStep(lower, a, col).groupBy == if ByMention(lower, col) then Some(col) else a.groupBy
  {
  }

  /** The group-by stays unset exactly when no column is mentioned as "by <col>". */
  lemma {:induction false} GroupByUnset(lower: string, cols: seq<string>)
    ensures Attribute(lower, cols).groupBy.None? <==> forall i :: 0 <= i < |cols| ==> !ByMention(lower, cols[i])
    decreases |cols|
  {
    if cols != [] {
      var n := |cols| - 1;
      var init := cols[..n];
      GroupByUnset(lower, init);
      StepGroupBy(lower, Attribute(lower, init), cols[n]);
      assert forall i :: 0 <= i < n ==> init[i] == cols[i];
    }
  }

  /** A set group-by is a column mentioned as "by <col>" with no such mention after it. */
  lemma {:induction false} GroupByLast(lower: string, cols: seq<string>)
    ensures var g := Attribute(lower, cols).groupBy;
      g.Some? ==> exists i :: 0 <= i < |cols| && cols[i] == g.value && ByMention(lower, cols[i])
                    && forall j :: i < j < |cols| ==> !ByMention(lower, cols[j])
    decreases |cols|
  {
    if cols != [] {
      var n := |cols| - 1;
      var init := cols[..n];
      var g := Attribute(lower, cols).groupBy;
      StepGroupBy(lower, Attribute(lower, init), cols[n]);
      if !ByMention(lower, cols[n]) && g.Some? {
        GroupByLast(lower, init);
        var i :| 0 <= i < n && init[i] == g.value && ByMention(lower, init[i])
                 && forall j :: i < j < n ==> !ByMention(lower, init[j]);
        assert cols[i] == init[i];
        assert forall j :: i < j < |cols| ==> !ByMention(lower, cols[j]) by {
          assert forall j :: i < j < n ==> cols[j] == init[j];
        }
      }
    }
  }

  /** The loop's group-by is the LAST column mentioned as "by <col>", and unset when there is none. */
  lemma {:induction false} AttributeGroupBy(lower: string, cols: seq<string>)
    ensures var g := Attribute(lower, cols).groupBy;
      && (g.None? <==> forall i :: 0 <= i < |cols| ==> !ByMention(lower, cols[i]))
      && (g.Some? ==> exists i :: 0 <= i < |cols| && cols[i] == g.value && ByMention(lower, cols[i])
                         && forall j :: i < j < |cols| ==> !ByMention(lower, cols[j]))
  {
    GroupByUnset(lower, cols);
    GroupByLast(lower, cols);
  }

  /**
   * The loop's value column is the FIRST non-empty column mentioned other than as
   * "by <col>", and later mentions never replace it; whatever it holds is a plainly
   * mentioned column.
   */
  lemma {:induction false} AttributeColumn(lower: string, cols: seq<string>)
    ensures var c := Attribute(lower, cols).column;
      && (Truthy(c) <==> exists i :: 0 <= i < |cols| && ValueMention(lower, cols[i]))
      && (Truthy(c) ==> exists i :: 0 <= i < |cols| && cols[i] == c.value && ValueMention(lower, cols[i])
                           && forall j :: 0 <= j < i ==> !ValueMention(lower, cols[j]))
      && (c.Some? ==> c.value in cols && PlainMention(lower, c.value))
    decreases |cols|
  {
    if cols != [] {
      var init := cols[..|cols| - 1];
      AttributeColumn(lower, init);
      assert forall i :: 0 <= i < |init| ==> init[i] == cols[i];
      assert cols == init + [cols[|cols| - 1]];
    }
  }

  /** A column whose name does not occur in the query changes nothing, wherever it stands. */
  lemma {:induction false} AttributeIgnoresUnmentioned(lower: string, xs: seq<string>, c: string, ys: seq<string>)
    requires !Contains(lower, Lower(c))
    ensures Attribute(lower, xs + [c] + ys) == Attribute(lower, xs + ys)
    decreases |ys|
  {
    if ys == [] {
      assert (xs + [c] + ys)[..|xs|] == xs;
      assert xs + ys == xs;
    } else {
      var init := ys[..|ys| - 1];
      AttributeIgnoresUnmentioned(lower, xs, c, init);
      assert (xs + [c] + ys)[..|xs + [c] + ys| - 1] == xs + [c] + init;
      assert (xs + ys)[..|xs + ys| - 1] == xs + init;
    }
  }

  // ---------------------------------------------------------------------------
  // Fallbacks (src/App.js:108-116)
  // ---------------------------------------------------------------------------

  /** `cols.find(p)`: the first column satisfying `p`, or None (`undefined`). */
  function FindFirst(cols: seq<string>, p: string -> bool): (r: Option<string>)
    ensures r.None? <==> forall i :: 0 <= i < |cols| ==> !p(cols[i])
    ensures r.Some? ==> exists i :: 0 <= i < |cols| && cols[i] == r.value && p(cols[i])
                          && forall j :: 0 <= j < i ==> !p(cols[j])
  {
    if cols == [] then None
    else if p(cols[0]) then Some(cols[0])
    else
      var r := FindFirst(cols[1..], p);
      assert forall i :: 0 < i < |cols| ==> cols[i] == cols[1..][i - 1];
      r
  }

  /** `columns.find(sales|amount|…) || columns[1]`. */
  function ValueFallback(columns: seq<string>): Option<string> {
    match FindFirst(columns, IsValueLike)
    case Some(c) => Some(c)
    case None => if |columns| > 1 then Some(columns[1]) else None
  }

  /** What `parseInstruction(nl, columns)` returns. */
  function Resolve(nl: string, columns: seq<string>): Instruction {
    var lower := Lower(nl);
    var a := Attribute(lower, columns);
    var aggregation := DetectAggregation(lower);
    var groupBy := if Truthy(a.groupBy) then a.groupBy else FindFirst(columns, HasAsciiLetter);
    var column := if !Truthy(a.column) && aggregation != Count then ValueFallback(columns) else a.column;
    Instruction(groupBy, aggregation, column, DetectChart(lower))
  }

  /**
   * The fields of a resolved instruction name columns of the data: the group-by
   * column is set whenever some column has a letter in its name, and the value
   * column is set unless the aggregation is a count or there is a single column.
   */
  lemma ResolvedColumnsExist(nl: string, columns: seq<string>)
    ensures var r := Resolve(nl, columns);
      && (r.groupBy.Some? ==> r.groupBy.value in columns)
      && (r.column.Some? ==> r.column.value in columns)
      && ((exists i :: 0 <= i < |columns| && HasAsciiLetter(columns[i])) ==> Truthy(r.groupBy))
      && (r.aggregation != Count && |columns| >= 2 ==> r.column.Some?)
  {
    var lower := Lower(nl);
    AttributeGroupBy(lower, columns);
    AttributeColumn(lower, columns);
    var g := FindFirst(columns, HasAsciiLetter);
    if g.Some? {
      assert HasAsciiLetter(g.value);
    }
  }

  /** The aggregation depends on the words of the query alone, whatever the chart kind. */
  lemma ResolvedAggregation(nl: string, columns: seq<string>)
    ensures var lower := Lower(nl);
      var r := Resolve(nl, columns);
      && (r.aggregation == Average <==> Contains(lower, "average") || Contains(lower, "avg"))
      && (r.aggregation == Count <==> !Contains(lower, "average") && !Contains(lower, "avg") && Contains(lower, "count"))
  {
  }

  /** `parseInstruction`: sets the fields of a fresh record step by step, as the source does. */
  method ParseInstruction(nl: string, columns: seq<string>) returns (instruction: Instruction)
    ensures instruction == Resolve(nl, columns)
  {
    var lower := Lower(nl);
    instruction := Instruction(None, Sum, None, Bar);
    instruction := instruction.(chart := DetectChart(lower));

    if Contains(lower, "average") || Contains(lower, "avg") {
      instruction := instruction.(aggregation := Average);
    } else if Contains(lower, "count") {
      instruction := instruction.(aggregation := Count);
    }

    var i := 0;
    while i < |columns|
      invariant 0 <= i <= |columns|
      invariant Attribution(instruction.groupBy, instruction.column) == Attribute(lower, columns[..i])
      invariant instruction.aggregation == DetectAggregation(lower)
      invariant instruction.chart == DetectChart(lower)
    {
      var col := columns[i];
      var lowerCol := Lower(col);
      if Contains(lower, lowerCol) {
        if Contains(lower, "by " + lowerCol) {
          instruction := instruction.(groupBy := Some(col));
        } else if !Truthy(instruction.column) {
          instruction := instruction.(column := Some(col));
        }
      }
      assert columns[..i + 1][..i] == columns[..i];
      i := i + 1;
    }
    assert columns[..i] == columns;

    if !Truthy(instruction.groupBy) {
      instruction := instruction.(groupBy := FindFirst(columns, HasAsciiLetter));
    }

    if !Truthy(instruction.column) && instruction.aggregation != Count {
      var found := FindFirst(columns, IsValueLike);
      instruction := instruction.(column := if found.Some? then found else if |columns| > 1 then Some(columns[1]) else None);
    }
  }
}
