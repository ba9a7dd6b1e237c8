# Chart-instruction engine

A model of the engine inside the `EnhancedChartApp` component (`src/App.js`). The engine turns a free-text query and the uploaded rows into chart data in three steps.

1. `parseInstruction` resolves the query and the column names into an instruction with four fields:
   - a chart kind, chosen by keywords in a fixed priority order;
   - an aggregation (sum, average or count);
   - a group-by column;
   - a value column.
2. `applyTransformation` groups the rows by their group-by cell, in first-seen order, and reduces each group by the aggregation. For "asc" or "desc" it then sorts the entries stably by value.
3. For a sunburst, `handleTransform` builds instead a two-level hierarchy: one child per label under a root named "Root", each child holding its label's sum clamped below at 0.1.

`handleTransform` also does the bookkeeping:
- it ignores a click when no data is loaded;
- a manual chart choice overrides the detected kind;
- the query history is prepended and capped at ten entries.

Modules, one per file:

- `Options`: the `Option` type. `None` stands for JavaScript's `null` and `undefined`.
- `Text`: ASCII lower-casing, substring search, and the two predicates that replace the regular expressions: "has an ASCII letter" and "names a value-like column".
- `Numbers`: `parseFloat(s) || 0` as a function to `real`. It reads leading white space, a sign, digits, a fraction and an exponent.
- `Resolver`: `parseInstruction`, both as the function `Resolve` and as the step-by-step method `ParseInstruction`. It also holds the keyword table and the column-attribution fold.
- `Grouping`: the first-seen grouping fold shared by both output shapes, and what it computes.
- `Sorting`: the stable sort of the entries by value.
- `Engine`: `applyTransformation`. Rows are `Row(keys, cells)`, where `keys` is the order in which `Object.keys` lists the row's fields.
- `Sunburst`: the hierarchy branch.
- `App`: the component's state as the class `EnhancedChartApp`, its setters and `handleTransform`.

Values are exact reals. A row that lacks the group-by cell is grouped under the label `None`. In JavaScript that label would be the string "undefined".

The sunburst branch always sums, even when the instruction asks for an average or a count. The model follows the code here (`Sunburst.SunburstIgnoresAggregation`).

## Model

| member | source | states |
|---|---|---|
| Text.Lower | src/App.js:72 | lower-casing keeps the length and maps every character through ASCII lower-casing |
| Numbers.NonNumericIsZero | src/App.js:125 | `parseFloat` finds a number exactly when the cell starts numerically after white space and a sign; any other cell counts as 0 |
| Numbers.ParseNegative | src/App.js:125 | a '-' followed by neither white space nor another sign negates the number read from the rest of the cell ("-12", "-.5", "-e5") |
| Numbers.ParseIntString | src/App.js:125 | a cell holding the decimal numeral of an integer is read as that integer |
| Resolver.FirstMatchSpec | src/App.js:80-94 | first match wins: the detected kind is the kind of a matching rule with no matching rule before it, or the default when no rule matches |
| Resolver.DetectChartFollowsRules | src/App.js:77-94 | the if-chain on the query equals the first matching rule of the 13-rule table (heatmap, grouped, stacked+bar, stacked+line, tree, sunburst, pie, line, bar, doughnut, radar, polar, bubble), defaulting to bar |
| Resolver.FirstRuleTests | src/App.js:80-88 | rules 0 to 6 of the table (heatmap, grouped, stacked+bar, stacked+line, tree, sunburst, pie) test exactly the keywords of their line of the chain |
| Resolver.LastRuleTests | src/App.js:89-94 | rules 7 to 12 of the table (line, bar, doughnut, radar, polar, bubble) test exactly the keywords of their line of the chain |
| Resolver.NoKeywordMeansBar | src/App.js:77-94 | a query that contains no chart keyword yields a bar chart |
| Resolver.ResolvedAggregation | src/App.js:75-98 | the aggregation is average iff the query has "average" or "avg"; it is count iff it has neither but has "count"; otherwise it is sum. It ignores the chart kind |
| Resolver.AttributeGroupBy | src/App.js:100-106 | the loop's group-by is the last column mentioned as "by col", and it is unset iff there is none |
| Resolver.AttributeColumn | src/App.js:100-106 | the loop's value column is set (truthy) iff some non-empty column is mentioned other than as "by col"; it is then the first such column, later ones never replace it, and it is always a plainly mentioned column |
| Resolver.AttributeIgnoresUnmentioned | src/App.js:100-106 | a column whose name is not in the query changes neither field, wherever it stands in the column list |
| Resolver.FindFirst | src/App.js:109-114 | `find` returns nothing iff no column satisfies the test, and otherwise the first column that does |
| Resolver.ResolvedColumnsExist | src/App.js:108-116 | the resolved group-by and value columns are columns of the data; group-by is set whenever a column name has a letter; the value column is set unless the aggregation is a count or there is a single column |
| Resolver.ParseInstruction | src/App.js:71-119 | the step-by-step field updates, with the column loop's invariant, produce `Resolve(nl, columns)` |
| Grouping.IndexOf | src/App.js:126 | the lookup of a key's accumulator finds none iff the key has no entry, and otherwise the entry for that key |
| Grouping.GroupKeys | src/App.js:122-129 | after grouping, no key has two entries, and the keys are exactly the keys of the rows |
| Grouping.GroupAccumulators | src/App.js:122-129 | every accumulator's total is the sum of its key's values, and its count is the number of rows with that key, at least 1 |
| Grouping.GroupFirstSeenOrder | src/App.js:122-129 | the entries come in the order in which their keys first occur |
| Grouping.GroupShape | src/App.js:122-129 | the keys and counts of the grouping depend only on the keys of the rows, never on their values |
| Sorting.StableSortSpec | src/App.js:138-146 | the comparator sort yields a sorted permutation, and entries with equal values keep their relative order |
| Sorting.SortEntriesSpec | src/App.js:138-146 | "asc" gives non-decreasing values and "desc" non-increasing ones; either way the result is a stable permutation; no sort order leaves the entries unchanged |
| Engine.GroupRows | src/App.js:122-129 | the grouping loop, which creates `{ total: 0, count: 0 }` for a new key and then adds the value and one, computes the grouping of the rows' (group-by cell, coerced value) pairs |
| Engine.ReduceGroups | src/App.js:131-136 | the reduction loop emits, for each group in order, total/count for average, count for count and total otherwise |
| Engine.ApplyTransformation | src/App.js:121-149 | grouping, reduction and the optional sort compute `Transformed(data, instruction, sortOrder)` |
| Engine.FlatResultUnsorted | src/App.js:122-136 | without a sort: one entry per distinct group-by cell, in first-seen order; each value is the sum of the coerced value cells (sum), that sum over the group's row count (average), or that count (count) |
| Engine.FlatResultSorted | src/App.js:138-146 | with a sort order the result is the unsorted result sorted by value in that direction, as a stable permutation |
| Engine.AverageTimesCountIsSum | src/App.js:133-135 | for each group, the average times the count equals the sum, and all three share the same keys in the same order |
| Engine.CountIgnoresValues | src/App.js:124-135 | a count depends only on the group-by cells, not on the value column or its contents |
| Sunburst.ParentLabel | src/App.js:161 | a missing or empty group-by cell gives the label "Unknown"; any other cell is its own label; no label is empty |
| Sunburst.Clamp | src/App.js:171 | `Math.max(value, 0.1)` is at least 0.1 and at least the value, and it is one of the two |
| Sunburst.SumFoldIsTotals | src/App.js:158-166 | the sunburst's running sums per label equal the totals of the shared grouping pass |
| Sunburst.SumByLabel | src/App.js:158-166 | the accumulation loop, which starts a new label at 0 and then adds the value, computes those totals |
| Sunburst.BuildSunburst | src/App.js:157-177 | the branch builds `SunburstOf(data, parsed)`: the totals mapped to `{ name, id, value }` children under "Root" |
| Sunburst.SunburstNames | src/App.js:157-176 | the root is "Root"; there is one child per distinct row label, no two children share a name, and they come in first-seen order |
| Sunburst.SunburstValues | src/App.js:160-172 | each child has a non-empty name equal to its id, and its value is its label's sum clamped below at 0.1, hence at least 0.1 |
| Sunburst.SunburstIgnoresAggregation | src/App.js:157-166 | the hierarchy depends on the group-by and value columns only, not on the aggregation or chart kind |
| Sunburst.SunburstAgreesWithSum | src/App.js:158-172 | when every row has a non-empty group-by cell, the children are the entries of the unsorted flat sum, in the same order, with values clamped below at 0.1 |
| App.PushHistory | src/App.js:155 | the new history starts with the query, continues with a prefix of the old history, and holds min(old length + 1, 10) entries |
| App.ReplayKeepsNewest | src/App.js:155 | after any run of generations the history is the newest queries, newest first, followed by the old history, cut at 10 |
| App.ManualOverride | src/App.js:153 | a manual chart choice replaces the detected chart kind and leaves group-by, value column and aggregation as parsed |
| App.Render | src/App.js:157-256 | the sunburst branch is taken iff the effective chart kind is sunburst; either way a chart is rendered |
| App.EnhancedChartApp.constructor | src/App.js:41-47 | initial state: query "Show sales by region", no data, empty history, bar, no manual choice, no sort, nothing rendered |
| App.EnhancedChartApp.SetQuery | src/App.js:273 | editing the query replaces it and nothing else |
| App.EnhancedChartApp.SetData | src/App.js:56 | a parsed upload replaces the data and nothing else |
| App.EnhancedChartApp.SelectChart | src/App.js:287-290 | choosing a chart sets the kind and marks it as a manual choice |
| App.EnhancedChartApp.SelectSortOrder | src/App.js:310 | choosing a sort order replaces it and nothing else |
| App.EnhancedChartApp.HandleTransform | src/App.js:151-256 | with no data nothing changes. Otherwise the query is pushed onto the capped history and the chart of the effective instruction is rendered. Query, data, chart choice and sort order are unchanged, and the history never exceeds ten entries |

## Left out

- File upload: Papa.parse's CSV parsing (src/App.js:50-58) is a foreign library. The model starts from parsed rows (`SetData`).
- Speech input: webkitSpeechRecognition (src/App.js:60-69) is browser I/O. Its effect, replacing the query, is `SetQuery`.
- Presentation (src/App.js:179-256, 259-335) is not modelled:
  - the JSX and the chart widgets;
  - the heatmap and treemap adapters;
  - the `chartMap` dispatch and its fallback to bar;
  - the dataset label and colours.
  
  The rendered flat chart records only the instruction and the entries it was drawn from.
- React's asynchronous state updates are not modelled. Each setter call is an immediate field assignment.
- Numbers.ParseNum: parses into exact reals. It does not model:
  - IEEE-754 rounding;
  - overflow to `Infinity`;
  - the literals "Infinity" and "-Infinity", which it reads as 0;
  - NaN, which arises when infinite values are summed.
- Text.Lower: lower-cases ASCII letters only. `toLowerCase` also maps other Unicode letters.
- Numbers.TrimStart: skips ASCII white space only. `parseFloat` also skips Unicode spaces.
- Engine.FlatResultUnsorted: the grouped data (`grouped`, `finalData`, src/App.js:122-146) is an insertion-ordered association list. JavaScript objects differ in three ways that this list does not reproduce:
  - they enumerate integer-like keys such as "2019" first, in numeric order;
  - they coerce a missing cell to the key "undefined", which merges with a cell that holds that text, while here a missing cell is the separate label `None`;
  - a cell that names an inherited `Object.prototype` member ("constructor", "toString", "valueOf", "hasOwnProperty", "__proto__", and so on) finds that member at src/App.js:126, so no accumulator is created, and `Object.entries` at line 132 then leaves the label out; the model gives such a label its own entry.
- Engine.FlatResultSorted: `Object.fromEntries` at src/App.js:139-145 puts integer-like keys back first, in numeric order, so in the source a sort by value does not reorder those labels; the model keeps the sorted order.
- Sunburst.SunburstNames: `hierarchyData` (src/App.js:158-168) is a JavaScript object, modelled by the same insertion-ordered list, so the children of integer-like labels come first in the source but in first-seen order here, and a prototype-named label is handled as described next.
- Sunburst.SunburstValues: for a label that names an inherited `Object.prototype` member, `hierarchyData[label] += value` at src/App.js:164-165 appends the value to the member's text, so `Math.max` at line 171 gives NaN; the model's value of at least 0.1 does not hold for such labels.
- Sunburst.SunburstAgreesWithSum: holds for the modelled lists; for prototype-named labels the source's two paths differ (the flat path drops the label, the sunburst gives NaN).
- App.Render: the rendered chart does not model the widget chosen per chart kind. Grouped bar, stacked bar and stacked line fall back to the plain bar widget.
