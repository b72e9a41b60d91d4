# p_table: the sales pivot, number formatting and order state

This project models the logic of p_table, a React/Redux app that shows Superstore orders as a pivot table. It models that logic in Dafny and proves properties of it. The modelled logic is:

- **The sales-by-state aggregator (`formatData`).**
  - It turns a list of orders into two things.
  - The first is the row structure: each category with its sorted, de-duplicated sub-categories.
  - The second is one numeric column per state, in sorted order, followed by a `"Grand Total"` column.
  - A column is a group of slots per category. Each group holds one slot per sub-category and then the category subtotal. The column ends with its own total as `[t]`.
  - The template for a column comes from `createColumnMap`.
  - The older version of the component has the same aggregator without the Grand Total column.
- **`camelToSentenceCase`**, which turns a field name into a column title.
- **`prettifyNumber`**, which groups digits with commas. The current version and the older one are both modelled.
- **The `Order` record**: supplied fields are merged over the defaults.
- **The orders reducer**: three actions over a `RemoteValue` record.
- **`RemoteValue.loaded()`**.

## How the model is organised

Each source file has its own module:

| module | source file |
|---|---|
| `Orders` | `src/models/order.ts` |
| `RemoteValues` | `src/lib/RemoteValue.ts` |
| `OrdersReducer` | `src/redux/reducers/orders.ts` |
| `PivotTable` | `src/components/PivotTable/index.tsx` |
| `PivotTableLegacy` | `src/components/PivotTable.tsx` |
| `SalesTable` and `SentenceCase` | `src/components/ProductSalesByStateTable/index.tsx` |
| `SalesTableLegacy` | `src/components/ProductSalesByStateTable.tsx` |

Shared pieces live in their own modules:

- `Wrappers` holds `Option`.
- `StringOrder` orders keys by code point, one `char` at a time. It also sorts and de-duplicates them, as Immutable's `toSet().sort()` does, and models `indexOf`.
- `Numerals` models `Number#toString` of integers and the comma-free view of a string.
- `Grouping` models `groupBy(...).sortBy(k)`, the row-key pipeline, the measure sum and `Math.round`.

`SalesSpec` states directly from the orders what the pivot should contain. `SalesProperties` proves the pivot's promised properties about that declarative table.

The aggregators are imperative in the source. The nested `reduce` callbacks write into arrays in place and bump `let` counters. In the model:

- every callback that writes into the accumulator arrays or bumps a counter is a method that returns the updated values;
- every `reduce` or `forEach` that runs such a callback is a loop;
- every loop is proved against `SalesSpec` through ghost "partly reduced" functions.

The callbacks that write nothing stay functions. The measure sum `orders.reduce((sub, order) => sub += (order.get(colMetric) || 0), 0)` is the recursive function `Grouping.MeasureSum`. The row-key `find` callback is `Grouping.FindRow`, and the `groupBy` callbacks are `Grouping.Keys` and `Grouping.Where`.

The pure parts are functions: the row-key pipeline, `camelToSentenceCase`, `prettifyNumber`, the records and the reducer.

Where the code and its surrounding material disagree, the model follows the code.

- **The test file.** `src/components/ProductSalesByStateTable/ProductSalesByStateTable.test.ts` calls the current `formatData` with the older configuration names (`rowDimension`, …) and reads `rowDims`. Its expected numbers, including the Grand Total column, are those of the current algorithm. The model uses the current names (`rowKey`, `rowSubKey`, `colKey`, `colMetric`).
- **The measure type.** `src/components/ProductSalesByStateTable/index.tsx:6` imports `QunatifiableProps`, which `order.ts` does not define. The measure is restricted to sales, quantity, discount and profit, the fields listed in the comment at lines 141-145 of that file (`SalesTable.Quantifiable`).

## Model

| member | source | states |
|---|---|---|
| Orders.DefaultOrder | src/models/order.ts:31-53 | every one of the 15 string fields is `''` and every one of the 6 numeric fields is 0 |
| Orders.FromProps | src/models/order.ts:55-58 | building the record from partial props keeps every supplied field and takes every other field from the defaults |
| Orders.NewOrder | src/models/order.ts:56-58 | `new Order()` without props is the default order; with props, supplied fields are kept and the rest are `''` or 0 |
| Orders.FromService | src/models/order.ts:60-65 | `fromService(undefined)` is the default order; otherwise every field the object supplies is kept and every other field is its default |
| RemoteValues.Default | src/lib/RemoteValue.ts:11-17 | a fresh record is not fetching, not invalidated, never loaded, has no value and an empty error |
| RemoteValues.NotLoadedWhileFetching | src/lib/RemoteValue.ts:32-34 | `loaded()` is false whenever `isFetching` |
| RemoteValues.NotLoadedOnError | src/lib/RemoteValue.ts:32-34 | `loaded()` is false whenever `error` is non-empty |
| RemoteValues.EverLoadedIsNeverLoaded | src/lib/RemoteValue.ts:33 | as written, `loaded()` is false whenever `didEverLoad` holds |
| RemoteValues.FreshRecordIsLoaded | src/lib/RemoteValue.ts:11-34 | as written, a fresh default record counts as loaded, and under the intended reading it does not |
| RemoteValues.LoadedRecordRejected | src/lib/RemoteValue.ts:33 | a record that finished loading without error is not `loaded()` as written, but is loaded under the intended reading |
| RemoteValues.LoadedNegatesEverLoaded | src/lib/RemoteValue.ts:33 | `loaded()` as written is the intended predicate with `didEverLoad` negated, and the two never hold together |
| OrdersReducer.ExtractError | src/redux/reducers/orders.ts:11-15 | the result is the payload error's message when it is non-empty and the fallback text otherwise, so it is never empty |
| OrdersReducer.PayloadOrders | src/redux/reducers/orders.ts:32 | the new value is the payload's orders mapped one by one through `fromService`, or the empty list when the payload or its orders are absent |
| OrdersReducer.Reduce | src/redux/reducers/orders.ts:17-43 | REQUEST sets fetching, clears invalidation and error; SUCCESS clears fetching and error, sets `didEverLoad` and the value; FAILURE clears fetching and sets the extracted error; every other field is unchanged, any other action returns the state, and a missing state is the default record |
| OrdersReducer.InitialStateIsDefault | src/redux/reducers/orders.ts:17-19 | the store's first action on no state gives the default `RemoteValue` |
| OrdersReducer.RequestThenNotLoaded | src/redux/reducers/orders.ts:22-27 | after REQUEST the state is fetching and not loaded under either reading of `loaded()` |
| OrdersReducer.FailureThenNotLoaded | src/redux/reducers/orders.ts:35-39 | after FAILURE the state is not fetching, carries an error and is not loaded under either reading |
| OrdersReducer.RequestSuccessLoads | src/redux/reducers/orders.ts:22-34 | REQUEST then SUCCESS gives a state holding the payload orders that is loaded as intended but not `loaded()` as written |
| Numerals.NatToString | src/components/PivotTable/index.tsx:47 | `toString()` of a natural number is a non-empty digit string without a leading zero, one character long exactly below 10 |
| Numerals.NatToStringRoundTrip | src/components/PivotTable/index.tsx:47 | reading the digits of `toString()` back gives the number |
| Numerals.NumberToString | src/components/PivotTable/index.tsx:47 | `toString()` of an integer starts with `-` exactly for negatives, the rest reads back as the absolute value, and there is no leading zero |
| StringOrder.LessTotal | src/components/ProductSalesByStateTable/index.tsx:64 | the key order compares any two different strings |
| StringOrder.LessTransitive | src/components/ProductSalesByStateTable/index.tsx:64 | the key order is transitive |
| StringOrder.LessAsymmetric | src/components/ProductSalesByStateTable/index.tsx:64 | the key order is asymmetric |
| StringOrder.SortedDistinct | src/components/ProductSalesByStateTable/index.tsx:67 | `toSet().sort()` gives a strictly ascending list with exactly the input's values |
| StringOrder.IndexOf | src/components/ProductSalesByStateTable/index.tsx:97 | `indexOf` is -1 exactly when the value is absent, and otherwise is the first position holding it |
| Grouping.Where | src/components/ProductSalesByStateTable/index.tsx:63 | a group holds exactly the orders whose field has the group's value |
| Grouping.WhereAppend | src/components/ProductSalesByStateTable/index.tsx:63 | a group keeps every matching order, repeats included, in input order: the group of a concatenation is the concatenation of the groups |
| Grouping.GroupBy | src/components/ProductSalesByStateTable/index.tsx:63-64 | `groupBy(...).sortBy(k)` has one non-empty group per distinct value, in strictly ascending key order, each group exactly the orders with that value |
| Grouping.RowKeyValues | src/components/ProductSalesByStateTable/index.tsx:62-69 | row keys are strictly ascending and exactly the values of the row field; each sub-key list is strictly ascending and exactly the sub-field values among that row's orders |
| Grouping.FindRow | src/components/ProductSalesByStateTable/index.tsx:89-91 | the lookup of a row key misses exactly when the key is absent, and otherwise gives its first position |
| Grouping.MeasureSumAppend | src/components/ProductSalesByStateTable/index.tsx:98 | the `reduce` over `o.get(colMetric)` is additive: the sum over two runs of orders is the sum of their sums |
| Grouping.Round | src/components/ProductSalesByStateTable/index.tsx:98 | `Math.round` lands within one half of its argument, with halves going up |
| SalesSpec.LookupsNeverMiss | src/components/ProductSalesByStateTable/index.tsx:86-107 | every row key and sub-key met while reducing is present in `rowKeyValues`, so the `undefined` and `\|\| []` fallbacks are never taken |
| SalesSpec.LookupsHitWhere | src/components/ProductSalesByStateTable/index.tsx:77-79 | restricting the orders to one state keeps every lookup hitting |
| SalesSpec.RowTotalsOfNothing | src/components/ProductSalesByStateTable/index.tsx:49-50 | a row group with no orders stays all zero |
| SalesSpec.SumOverSubset | src/components/ProductSalesByStateTable/index.tsx:95-104 | summing over a category's sub-keys or over just the sub-keys present in one state gives the same subtotal when the absent ones contribute 0 |
| SalesTable.CreateColumnMap | src/components/ProductSalesByStateTable/index.tsx:45-58 | the template is one all-zero group of length `\|subs\|+1` per row key followed by `[0]`, or `[]` for no rows |
| SalesTable.BucketsTotalFromGroups | src/components/ProductSalesByStateTable/index.tsx:95-102 | the rounded bucket totals that one row group adds to its subtotal are, summed, the rounded totals of the distinct sub-keys its orders carry |
| SalesTable.ReduceSubGroup | src/components/ProductSalesByStateTable/index.tsx:95-113 | one sub-group writes its total at its sub-key's index and adds it to the subtotal, to the Grand Total row and to both counters |
| SalesTable.ReduceSubGroups | src/components/ProductSalesByStateTable/index.tsx:95-114 | reducing the sub-groups fills each sub-key's slot, adds every total to the subtotal and the Grand Total row, and adds their sum to both counters |
| SalesTable.ReduceUnmatchedSubGroups | src/components/ProductSalesByStateTable/index.tsx:93-114 | when the row is missing, only the counters grow, by the sum of the sub-group totals |
| SalesTable.ReduceRowGroup | src/components/ProductSalesByStateTable/index.tsx:84-117 | a matched row group updates exactly its own group in the state column and in Grand Total; an unmatched one changes neither; both counters grow by its total |
| SalesTable.FillFromBuckets | src/components/ProductSalesByStateTable/index.tsx:95-104 | filling slots sub-group by sub-group is the same as laying the buckets over the template |
| SalesTable.CoveredOverlay | src/components/ProductSalesByStateTable/index.tsx:95-104 | when all sub-keys are known, the filled group is the declarative row of cells plus its subtotal |
| SalesTable.ReduceRowGroups | src/components/ProductSalesByStateTable/index.tsx:84-117 | reducing a state's row groups gives the template filled with that state's rows, adds them to Grand Total, and adds the sum of the row subtotals to both counters |
| SalesTable.StateFromBuckets | src/components/ProductSalesByStateTable/index.tsx:79-117 | the row groups reduced from a state's buckets are the declarative rows for that state |
| SalesTable.ReduceState | src/components/ProductSalesByStateTable/index.tsx:80-121 | one state's column equals the declarative state column, and the Grand Total column and counter grow by its rows and total |
| SalesTable.GrandColumnShaped | src/components/ProductSalesByStateTable/index.tsx:72 | the Grand Total column always has the template's shape |
| SalesTable.ReduceStates | src/components/ProductSalesByStateTable/index.tsx:77-123 | the state columns come out in order, the Grand Total column is their slot-by-slot sum and the grand total is the sum of the state totals |
| SalesTable.StateBucketLookups | src/components/ProductSalesByStateTable/index.tsx:86-107 | inside every state bucket, every lookup hits `rowKeyValues` |
| SalesTable.FormatData | src/components/ProductSalesByStateTable/index.tsx:60-131 | the result is the row-key structure and exactly the declarative table: one column per state, then Grand Total |
| SalesProperties.ColumnOrder | src/components/ProductSalesByStateTable/index.tsx:77-79 | one column per distinct state, strictly ascending, then exactly one `"Grand Total"` column last |
| SalesProperties.EmptyTable | src/components/ProductSalesByStateTable/index.tsx:123-125 | on no orders the only column is `["Grand Total", []]` |
| SalesProperties.TableEntry | src/components/ProductSalesByStateTable/index.tsx:77-125 | column k is the k-th state with that state's column, and the last is Grand Total with the slot-wise sum of the state columns |
| SalesProperties.TableShaped | src/components/ProductSalesByStateTable/index.tsx:45-58 | every column, Grand Total included, has the template's shape |
| SalesProperties.StateSlot | src/components/ProductSalesByStateTable/index.tsx:95-101 | state slot (i, j) is the rounded measure sum over that state's orders with row key i and sub-key j, and 0 when there are none |
| SalesProperties.StateSubtotal | src/components/ProductSalesByStateTable/index.tsx:101-104 | in a state column, each group's last slot is the sum of its sub-key slots |
| SalesProperties.StateTotalSlot | src/components/ProductSalesByStateTable/index.tsx:110-119 | a state column's trailing value is the sum of its row subtotals |
| SalesProperties.GrandSubtotal | src/components/ProductSalesByStateTable/index.tsx:105-107 | in Grand Total, each group's last slot is the sum of its sub-key slots |
| SalesProperties.GrandTotalOfSubtotals | src/components/ProductSalesByStateTable/index.tsx:112-120 | Grand Total's trailing value is the sum of its row subtotals |
| SalesProperties.RowSubtotals | src/components/ProductSalesByStateTable/index.tsx:101-107 | in every column, Grand Total included, the last slot of each row group is the sum of the group's other slots |
| SalesProperties.ColumnTotals | src/components/ProductSalesByStateTable/index.tsx:105-120 | every column's trailing `[x]` holds the sum of its row subtotals |
| SalesProperties.TableColumns | src/components/ProductSalesByStateTable/index.tsx:77-123 | the table has one more column than there are states, and the k-th column is the k-th state's |
| SalesProperties.GrandSlot | src/components/ProductSalesByStateTable/index.tsx:105-107 | a Grand Total slot is the sum of that slot over the state columns |
| SalesProperties.GrandTotalSlots | src/components/ProductSalesByStateTable/index.tsx:105-120 | Grand Total slot (i, j), the trailing total included, is the sum over states of slot (i, j) |
| SentenceCase.ReplaceCapitals | src/components/ProductSalesByStateTable/index.tsx:30 | the regular-expression replace equals `Spaced`, which puts a space before every capital `A`-`Z` and nowhere else |
| SentenceCase.Split | src/components/ProductSalesByStateTable/index.tsx:31 | `split(' ')` gives at least one piece, and no piece contains a space |
| SentenceCase.JoinSplit | src/components/ProductSalesByStateTable/index.tsx:31-33 | `join(' ')` after `split(' ')` gives the string back, for every string |
| SentenceCase.JoinUpper | src/components/ProductSalesByStateTable/index.tsx:31-33 | upper-casing each piece before joining with a caseless separator is upper-casing the joined string |
| SentenceCase.CamelToSentenceCase | src/components/ProductSalesByStateTable/index.tsx:27-34 | `camelToSentenceCase` gives the input upper-cased with a space inserted before each of its capitals, for every input |
| SentenceCase.SubCategoryExample | src/components/ProductSalesByStateTable/index.tsx:27-34 | `'subCategory'` becomes `'SUB CATEGORY'` |
| SentenceCase.StateExample | src/components/ProductSalesByStateTable/index.tsx:27-34 | `'state'` becomes `'STATE'` |
| SalesTableLegacy.ReduceSubGroup | src/components/ProductSalesByStateTable.tsx:80-92 | one sub-group writes its total at its sub-key's index, adds it to the subtotal and to the state counter |
| SalesTableLegacy.ReduceSubGroups | src/components/ProductSalesByStateTable.tsx:80-93 | reducing the sub-groups fills each sub-key's slot and adds every total to the subtotal and to the state counter |
| SalesTableLegacy.ReduceUnmatchedSubGroups | src/components/ProductSalesByStateTable.tsx:78-93 | when the row is missing, only the state counter grows |
| SalesTableLegacy.ReduceRowGroup | src/components/ProductSalesByStateTable.tsx:70-95 | a matched row group updates exactly its own group, an unmatched one nothing, and the counter grows by its total |
| SalesTableLegacy.ReduceRowGroups | src/components/ProductSalesByStateTable.tsx:70-95 | reducing a state's row groups gives the template filled with that state's rows, and the counter is the sum of the row subtotals |
| SalesTableLegacy.ReduceState | src/components/ProductSalesByStateTable.tsx:48-98 | with the counter reset per state, each state's column is the declarative state column: slots, row subtotals and a trailing total of that state alone |
| SalesTableLegacy.FormatData | src/components/ProductSalesByStateTable.tsx:30-104 | `rowDims` is the row-key structure, and the columns are exactly the state columns, in state order, with no Grand Total column |
| SalesTableLegacy.OlderMatchesNewer | src/components/ProductSalesByStateTable.tsx:47-99 | the older columns are the newer table minus its final Grand Total column |
| PivotTable.PrettifyNumber | src/components/PivotTable/index.tsx:46-54 | `prettifyNumber` gives the sign followed by the digits grouped in threes from the right (`GroupedNumber`), for every integer |
| PivotTable.CommasOnlyAdded | src/components/PivotTable/index.tsx:46-54 | deleting the commas from the output gives `n.toString()` |
| PivotTable.GroupedShape | src/components/PivotTable/index.tsx:49-50 | grouped digits start with a digit, hold only digits and commas, and every comma is followed by three digits and then a comma or the end |
| PivotTable.PrettifyGroups | src/components/PivotTable/index.tsx:49-50 | for every integer, each comma is followed by exactly three digits and then a comma or the end, the output never starts with `,` and never contains `-,` |
| PivotTable.SmallValuesUnchanged | src/components/PivotTable/index.tsx:46-54 | for \|n\| < 1000 the output is `n.toString()` |
| PivotTable.NegativeExample | src/components/PivotTable/index.tsx:46-54 | -1234 becomes `'-1,234'` |
| PivotTableLegacy.PrettifyNumber | src/components/PivotTable.tsx:37-45 | the older `prettifyNumber` only adds commas: deleting them from the output gives `n.toString()` |
| PivotTableLegacy.AgreesOnNonNegatives | src/components/PivotTable.tsx:37-45 | for non-negative integers the older output equals the current one |
| PivotTableLegacy.CommaAfterMinus | src/components/PivotTable.tsx:40-41 | for a negative number whose string length is 1 mod 3, the output begins with `-,` and is not well grouped |
| PivotTableLegacy.MinusCommaExample | src/components/PivotTable.tsx:37-45 | -123456 becomes `'-,123,456'` |
| PivotTableLegacy.MinusCommaFixedExample | src/components/PivotTable/index.tsx:46-54 | the current version formats -123456 as `'-123,456'` |

## Left out

- JSX, styling, cell classification and the `PivotTable` components are presentation only and are not modelled.
- React hooks and Redux wiring (`useEffect`, `useSelector`, `dispatch`, the store set-up) are not modelled.
- `src/redux/actions/orders.ts` is not part of this model. It is an asynchronous mock request with a timer and a JSON import. The reducer takes an `Action` value directly.
- Numbers are exact: order measures are `real` and table values `int`. Double-precision rounding of sums, the signed zero of `Math.round`, and `toString()` of non-integers or exponent forms are not modelled. `prettifyNumber` is given integers only, which is all the aggregator produces.
- Immutable.js structures (`List`, `Seq`, `OrderedSet`, `Record`) are sequences and datatypes. Their laziness and identity are not modelled.
- Column keys are strings. Numeric keys such as `postalCode` mixed with strings are not modelled.
- `toUpperCase` is ASCII only. Unicode case mapping is not modelled.
- StringOrder.Less: compares Dafny `char`s, which are Unicode code points. JavaScript compares UTF-16 code units, so keys that mix characters above U+FFFF with characters in U+E000–U+FFFF can sort differently; code-unit order is not modelled.
- The in-place writes go through arrays aliased with `initialAccumulator` rows and `grandTotals` rows. They are modelled as value updates of the nested sequences that the methods return. So aliasing itself is not represented; the updated values are the same.
- The older aggregator builds its template with its own loop (`src/components/ProductSalesByStateTable.tsx:59-68`). That loop does the same as `createColumnMap`, and the model reuses `SalesTable.CreateColumnMap` for it.
- The lookup-miss branches are modelled. These are a row key missing from `rowKeyValues`, which gives the `|| []` throwaway array, and a sub-key index of -1. `SalesSpec.LookupsNeverMiss` proves they are never reached from `formatData`.
- The worked example of `ProductSalesByStateTable.test.ts` is not evaluated as a lemma. The properties it illustrates (slot values, subtotals, state totals, Grand Total) are proved for all inputs.
- RemoteValues.Loaded: stated as written, which contradicts the wrapper's own test file and the render gate at `src/components/ProductSalesByStateTable/index.tsx:164`; the failing test is not proved.

## Findings

| source | as written | input that shows it | evidently intended | confidence | as-written member | corrected member |
|---|---|---|---|---|---|---|
| src/components/PivotTable.tsx:40-41 | a comma goes before every index i ≠ 0 where (length − i) mod 3 is 0, the minus sign counting as a digit | -123456 gives `'-,123,456'` | no comma straight after the minus sign, as the current version does: `'-123,456'` | not executed | PivotTableLegacy.MinusCommaExample | PivotTable.PrettifyGroups |
| src/lib/RemoteValue.ts:33 | `loaded()` requires `!didEverLoad` | a record after a successful load (`didEverLoad` true, not fetching, no error) is not loaded, and a fresh default record is | `loaded()` requires `didEverLoad`, as the test file and the render gate expect | not executed | RemoteValues.LoadedRecordRejected | OrdersReducer.RequestSuccessLoads |
