# CarSelection: a verified model of the car-filtering and recommendation path

CarSelection is a desktop car picker. The user chooses a body type, a price
range, a brand and a power range from four drop-downs. The cars in a SQLite
catalog then go through a fixed "decision tree" of four filters. The
survivors are sorted by price and shown. A second path, the `ExpertSystem`
facade, asks the database itself for cars that match a criteria dict and
sorts and projects them the same way.

This project models that path in Dafny, file by file:

- `wrappers.dfy`: `Option`.
- `seqs.dfy`: order-preserving list filters (`[x for x in xs if p(x)]`) and maps, with their algebra (membership, subsequence, idempotence, commutation, fusion, map/filter exchange).
- `car_records.dfy`: the `cars` row (`Car`), the dict shape of a car (`CarDict`, where each key may be missing), `Car.to_dict`, and the sparse criteria mapping (`Criteria`, where `None` means the key is absent).
- `decision_tree.dfy`: Python's `str.strip`, the four stage filters, the chain of `FilterNode`s, `CarDecisionTree.evaluate` and `get_filter_order`.
- `car_database.dfy`: the store as a class holding the table as a sequence of rows in rowid order. It covers seed-if-empty with rollback, `get_cars` as a conjunctive query built one condition at a time, and the distinct sorted brands and body types.
- `expert.dfy`: `ExpertSystem.recommend`. It sorts by price with a stable sort, projects each car to a six-key view, and raises `KeyError` for a car that lacks a key.
- `main_window.dfy`: the drop-down option tables, the handler that builds the criteria dict, the search that sets `current_results`, and the price text with space-separated thousands. It also compares the store's filter with the tree's.

Failures of the database (a failing count, commit or query) are boolean
parameters of the store's methods. The cars the window searches come in as a
parameter (see "Left out").

## Model

| member | source | states |
|---|---|---|
| CarRecords.ToDict | database.py:22-32 | The dict has all seven keys, and reading the record back from it gives the same record (nullable description included). |
| CarRecords.ToDictInjective | database.py:22-32 | Distinct records give distinct dicts. |
| CarRecords.ToDicts | database.py:284 | One dict per row, in row order, each the row's `to_dict`. |
| DecisionTree.Strip | decision_tree.py:42 | The stripped text is a slice of the input, everything cut from either end is whitespace, and the slice neither starts nor ends with a character Python counts as whitespace. |
| DecisionTree.StripLeading | decision_tree.py:42 | The result is a suffix of the input; everything removed is whitespace; it does not start with whitespace. |
| DecisionTree.StripTrailing | decision_tree.py:42 | The result is a prefix of the input; everything removed is whitespace; it does not end with whitespace. |
| DecisionTree.StripFixesTrimmed | decision_tree.py:42 | Text without surrounding whitespace strips to itself, so stripping twice is stripping once. |
| DecisionTree.TextFilter | decision_tree.py:40-43 | With a falsy criterion the input comes back unchanged. The result is always a subsequence of the input, and a car is in it iff it is in the input and, when the criterion is truthy, its key equals the stripped criterion. |
| DecisionTree.RangeFilter | decision_tree.py:48-55 | Applying the lower bound and then the upper bound (each only when not `None`) keeps exactly the cars within both inclusive bounds. |
| DecisionTree.FilterBodyType | decision_tree.py:38-43 | No truthy `body_type`: input unchanged; otherwise keeps exactly the cars whose `body_type` equals the stripped criterion. |
| DecisionTree.FilterPrice | decision_tree.py:46-55 | Keeps exactly the cars with `min_price <= price <= max_price`; a `None` bound does not constrain, a bound of 0 does, a missing `price` reads as 0. |
| DecisionTree.FilterBrand | decision_tree.py:58-63 | No truthy `brand`: input unchanged; otherwise keeps exactly the cars whose `brand` equals the stripped criterion. |
| DecisionTree.FilterPower | decision_tree.py:66-75 | The same inclusive-range rule as the price stage, on `power`. |
| DecisionTree.BuildCarDecisionTree | decision_tree.py:78-90 | The chain's node names, from the root to the end, are `body_type`, `price`, `brand`, `power`. |
| DecisionTree.ApplyStage | decision_tree.py:32 | A node's filter keeps exactly the cars its stage condition accepts, in order. |
| DecisionTree.NodeEvaluate | decision_tree.py:21-35 | Evaluating from a node keeps exactly the cars that every stage from that node to the end of the chain accepts. |
| DecisionTree.Evaluate | decision_tree.py:102-115 | An empty list gives an empty result; otherwise the result is the cars meeting all four stage conditions, in input order. |
| DecisionTree.ChainIsConjunction | decision_tree.py:86-90 | The built chain body_type → price → brand → power checks exactly the four stage conditions. |
| DecisionTree.EvaluateIsPipeline | decision_tree.py:86-90 | The tree's result is `power(brand(price(body_type(cars))))`. |
| DecisionTree.EvaluateMembership | decision_tree.py:113-115 | A car is in the result iff it is in the input and meets every active criterion. |
| DecisionTree.EvaluateIsSubsequence | decision_tree.py:43 | The result is a subsequence of the input (order kept), so it is no longer than the input. |
| DecisionTree.EvaluateIdempotent | decision_tree.py:102-115 | Running the tree again on its own output with the same criteria returns that output. |
| DecisionTree.EvaluateWithoutCriteria | decision_tree.py:40-41 | With no truthy text and no bounds, the tree returns its input unchanged. |
| DecisionTree.StagesCommute | decision_tree.py:38-75 | Any two stages can be swapped without changing the result. |
| DecisionTree.GetFilterOrder | decision_tree.py:117-124 | The loop collects the node names from the root to the end; for the built tree that is `["body_type", "price", "brand", "power"]`. |
| CarDatabase.MaxId | database.py:14 | The largest id of a non-empty table: no row has a larger id, and some row has it. |
| CarDatabase.NextId | database.py:14 | The id a new row gets is larger than every id in the table, and 1 in an empty table. |
| CarDatabase.Inserted | database.py:237 | The seed rows are added in list order with consecutive ids and their own column values. |
| CarDatabase.SeedKeepsIdsUnique | database.py:237-238 | Appending the numbered seed keeps ids ascending, hence unique. |
| CarDatabase.AfterInit | database.py:94-104 | Initialisation never removes or changes a row, only adds rows after the existing ones; it adds rows only to an empty table when counting and the commit both succeed; it keeps ids ascending. |
| CarDatabase.InitOnNonEmptyIsNoOp | database.py:98-102 | Initialising a table that has rows leaves it unchanged. |
| CarDatabase.InitIsIdempotent | database.py:94-104 | A second initialisation after one that left rows changes nothing. |
| CarDatabase.SeedOfEmptyTable | database.py:98-102 | A successful seed of an empty table holds exactly the seed list, numbered from 1. |
| CarDatabase.CarStore.constructor | database.py:94-104 | Opening the store runs initialisation on the existing table. |
| CarDatabase.CarStore.InitDatabase | database.py:94-104 | The table is seeded only if counting worked, found 0 rows, and the commit succeeded; otherwise it is unchanged. |
| CarDatabase.CarStore.PopulateDatabase | database.py:235-242 | A failed commit rolls back to the old table; a successful one appends exactly the seed list. Ids stay unique. |
| CarDatabase.Execute | database.py:283 | `query.all()` returns a subsequence of the table holding exactly the rows that meet every condition. |
| CarDatabase.ConditionsFor | database.py:261-280 | At most six conditions, and none iff no criteria value is truthy. |
| CarDatabase.AddIfNarrows | database.py:264-265 | Each `query.filter` narrows the query by exactly its condition, and a skipped one changes nothing. |
| CarDatabase.ConditionsMeanCriteria | database.py:264-280 | A row meets the conditions built from the truthy criteria values iff it meets every active constraint. |
| CarDatabase.QueryRows | database.py:260-284 | The rows returned keep table order, and a row is returned iff it is in the table and satisfies each active constraint. |
| CarDatabase.CarStore.GetCars | database.py:260-288 | The query built one truthy criterion at a time returns the dicts of exactly the matching rows; a query error gives `[]`. |
| CarDatabase.QueryWithoutConstraints | database.py:261-284 | With no truthy criteria value, every row is returned. |
| CarDatabase.ZeroMaxPriceIgnored | database.py:270-271 | `max_price: 0` is falsy and filters nothing, the same as no `max_price`. |
| CarDatabase.LexLessIsStrictOrder | database.py:293 | The text order used by `order_by` is irreflexive, transitive and total. |
| CarDatabase.InsertDistinct | database.py:293 | Inserting into a strictly ascending list keeps it strictly ascending and adds exactly that value. |
| CarDatabase.DistinctSorted | database.py:293 | `distinct().order_by(...)`: strictly ascending, and containing exactly the values of the column. |
| CarDatabase.AscendingIsUnique | database.py:293 | Two strictly ascending lists with the same elements are equal, so the answer is unique. |
| CarDatabase.CarStore.GetUniqueBrands | database.py:290-297 | Strictly ascending brands; a brand is listed iff some row has it; a query error gives `[]`. |
| CarDatabase.CarStore.GetUniqueBodyTypes | database.py:299-306 | Strictly ascending body types; a body type is listed iff some row has it; a query error gives `[]`. |
| Expert.ViewOf | expert_system.py:34-41 | The view's `description` is `""` only when the key is missing; a present value, `None` included, passes through. |
| Expert.RowViewKeepsColumns | database.py:31 | A stored row always has the keys a view needs, and its view keeps every column but `id`, description included. |
| Expert.ViewIgnoresId | expert_system.py:34-41 | The view does not depend on `id`. |
| Expert.InsertByPrice | expert_system.py:29 | Inserting adds exactly the one car to the list. |
| Expert.InsertKeepsSorted | expert_system.py:29 | Inserting into a price-sorted list keeps it sorted. |
| Expert.SortByPrice | expert_system.py:29 | The sorted list is a permutation of the input and is in non-decreasing price order. |
| Expert.SortIsStable | expert_system.py:29 | For every price, the cars with that price appear in the same order before and after sorting. |
| Expert.ProjectAll | expert_system.py:32-41 | One view per car, in order, each the car's projection. |
| Expert.ProjectSort | expert_system.py:29-41 | Sorting then projecting gives the views of the input cars, each as often as in the input. |
| Expert.ProjectThenFilterPrice | expert_system.py:32-41 | Projecting commutes with keeping one price. |
| Expert.SortedViews | expert_system.py:24-41 | Empty in gives `[]`; `KeyError` iff some car lacks one of the five keys; otherwise one view per car. |
| Expert.SortedViewsAreSorted | expert_system.py:29 | The views are in non-decreasing price order. |
| Expert.SortedViewsArePermutation | expert_system.py:29-41 | The views are the projections of the input cars, as a multiset. |
| Expert.ViewComesFromCar | expert_system.py:32-41 | Every view in the result is the view of some input car that has all five keys. |
| Expert.SortedViewsAreStable | expert_system.py:29 | Views of equal price keep the order in which `get_cars` returned their cars. |
| Expert.ExpertSystem.constructor | expert_system.py:4-5 | The facade holds the given store. |
| Expert.ExpertSystem.Recommend | expert_system.py:7-43 | The loop's result is the stable price order of the store's answer, each car projected; `[]` when the store returns nothing or fails. |
| Expert.StoreRecommendationsMatch | expert_system.py:23 | For cars from the store, `recommend` never raises, and every view is the view of a stored row that meets every active criterion. |
| MainWindow.OptionsTileTheLine | main.py:199-215 | In both option tables, entry 0 has no bounds, entry 1 has no lower bound and the last has no upper bound, each range starts where the previous ends, and the middle ranges are non-empty. |
| MainWindow.CurrentData | main.py:296 | A drop-down's data is present iff an entry is selected, and is then that entry's lower and upper bound. |
| MainWindow.SelectionCriteria | main.py:292-310 | `body_type` (`brand`) is set iff the text is non-empty and not the "any" entry, and then to that text; each bound key is set iff the selected option has that bound, and to that bound; no other key is produced. |
| MainWindow.AnySelectionHasNoCriteria | main.py:199-215 | The "any" entries of all four drop-downs give the empty mapping. |
| MainWindow.AnySelectionKeepsAllCars | main.py:313-314 | With every drop-down on "any", the tree keeps every car. |
| MainWindow.BuildCriteria | main.py:292-310 | The conditional inserts build exactly the criteria of the selection. |
| MainWindow.Recommendations | main.py:313-326 | All cars through the tree, sorted and projected: no cars give `[]`; never more views than cars; no `KeyError` when every car has the keys. |
| MainWindow.RecommendationsFitSelection | main.py:313-326 | Every shown car has the chosen body type and brand (stripped) and lies within the chosen price and power ranges, and the list is in non-decreasing price order. |
| MainWindow.MatchedViewFits | main.py:314-326 | A car the tree keeps for the selection's criteria projects to a view that fits the selection. |
| MainWindow.CarSelectionApp.constructor | main.py:22 | The window starts with no current results. |
| MainWindow.CarSelectionApp.GetRecommendations | main.py:286-337 | Without a store and tree, or when a car lacks a key, the current results are unchanged; otherwise they become the sorted views; with no cars they become `[]`. |
| MainWindow.Decimal | main.py:345 | The digits of a natural number: at least one, all decimal digits, and no leading zero. |
| MainWindow.DecimalRoundTrip | main.py:345 | Reading the digits back gives the number. |
| MainWindow.GroupThousands | main.py:345 | `n` digits grouped by threes take `n + (n - 1) / 3` characters and start with the first digit. |
| MainWindow.ReplaceChar | main.py:345 | `str.replace` of one character: same length, every occurrence of the old character becomes the new one, every other character is kept, and the old character no longer occurs. |
| MainWindow.Thousands | main.py:345 | `f"{n:,}"` is non-empty and starts with `-` iff `n` is negative. |
| MainWindow.FormatPrice | main.py:345 | The price text is non-empty, starts with `-` iff the price is negative, and contains no comma. |
| MainWindow.GroupedLayout | main.py:345 | In the grouped digits, a comma is exactly every fourth character from the right, a digit is everywhere else, and the length is never a multiple of 4. |
| MainWindow.GroupedDigits | main.py:345 | Removing the commas from the grouped digits gives the digits. |
| MainWindow.FormatPriceDigits | main.py:345 | Deleting the spaces from the price text gives the sign and the decimal digits of the price. |
| MainWindow.FormatPriceSplits | main.py:345 | The price text is the sign followed by the grouped digits with every comma replaced by a space. |
| MainWindow.FormatPriceGrouping | main.py:345 | After the sign, a space is exactly every fourth character from the right, so digits come in groups of three from the right. |
| MainWindow.StoreAgreesWithTree | database.py:264-280 | When no bound is 0 and every requested text is already stripped, the store's query and the tree return the same cars in the same order. |
| MainWindow.RowAgrees | database.py:264-280 | Under the same conditions, a stored row passes the store's constraints iff its dict passes the tree's four stages. |
| MainWindow.ZeroBoundDiverges | decision_tree.py:52-54 | With `max_price: 0`, the store returns a 700 000 car and the tree drops it. |
| Seqs.Filter | decision_tree.py:43 | A list comprehension with a condition returns no more elements than its input, each passing the condition. |
| Seqs.Map | database.py:284 | A list comprehension without a condition returns one mapped element per input element, in order. |
| Seqs.FilterMembership | decision_tree.py:43 | An element survives a filter iff it was there and passes the predicate. |
| Seqs.FilterIsSubsequence | decision_tree.py:43 | A filter returns a subsequence of its input. |
| Seqs.FilterThenFilter | decision_tree.py:51-54 | Two filters in a row are one filter by the conjunction. |
| Seqs.FilterIdempotent | decision_tree.py:102-115 | Filtering a filtered list again by the same condition changes nothing. |
| Seqs.FilterCommutes | decision_tree.py:86-90 | Two filters give the same result in either order. |
| Seqs.MapFilter | database.py:284 | Mapping after filtering equals filtering after mapping when the filters agree through the map. |

## Left out

- The PyQt6 window: layout, styling, filling the drop-downs, rendering the results table (including its "nothing found" row), message boxes, the status bar and `closeEvent`. None of it decides which cars are shown.
- The SQLAlchemy engine and session lifecycle (`_connect`, `close`, the context-manager methods) and the script-versus-frozen path resolution. The table is a sequence of rows in rowid order, and each failure is a boolean parameter.
- The literal seed list in `_populate_database` is a parameter; its values do not affect any property.
- `print` logging of errors is output only.
- `get_all_cars`, which the window calls, is not defined in `database.py`. A real run would raise there, and the handler's generic exception branch would catch it. The window's search instead takes all cars as a parameter, so it models the intended behaviour.
- The window's "not initialised" guard is the `ready` parameter; the connection error in `init_database` is not modelled.
- Criteria mappings with keys other than the six are not representable; no caller builds one. A criteria value of `None` stands both for a missing key and for an explicit `None`, which every consumer treats alike: the tree tests text keys by truthiness and bounds with `is not None`, and the store tests every value by truthiness.
- Dict values of an unexpected type (a `None` brand, a text price) are not representable. Only a missing key is.
- Python's `sorted` is modelled as a stable insertion sort with the same result; the timsort algorithm itself is not modelled.
- Expert.SortedViews: a missing key is reported as `KeyError`, without the key's name and without modelling whether `sorted` or the projection raised it.
- CarDatabase.NextId: SQLite's handling of the largest rowid (9223372036854775807) is not modelled; ids are unbounded.
- CarDatabase.CarStore.GetCars: the row order of a query result is taken as table (rowid) order, which SQLite gives for a plain table scan but does not promise without `ORDER BY`.
- Packaging scripts (`setup.py`, `setup_cxfreeze.py`).
