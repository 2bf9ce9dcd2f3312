# Dashboard core in Dafny

This project models the logic core of a small browser dashboard. The core has three parts.

- **The To-Do board** (`scripts/todomanager.js`). Tasks `{id, text, done}` are kept per category in a `tasks` object. The board persists that object to local storage after every change. It adds a task from the form, toggles it with its checkbox, deletes it with its button, and reorders it by a long-press touch drag.
- **The analytics page** (`scripts/analytics.js`). Before drawing each chart and table, it groups the sale records into seven aggregations:
  - sales per day;
  - leads per day;
  - the repeat-customer distribution;
  - revenue per month;
  - sales per manager;
  - the managers table;
  - the ten products with the lowest revenue.
- **The login gate** (`scripts/auth.js`). It validates the e-mail and the password, stores the user, and switches between the home page and the login page.

The modules, one file each:

- `Wrappers`: the `Option` type.
- `Text`: ECMAScript whitespace and `String.prototype.trim`.
- `TaskStore`: the task map, with every change written as a function from the old map to the new one, and the properties of those changes.
- `DragRule`: `getDragAfterElement`.
- `TodoManager`: the board controller. It is a class holding the store, the persisted copy, the touch timer and the dragged item. Its methods are proved against the `TaskStore` functions.
- `StrOrder`: the code-point string order of the default `Array.prototype.sort`, and an insertion sort.
- `Grouping`: the one-pass `forEach` group-by loop that every aggregation uses. It is proved against recursive specification functions.
- `Analytics`: the seven aggregations.
- `Auth`: e-mail validation, the login form decision, and a class for the document and storage state of the gate.

Inputs the browser provides are passed in as parameters:

- `Date.now()` becomes the `id` argument.
- The list under the finger and the sibling boxes become a `TargetList` and `ListItem`s with integer coordinates.
- The final index of the dragged `<li>` becomes `Drop.index`.
- The 350 ms timer firing becomes the method `LongPressElapsed`.

Local storage is a field: `saved` on the board and `storedUser` in the gate.

## Model

| member | source | states |
|---|---|---|
| Text.IsSpace | scripts/auth.js:81 | the ECMAScript WhiteSpace and LineTerminator code points: what `\s` matches in the e-mail regex and what `trim()` strips (todomanager.js:83, auth.js:36-37); all of them lie in the Basic Multilingual Plane |
| Text.TextStart | scripts/todomanager.js:83 | the position where `trim` starts: everything before it is whitespace, and the character there is not |
| Text.TextEnd | scripts/todomanager.js:83 | the position where `trim` ends: everything from it on is whitespace, and the character before it is not |
| Text.StartBeforeEnd | scripts/todomanager.js:83 | the start lies before the end exactly when the string has a non-whitespace character |
| Text.Trim | scripts/todomanager.js:83 | `.trim()` (also auth.js:36-37): never longer than its input, and a non-empty result neither starts nor ends with whitespace |
| Text.Utf16Length | scripts/auth.js:50 | `password.length` counts UTF-16 code units: between one and two per character, and exactly one per character precisely when none lies outside the Basic Multilingual Plane |
| Text.TrimIsSlice | scripts/auth.js:36-37 | `trim` returns a slice `s[i..j]` whose cut-off ends are all whitespace, and which neither starts nor ends with whitespace |
| Text.TrimEmptyIff | scripts/todomanager.js:83-85 | a string trims to empty exactly when every character of it is whitespace |
| Text.TrimIdempotent | scripts/todomanager.js:83 | trimming an already trimmed string changes nothing |
| TaskStore.Default | scripts/todomanager.js:9-13 | the fallback store has exactly the keys design, personal and house, each with an empty list |
| TaskStore.Initial | scripts/todomanager.js:9-13 | a persisted store is used as is; with nothing persisted, the store is the three empty lists |
| TaskStore.Added | scripts/todomanager.js:83-88 | a blank text leaves the keys as they are; other text adds the category if missing and lengthens its list by exactly one; other categories are unchanged |
| TaskStore.Without | scripts/todomanager.js:64 | the filter keeps exactly the tasks whose id differs, and never lengthens the list |
| TaskStore.Deleted | scripts/todomanager.js:64 | the keys stay the same, no task of the category keeps that id, the list does not grow, and other categories are unchanged |
| TaskStore.Toggled | scripts/todomanager.js:50 | the keys and the list length stay the same; the task at the position keeps its id and text and takes the checkbox state as `done`; other categories are unchanged |
| TaskStore.FindIndex | scripts/todomanager.js:158-159 | finds the first position holding the id, or `None` (the source's -1) exactly when no task has it |
| TaskStore.RemoveAt | scripts/todomanager.js:161 | `splice(i, 1)` shortens the list by one, keeps the elements before and after `i` in order, and removes exactly the element at `i` (as a multiset) |
| TaskStore.InsertAt | scripts/todomanager.js:167 | `splice(i, 0, t)` adds exactly `t`: at position `i` with the prefix and suffix intact, or at the end when `i` is past the end |
| TaskStore.Moved | scripts/todomanager.js:153-168 | `updateTaskOrder` on the store: with the id missing nothing changes; otherwise the target list exists afterwards and categories other than source and target are unchanged |
| TaskStore.AddBlankIsNoop | scripts/todomanager.js:83-85 | text that is all whitespace adds nothing, and the store is unchanged |
| TaskStore.AddAppendsOne | scripts/todomanager.js:85-88 | other text appends exactly one `{id, trimmed text, done: false}` at the end of the category, creating the list if it is missing; other categories are unchanged |
| TaskStore.DeleteRemovesOnlyThatId | scripts/todomanager.js:63-64 | delete keeps exactly the tasks of that category whose id differs; the keys and the other categories are unchanged |
| TaskStore.WithoutCounts | scripts/todomanager.js:64 | the filter drops every copy of the id and keeps every other task as often as it occurred |
| TaskStore.WithoutKeepsOrder | scripts/todomanager.js:64 | the filter distributes over concatenation, so survivors keep their relative order |
| TaskStore.DeleteMissingIsNoop | scripts/todomanager.js:63-64 | deleting an id that no task carries leaves the store unchanged |
| TaskStore.ToggleChangesOnlyDone | scripts/todomanager.js:49-52 | the toggled task keeps its id and text and takes the checkbox state as `done`; every other task and category is unchanged |
| TaskStore.MoveMissingIsNoop | scripts/todomanager.js:158-159 | a move whose id is not in the source list leaves the store unchanged |
| TaskStore.MoveConservesTasks | scripts/todomanager.js:161-167 | a move between two lists leaves the source list as `splice(i, 1)` of its first task with that id, and adds exactly that task to the target, conserving the multiset of both; within one list it permutes the list; other categories are unchanged, and the target list exists afterwards |
| TaskStore.MoveLandsAtIndex | scripts/todomanager.js:161-167 | when `newIndex` is within the target list, the moved task lands exactly there, with the target's other tasks in order around it |
| TaskStore.MoveAgainIsNoop | scripts/todomanager.js:153-168 | re-committing a drop whose task already sits alone with its id at `newIndex` of its list changes nothing |
| DragRule.Closest | scripts/todomanager.js:142-150 | the `reduce` step by step: it finds a winner exactly when some non-dragging sibling's centre lies below `y`; the winner has the greatest such offset, and the earliest wins a tie |
| DragRule.GetDragAfterElement | scripts/todomanager.js:140-151 | picks the non-dragging sibling whose centre is nearest below the pointer (earliest on a tie), or `None` when there is no such sibling |
| TodoManager.Manager.constructor | scripts/todomanager.js:9-16 | loads the persisted store or the default one; no timer and no dragged item |
| TodoManager.Manager.SaveTasks | scripts/todomanager.js:20-22 | local storage now holds exactly the store, and nothing else changes |
| TodoManager.Manager.SubmitTask | scripts/todomanager.js:81-93 | the store becomes `Added(...)`; it is saved exactly when the text is not blank; the drag state is untouched |
| TodoManager.Manager.ToggleTask | scripts/todomanager.js:49-53 | the store becomes `Toggled(...)` and is saved |
| TodoManager.Manager.DeleteTask | scripts/todomanager.js:63-67 | the store becomes `Deleted(...)` and is saved |
| TodoManager.Manager.UpdateTaskOrder | scripts/todomanager.js:153-171 | the store becomes `Moved(...)`; it is saved exactly when the id was found, and is neither changed nor saved otherwise |
| TodoManager.Manager.TouchStart | scripts/todomanager.js:97-107 | a completed item arms nothing; any other item arms the long-press timer |
| TodoManager.Manager.LongPressElapsed | scripts/todomanager.js:101-106 | an armed timer makes its item the dragged item and registers the move listener |
| TodoManager.Manager.TouchMove | scripts/todomanager.js:109-123 | only with the listener registered: clears the timer, and over a list places the dragged item before the sibling `GetDragAfterElement` picks, or at the end; the store is untouched |
| TodoManager.Manager.TouchEnd | scripts/todomanager.js:125-136 | timer, listener and dragged item are all cleared in every case; a drag released over a list commits `Moved(...)` to the store, and saves it exactly when the dragged id was found; otherwise storage is untouched |
| TodoManager.CompletedItemNeverDrags | scripts/todomanager.js:99 | touching a completed item never starts a drag, even when the timer would have fired |
| TodoManager.ShortTouchNeverDrags | scripts/todomanager.js:125-126 | a touch that ends before the timer fires starts no drag and changes neither the store nor storage |
| TodoManager.LongPressMovesTask | scripts/todomanager.js:97-136 | a long press and release over a list moves the task exactly as `updateTaskOrder` does |
| TodoManager.ReloadRestoresStore | scripts/todomanager.js:9 | after any sequence of operations, reloading from local storage gives back the store in memory |
| StrOrder.Less | scripts/analytics.js:62 | the string order of `sort()`: a proper prefix comes before the longer string |
| StrOrder.LessAtFirstDifference | scripts/analytics.js:62 | the order compares at the first difference: `a` is below `b` exactly when after a common prefix `a` ends or has the smaller character |
| StrOrder.LessIrreflexive | scripts/analytics.js:62 | the string order of `sort()` is irreflexive |
| StrOrder.LessTransitive | scripts/analytics.js:62 | the string order is transitive |
| StrOrder.LessTotal | scripts/analytics.js:62 | any two distinct strings are ordered one way or the other |
| StrOrder.LessAsymmetric | scripts/analytics.js:62 | the string order is asymmetric |
| StrOrder.Insert | scripts/analytics.js:62 | insertion adds exactly one element |
| StrOrder.Sort | scripts/analytics.js:62 | sorting is a permutation |
| StrOrder.InsertSorted | scripts/analytics.js:62 | inserting into a sorted list keeps it sorted |
| StrOrder.SortSorted | scripts/analytics.js:62 | the sorted keys are in non-decreasing order |
| StrOrder.SortDistinct | scripts/analytics.js:62 | sorting distinct keys yields a strictly increasing list with the same elements |
| StrOrder.DistinctOnce | scripts/analytics.js:62 | in a duplicate-free list every key occurs at most once |
| Grouping.Keys | scripts/analytics.js:53-58 | the keys of the grouped object never repeat |
| Grouping.Column | scripts/analytics.js:63 | `keys.map(k => byKey[k])` gives each key's own entry, in key order |
| Grouping.Tally | scripts/analytics.js:53-59 | the `forEach` loop creates exactly one entry per distinct kept key, in first-appearance order, and each entry counts and sums exactly the kept records with that key |
| Grouping.KeysExactly | scripts/analytics.js:53-59 | a key is present exactly when some kept record carries it |
| Grouping.KeysHaveRecords | scripts/analytics.js:55-58 | a present key has at least one record; an absent key has an empty entry |
| Grouping.SumGroupsAppend | scripts/analytics.js:53-59 | summing entries distributes over concatenation |
| Grouping.ColumnSnoc | scripts/analytics.js:53-59 | one more record adds to the sum of a key column exactly when its key is in the column |
| Grouping.GroupsCoverAll | scripts/analytics.js:53-59 | the entries of all keys together count and sum every kept record exactly once |
| Grouping.KeysSnoc | scripts/analytics.js:54-57 | one more record adds its key at the end exactly when it is kept and its key is new |
| Grouping.GroupOfSnoc | scripts/analytics.js:54-58 | one more record adds to exactly the entry of its own key, and only when it is kept |
| Grouping.ColumnOfNothing | scripts/analytics.js:53-59 | with no records, every key's entry is empty, so a column sums to nothing |
| Grouping.SumOfZeros | scripts/analytics.js:53-59 | a list of empty entries sums to the empty entry |
| Grouping.OverallOfSameKeys | scripts/analytics.js:62-63 | the records whose key lies in a key list depend only on which keys it holds, not on their order |
| Grouping.ColumnIsOverallOf | scripts/analytics.js:53-63 | the entries of a list of distinct keys together count and sum exactly the kept records with one of those keys |
| Grouping.ColumnPermutation | scripts/analytics.js:62-63 | two duplicate-free key lists with the same members (the keys before and after the sort) give the same sum of entries |
| Grouping.SumOfFields | scripts/analytics.js:63 | the per-key counts and sums add up to the count and sum of all the entries |
| Analytics.Month | scripts/analytics.js:241 | `substring(0, 7)` is the 7-character prefix, or the whole date when it is shorter |
| Analytics.OverallIsPlain | scripts/analytics.js:54-59 | keeping every record counts all of them and sums all amounts; keeping only leads counts the leads |
| Analytics.SortedGroups | scripts/analytics.js:62-63 | the sorted labels are the distinct keys in strictly increasing order, and their entries cover every kept record |
| Analytics.SalesByDay | scripts/analytics.js:53-63 | the labels are exactly the distinct dates, strictly increasing; each amount is that date's sum; the amounts add up to the total of all sales |
| Analytics.LeadsByDay | scripts/analytics.js:116-128 | the labels are exactly the dates with a lead, strictly increasing; each count is at least 1; the counts add up to the number of leads |
| Analytics.Purchases | scripts/analytics.js:173-179 | one purchase count per distinct customer, in first-appearance order, each the number of that customer's sales |
| Analytics.PurchasesPositive | scripts/analytics.js:175-178 | every customer in `purchasesByCustomer` has at least one purchase |
| Analytics.PurchaseCounts | scripts/analytics.js:173-179 | the `forEach` loop yields exactly the purchase counts `Purchases` specifies |
| Analytics.Bucketed | scripts/analytics.js:182-196 | when every count is at least 1, the three slices (1, 2, 3+) add up to the number of counts |
| Analytics.RepeatCustomers | scripts/analytics.js:173-196 | each distinct customer lands in exactly one slice (1, 2, or else 3+) by its purchase count; the slices add up to the number of distinct customers |
| Analytics.RevenueByMonth | scripts/analytics.js:238-250 | the labels are exactly the distinct `YYYY-MM` prefixes, strictly increasing; each value is that month's revenue; the values add up to the total of all sales |
| Analytics.SalesByManager | scripts/analytics.js:296-314 | one label per distinct manager, in first-appearance order; each value is that manager's revenue; the values add up to the total of all sales |
| Analytics.ManagerRows | scripts/analytics.js:347-360 | one row per distinct manager, in first-appearance order, holding that manager's number of sales and revenue |
| Analytics.ManagerEntries | scripts/analytics.js:347-360 | the `forEach` loop over the sales and the entries of `managersData` yield exactly `ManagerRows` |
| Analytics.ManagerOrdersAddUp | scripts/analytics.js:347-360 | every manager row has at least one order, and the orders of all rows add up to the number of sales |
| Analytics.ManagersTable | scripts/analytics.js:347-360 | exactly `ManagerRows`: one row per distinct manager, holding their number of sales (at least 1) and their revenue; the orders add up to the number of sales |
| Analytics.ManagersTableMatchesChart | scripts/analytics.js:296-360 | for the same sales, the table is `ManagerRows` and the radar chart's labels are the distinct managers; both list the same managers, in the same order, with the same revenue |
| Analytics.ProductRows | scripts/analytics.js:383-402 | one row per distinct product, holding its number of sales and its revenue |
| Analytics.ProductEntries | scripts/analytics.js:383-402 | the `forEach` loop over the sales and the entries of `productsData` yield exactly `ProductRows` |
| Analytics.InsertByRevenue | scripts/analytics.js:403 | inserting a row into rows sorted by revenue keeps them sorted, adds exactly that row, and ends with either that row or the old last row |
| Analytics.SortByRevenue | scripts/analytics.js:403 | the rows come out in non-decreasing revenue and are a permutation of the input |
| Analytics.LowestFirst | scripts/analytics.js:403-406 | cutting a revenue-sorted permutation leaves out no row with lower revenue than a kept one |
| Analytics.SortedPrefix | scripts/analytics.js:403-406 | the first `n` rows of a revenue-sorted permutation are sorted, drawn from the input, and no row left out has lower revenue than one kept |
| Analytics.ProductsTable | scripts/analytics.js:383-406 | at most 10 rows, fewer only when there are fewer products; non-decreasing revenue; each row is a real product row; no product left out has lower revenue than one shown |
| Auth.ValidateEmail | scripts/auth.js:80-83 | the regex test; an accepted address has at least five characters, an `@` and a `.` |
| Auth.ValidateEmailIff | scripts/auth.js:80-83 | the regex accepts exactly these addresses: no whitespace, exactly one `@` and not first, and after it a `.` that is neither first nor last |
| Auth.MatchIsWellFormed | scripts/auth.js:80-83 | an address the regex accepts has no whitespace, exactly one `@` and not first, and a `.` after it that is neither first nor last there |
| Auth.WellFormedMatches | scripts/auth.js:80-83 | conversely, such an address splits as the regex requires |
| Auth.SplitChar | scripts/auth.js:82 | every character of a match is not whitespace, and only the separating one is `@` |
| Auth.CheckLoginForm | scripts/auth.js:36-57 | the form is valid exactly when the trimmed e-mail is well formed and the trimmed password is at least 6 UTF-16 code units long; each error is set or cleared by its own field alone |
| Auth.UserJson | scripts/auth.js:60-61 | the stored user record is a non-empty string, so it reads back as signed in |
| Auth.SignedIn | scripts/auth.js:18-21 | `if (user)` on the stored entry: signed in exactly when the entry is neither missing nor the empty string |
| Auth.AuthUi.constructor | scripts/auth.js:15-19 | the gate starts from the document's pages and the stored user entry |
| Auth.AuthUi.ShowPage | scripts/auth.js:2-13 | afterwards the page with that id is the only active page, and with no such element no page is active |
| Auth.AuthUi.CheckAuthStatus | scripts/auth.js:15-32 | with a user entry the home page is the only active page and the topbar is shown; without one, the login page is, and the topbar is hidden |
| Auth.AuthUi.HandleLogin | scripts/auth.js:34-71 | both error messages follow their own field (the password measured in UTF-16 code units, as `length` does); a rejected form writes nothing and switches no page; an accepted one stores `{email}`, takes `active` off every page and puts it on the home page, leaves every other element's `active` class alone, and un-hides the topbar when there is one |
| Auth.AuthUi.HandleLogout | scripts/auth.js:73-78 | the user entry is gone; `active` leaves every page and goes to the login page, other elements (sidebar, overlay) keep theirs; the topbar is hidden when there is one, and the flag is untouched otherwise |

## Left out

- Chart.js construction and destruction, the loading, spinner and error states, and the `fetch` of the sales JSON file: these are a foreign library and network I/O. The model starts from the parsed `sales` array.
- Average check and turnover (`revenue / orders`, `revenue / units`), `toFixed` and `toLocaleString`: this is floating-point display formatting. The rows keep only the integer counts and revenues.
- Amounts are whole numbers. JavaScript numbers are doubles, so fractional amounts and rounding in the sums are not modelled.
- Analytics.SortedGroups: `Object.keys` is taken to follow insertion order. JavaScript lists integer-like keys first, in numeric order. This does not matter for the sorted charts. It would reorder, for numeric names or ids, the manager chart (`SalesByManager`), the managers table (`ManagerRows`), the product list (`ProductRows`) and the purchase counts (`Purchases`); the repeat-customer bucket totals are unaffected.
- Grouping.Tally: the groups are a map from key to entry. The source uses plain objects, where a key naming an `Object.prototype` member behaves differently: under `constructor` the entry starts as a function and `+=` joins strings, and `__proto__` never becomes a key.
- Analytics.Month: `substring(0, 7)` counts UTF-16 code units, and the model counts characters. The two agree on dates in the ASCII `YYYY-MM-DD` form.
- StrOrder.Less: strings are compared by Unicode code point. The default `sort()` compares UTF-16 code units, which differs only for characters outside the Basic Multilingual Plane.
- Analytics.SortByRevenue: stability is not stated. The contract says sorted and a permutation; the order among products with equal revenue is not part of it.
- The DOM itself is not modelled: markup, `renderTasks`, the `completed` and `dragging` classes, the form reset and input clearing, `elementFromPoint`, `closest` and `getBoundingClientRect`. These become parameters (`TargetList`, `Drop`, `ListItem`) or are omitted.
- TodoManager.Manager.TouchStart: a second touch start replaces the pending timer. In JavaScript the earlier timer handle is lost but still fires.
- The `setTimeout` delay of 350 ms is not modelled as time: `LongPressElapsed` is the timer firing.
- `JSON.parse` of a malformed `tasks` entry throws, and that failure path is not modelled: the persisted store is given as an already decoded value or `None`.
- Auth.UserJson: JSON string escaping of the e-mail is not modelled.
- TodoManager.Manager.ToggleTask: the checkbox closure holds the task object itself. The model addresses that task by its position in its category, which must exist.
- `console.log` calls and `e.preventDefault()` have no effect on the modelled state.
- scripts/main.js (sidebar and theme), scripts/router.js (navigation wiring) and scripts/people.js (static data rendered to HTML) are not part of this model.
