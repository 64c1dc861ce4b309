# Migrations check table — a Dafny model

This project models the logic of the admin dashboard's "Latest SingleStore
Migrations" table, the `MigrationsCheckTable` component. The component
fetches the migration activity records from `GET /api/activities` and turns
each record into a display row. It then publishes the rows to the shared
dashboard store, together with three aggregates: the number of migrations,
and the success and failure percentages. In the STATUS column it draws a
colour and an icon for each row's status.

The project has five modules.

- `MigrationTypes` (`types.dfy`): the raw records, with every optional JSON
  field as an `Option`; the `Status` enumeration; the `DisplayRow`; and when a
  migrated collection counts as failed.
- `RowNormalizer` (`normalizer.dfy`): the `.map` that builds `cleanData`. It is
  proved length- and order-preserving. `errors` is proved to be exactly the
  `error` fields of the failed collections, in their original order. The
  status is ERROR iff some collection failed. A well-formed row is recovered
  from a record rebuilt out of it.
- `PieChart` (`piechart.dfy`): `refreshPieChart`'s arithmetic. `Math.round` of
  the non-negative rational `100 * count / d` is computed exactly, halves
  rounded up. It is proved to be the nearest integer. Both percentages lie in
  [0, 100]. An empty snapshot gives 0 and 0, with no division by zero.
  Otherwise the two percentages add up to 100, or to 101 exactly when both
  shares sit at a half.
- `StatusDisplay` (`status_display.dfy`): the colour and icon ternaries of the
  STATUS cell.
- `MigrationsCheckTable` (`table.dfy`): the `DashboardStore` class with its four
  setters, and the `Table` class holding the `isFetching` ref. A settled fetch
  is applied as follows. A response replaces the rows and all three
  aggregates. A failure leaves the store unchanged. Either way `isFetching`
  ends `false`. The module also has the timer callback and end-to-end lemmas.

Inputs that the model cannot compute become parameters:

- the locale date formatting is the function parameter `format`;
- the outcome of the HTTP request is a `FetchOutcome` value.

Three places where the code does less, or other, than its names suggest. The
model follows the code in each:

- The ref is named `isFetching`, and the timer callback returns early while it is set (MigrationsCheckTable.tsx:144), which reads as an in-flight guard. Yet nothing ever sets it to `true`: the only write is the reset to `false` in `finally` (:120). The mounting effect also arms a single `setTimeout`, not a repeating timer (:143-149). So the guard never skips a fetch. `MigrationsCheckTable.MountThenTimer` states this as the store's final content.
- Failed collections are picked by `!entry.success` (:91), not by `success === false`. So an entry whose `success` field is missing counts as failed too, and the model does the same.
- The `name` field is the pair `[mongoDbName, true]` (:93), not the bare database name, and so it is in the model.

## Model

| member | source | states |
|---|---|---|
| `MigrationTypes.Failed` | src/views/admin/default/components/MigrationsCheckTable.tsx:91 | an entry with `success` equal to `true` has not failed; one with `false`, or with no `success` field, has |
| `RowNormalizer.CollectionsOf` | src/views/admin/default/components/MigrationsCheckTable.tsx:90 | the migrated collections of a record, and none when it has no payload or the payload has no `migratedCollections` |
| `RowNormalizer.NameOf` | src/views/admin/default/components/MigrationsCheckTable.tsx:93 | the payload's `mongoDbName`, and none when the record has no payload |
| `RowNormalizer.Failures` | src/views/admin/default/components/MigrationsCheckTable.tsx:91 | the failed entries: no more of them than entries, each one failed, and none exactly when no entry failed |
| `RowNormalizer.ErrorMessages` | src/views/admin/default/components/MigrationsCheckTable.tsx:95 | one message per failed entry, the k-th being the k-th entry's `error` field |
| `RowNormalizer.NormalizeRow` | src/views/admin/default/components/MigrationsCheckTable.tsx:90-110 | name is the pair of `mongoDbName` and `true`; quantity is the number of migrated collections, 0 without a payload; at most `quantity` errors; `hasErrors` iff some collection failed iff `errors` is non-empty; status ERROR iff `hasErrors`, else COMPLETED, never PROCESSING; date is the formatted `createdAt`; progress 100 |
| `RowNormalizer.Normalize` | src/views/admin/default/components/MigrationsCheckTable.tsx:89-111 | exactly one row per activity, the i-th row normalising the i-th activity |
| `RowNormalizer.ActivitiesOf` | src/views/admin/default/components/MigrationsCheckTable.tsx:88-89 | a response without `data`, or without `activities`, yields no activities; otherwise the list as sent |
| `RowNormalizer.CleanData` | src/views/admin/default/components/MigrationsCheckTable.tsx:88-111 | one row per activity of the response, and none when `data` or `activities` is missing |
| `RowNormalizer.ErrorsAreFailedEntriesInOrder` | src/views/admin/default/components/MigrationsCheckTable.tsx:91-95 | `errors` holds the `error` fields of exactly the failed entries, at strictly increasing source positions, each failed entry appearing |
| `RowNormalizer.NormalizedRowsWellFormed` | src/views/admin/default/components/MigrationsCheckTable.tsx:92-110 | every normalised row is well formed (name flag set, errors within quantity, status agrees with `hasErrors`, progress 100) |
| `RowNormalizer.Denormalize` | src/views/admin/default/components/MigrationsCheckTable.tsx:90-94 | a record rebuilt from a row has as many migrated collections as the row's quantity |
| `RowNormalizer.NormalizeDenormalize` | src/views/admin/default/components/MigrationsCheckTable.tsx:92-110 | normalising a record rebuilt from a well-formed row gives the same row back |
| `PieChart.CountWithErrors` | src/views/admin/default/components/MigrationsCheckTable.tsx:125-126 | the error count is at most the row count; it is 0 iff no row has errors and the row count iff every row has |
| `PieChart.CountWithErrorsIsCardinality` | src/views/admin/default/components/MigrationsCheckTable.tsx:125-126 | the error count is the number of row positions with `hasErrors` |
| `PieChart.Denominator` | src/views/admin/default/components/MigrationsCheckTable.tsx:130 | the denominator is 1 for an empty list and the total otherwise, so never 0 |
| `PieChart.RoundedPercent` | src/views/admin/default/components/MigrationsCheckTable.tsx:129-134 | `Math.round((count * 100) / (total or 1))` in exact arithmetic; it has no ensures of its own and is characterised by `PieChart.RoundsToNearest` (the nearest integer, halves up) and `PieChart.PercentBounds` (at most 100, and 0 for an empty list) |
| `PieChart.RoundsToNearest` | src/views/admin/default/components/MigrationsCheckTable.tsx:129-134 | the percentage is the integer nearest to `100 * count / d`, halves going up, as `Math.round` does |
| `PieChart.PercentBounds` | src/views/admin/default/components/MigrationsCheckTable.tsx:129-134 | a percentage of a part of the rows is at most 100, and 0 when there are no rows |
| `PieChart.ComplementaryPercents` | src/views/admin/default/components/MigrationsCheckTable.tsx:128-134 | success and failure percentages of a non-empty snapshot add up to 100 or 101, and to 101 iff the failure share is exactly halfway between two integers |
| `PieChart.Aggregate` | src/views/admin/default/components/MigrationsCheckTable.tsx:125-134 | the total, success percentage and failure percentage of a snapshot of rows; it has no ensures of its own, and its properties are `PieChart.AggregateBounds`, `PieChart.ComplementaryPercents` and `PieChart.AggregateRoundsShares` |
| `PieChart.AggregateBounds` | src/views/admin/default/components/MigrationsCheckTable.tsx:124-134 | total is the row count; both percentages in [0, 100]; empty snapshot gives 0 and 0; otherwise they sum to 100 or 101 |
| `PieChart.AggregateUniform` | src/views/admin/default/components/MigrationsCheckTable.tsx:125-134 | a snapshot without errors is 100% success and 0% failure; one with errors in every row the reverse |
| `PieChart.AggregateRoundsShares` | src/views/admin/default/components/MigrationsCheckTable.tsx:125-134 | the published failure and success percentages are the nearest integers to the error and success shares |
| `StatusDisplay.ColourOf` | src/views/admin/default/components/MigrationsCheckTable.tsx:294-303 | green iff COMPLETED, red iff ERROR, orange iff PROCESSING |
| `StatusDisplay.IconOf` | src/views/admin/default/components/MigrationsCheckTable.tsx:304-313 | check icon iff COMPLETED, pending icon iff PROCESSING, error icon iff ERROR |
| `StatusDisplay.DisplayDeterminedByStatus` | src/views/admin/default/components/MigrationsCheckTable.tsx:294-313 | the mapping is total; a colour exists iff an icon does iff the value is one of the three statuses; colour and icon each name the status they are drawn for; anything else gets neither |
| `StatusDisplay.NormalizedRowsDisplay` | src/views/admin/default/components/MigrationsCheckTable.tsx:294-313 | a normalised row is drawn green with a check iff none of its collections failed, and red with the error icon iff one did |
| `MigrationsCheckTable.DashboardStore.constructor` | src/views/admin/default/components/MigrationsCheckTable.tsx:76-82 | the store starts with the given rows and aggregates |
| `MigrationsCheckTable.DashboardStore.SetMigrationsData` | src/views/admin/default/components/MigrationsCheckTable.tsx:114 | replaces the rows and nothing else |
| `MigrationsCheckTable.DashboardStore.SetTotalMigrations` | src/views/admin/default/components/MigrationsCheckTable.tsx:138 | replaces the total and nothing else |
| `MigrationsCheckTable.DashboardStore.SetSuccessPercentage` | src/views/admin/default/components/MigrationsCheckTable.tsx:137 | replaces the success percentage and nothing else |
| `MigrationsCheckTable.DashboardStore.SetFailurePercentage` | src/views/admin/default/components/MigrationsCheckTable.tsx:136 | replaces the failure percentage and nothing else |
| `MigrationsCheckTable.Table.constructor` | src/views/admin/default/components/MigrationsCheckTable.tsx:75 | `isFetching` starts `false` |
| `MigrationsCheckTable.Table.RefreshPieChart` | src/views/admin/default/components/MigrationsCheckTable.tsx:124-139 | the store's total becomes the row count and its percentages those of the rows; the rows in the store are untouched |
| `MigrationsCheckTable.Table.PublishCleanData` | src/views/admin/default/components/MigrationsCheckTable.tsx:113-114 | the store then holds the rows and exactly their aggregates |
| `MigrationsCheckTable.Table.FetchActivities` | src/views/admin/default/components/MigrationsCheckTable.tsx:84-122 | a response replaces the rows and all three aggregates with those of its normalised activities; a failure leaves the whole store unchanged; `isFetching` ends `false` either way |
| `MigrationsCheckTable.Table.TimerCallback` | src/views/admin/default/components/MigrationsCheckTable.tsx:143-149 | skips with the store unchanged while `isFetching` is set, otherwise has the effect of a fetch |
| `MigrationsCheckTable.MountThenTimer` | src/views/admin/default/components/MigrationsCheckTable.tsx:141-149 | the two fetches of the mounting effect, taken in the order their requests settle (not the order they are sent): the guard never skips, and the store publishes the response of the last one to settle successfully, or is unchanged if both failed |
| `MigrationsCheckTable.ErrorCountOfActivities` | src/views/admin/default/components/MigrationsCheckTable.tsx:89-126 | the error count behind the failure percentage is the number of activities with at least one failed collection |
| `MigrationsCheckTable.EmptyResponse` | src/views/admin/default/components/MigrationsCheckTable.tsx:88-134 | a response without `data` or `activities` gives no rows and all-zero aggregates |
| `MigrationsCheckTable.OneFailedCollection` | src/views/admin/default/components/MigrationsCheckTable.tsx:88-134 | one record with one successful and one failed (`"timeout"`) collection: one ERROR row with quantity 2 and errors `["timeout"]`; aggregates 1, 0%, 100% |

## Left out

- The HTTP request through axios and the `console.error` log line: the request's result is the `FetchOutcome` parameter, and the log has no effect on state.
- The asynchrony of `fetchActivities`: each settled request is applied atomically. Because `isFetching` never blocks, two requests can overlap. The model applies them in the order they settle.
- The timer plumbing: arming the `setTimeout` on mount, its 15-second delay, and the `clearInterval` on unmount are not modelled. Only the callback's guard and its effect are.
- Date formatting with `toLocaleString('en-US', …)`: it is the `format` parameter over the optional `createdAt`.
- JSON values whose type differs from the model's field types. `success` is an optional boolean, so a truthy non-boolean such as the string `"false"`, which `!entry.success` treats as not failed, is outside the model; likewise `mongoDbName`, `error` and `createdAt` are optional strings.
- Malformed JSON that makes the `.map` throw, such as a non-array `activities` or a `null` entry: the model's types exclude these shapes. In the source the throw happens before any setter runs and is caught by `.catch`, so its effect is that of `FetchFailed`.
- react-table's sorting, global filter and pagination, including `pageSize = 11`: they belong to an external library.
- The range selector, react-hook-form and the yup schema: the effect only logs the selected range.
- Chakra rendering, apart from the colour and icon of the STATUS cell. The NAME cell prints the first part of its pair, `cell.value[0]` (:271); the TABLES and DATE cells print their value.
- The store's initial values and the string values of `MigrationCheckTableStatus`: `contexts/useDashboardStore` and `types/TableData` are not part of this model. The store constructor takes the initial values, and the enumeration is three distinct constructors.
- Floating point in `Math.round((count * 100) / d)`: the model uses exact rational rounding. Doubles agree with it for any realistic number of migrations.
- src/pages/profile.tsx and src/routes.tsx: a static page layout and a static route table, with no behaviour to model.
- `MigrationsCheckTable.Table.RefreshPieChart`: its contract does not restate the [0, 100] bounds. They follow from `PieChart.AggregateBounds` about the same `Aggregate` value.
