# Data-lake access API — a Dafny model

The modelled system is a small Django REST service in front of a file-based
data lake. The lake is a folder of dataset sub-folders, each holding JSON
files.

- **Access rights.** Users hold per-dataset access rights; a right may also
  list the lake versions it covers. The listing endpoints page the records
  of the datasets a user may read.
- **Version reads.** A version-scoped read goes through four checks and
  writes one audit row per decision.
- **Transactions.** The `TRANSACTIONS_COMPLETED` dataset is loaded on first
  use into a transaction table. An item is normalised with defaults for its
  missing columns; an item that makes normalisation raise, and a file that
  fails to decode, are skipped. As the code is written, an item without a
  truthy `TIMESTAMP` always raises (see "Findings").
- **Reports.** Three endpoints answer from that table: spending per user,
  the best-selling products, and the amount spent in the last five minutes.
- **Search.** A management command copies every item of every lake version
  into a search index. A full-text search endpoint queries that index and
  groups its hits by dataset.

## Modules

| file | module | what it holds |
|---|---|---|
| `values.dfy` | `Values` | JSON values, lake folders and files, Python truthiness and `dict.get` |
| `models.dfy` | `Models` | the persistent records, their defaults, the (user, dataset) uniqueness rule and the `__str__` forms |
| `loading.dfy` | `Loading` | reading a dataset folder into records |
| `access.dfy` | `Access` | the dataset check and the audited version-scoped read |
| `pagination.dfy` | `Pagination` | the two paged listing endpoints |
| `transactions.dfy` | `Transactions` | item normalisation and the transaction table, a class whose row list the load step appends to |
| `rollup.dfy` | `Rollup` | the per-user spending roll-up loop and what its totals mean |
| `reports.dfy` | `Reports` | the three report endpoints |
| `documents.dfy` | `Documents` | the connection retry loop and the search document shape |
| `indexer.dfy` | `Indexer` | the indexing command, a class over the index's document map |
| `search.dfy` | `Search` | the full-text search endpoint and its grouping loop |

## How the model represents the environment

- **Database tables.** Tables are sequences in primary-key order. The
  tables the code writes to are class fields that methods append to:
  `Transactions.TransactionStore.rows`, `Access.AuditTrail.entries` and
  `Indexer.SearchIndex.docs`.
- **The filesystem.** The file system is a `Storage` map from a path to
  that folder's listing. A listing is a sequence of `File` and `Folder`
  entries in `os.listdir` order. A file's content is either `Unreadable`,
  which covers files that do not open or are not valid JSON, or a parsed
  JSON value.
- **Parsers, clock and backend.** These are all function parameters:
  - `strptime` with either layout, and `float()` of a string. Each answers
    None where Python raises.
  - The clock readings of the five-minute report, and the ingestion clock
    of the intended item normalisation, in microseconds.
  - The outcome of each Elasticsearch connection attempt.
  - The search backend, which answers a list of conditions with the hits,
    or with None where the call raises.
- **Dictionaries.** Python dictionaries whose insertion order shows in a
  response are association sequences with distinct keys.
- **Amounts.** Decimal and float amounts are reals.

The members without an `Intended` prefix model the code as written. Where
the code and its evident intent disagree, they follow the code; the two
places where the code evidently misbehaves are listed under "Findings",
each with a member for the intended behaviour beside it.

- An item whose `TIMESTAMP` is truthy but does not parse raises inside
  `create_transaction_from_data`, so no row is created. It does not fall
  back to the current time.
- An item whose `TIMESTAMP` is missing or falsy is not stamped with the
  current time either: that call raises too, so no row is created
  (first row of "Findings").
- `total_spent_by_user_type` answers a user without the right with a 500,
  not a 403 (second row of "Findings").
- `access_right_list` lists every access right in the store, not only the
  caller's.
- Version names are not unique in the schema. When several versions share
  the requested name, `objects.get` raises; the read then ends in a server
  error and writes no audit row.
- In the indexing command, a version whose path is missing makes
  `os.listdir` raise outside any handler, which stops the whole command.
- A page number below 1 is not validated: it reaches Python's slicing,
  which counts negative bounds from the end of the list.

## Model

| member | source | states |
|---|---|---|
| `Values.FileItems` | myapp/myapp/views.py:115-118 | a file holding a JSON list contributes its elements; any other JSON value is a single record |
| `Values.FindEntry` | myapp/myapp/views.py:104-105 | a named entry is found only when the listing holds an entry of that name, and it is then that entry |
| `Values.SubFolder` | myapp/myapp/views.py:104-106 | a dataset folder is found exactly when the parent listing holds a directory of that name |
| `Models.NewAccessRight` | myapp/myapp/models.py:14-18 | a new access right lists no version and does not cover all versions |
| `Models.NewDetailedAccessLog` | myapp/myapp/models.py:40-47 | a log row created without a status counts as a success with an empty message |
| `Models.OnVersionDeleted` | myapp/myapp/models.py:44 | deleting a version nulls the version of exactly the log rows that pointed at it; no row disappears and no other field changes |
| `Models.CreateAccessRight` | myapp/myapp/models.py:20-21 | a second right for the same (user, dataset) pair is refused with an integrity error; every accepted insertion keeps the pairs unique |
| `Models.FirstIndex` | myapp/myapp/models.py:11-12 | helper for the label round trips: the first position of a character, or its absence |
| `Models.FirstIndexAfter` | myapp/myapp/models.py:11-12 | helper for the label round trips: the first occurrence in `a + b` of a character absent from `a` is its first occurrence in `b`, shifted by `|a|` |
| `Models.VersionLabelRoundTrip` | myapp/myapp/models.py:11-12 | the version label "name (path)" gives back both the name and the path whenever the name holds no '(' |
| `Models.AccessRightLabelRoundTrip` | myapp/myapp/models.py:23-24 | the label "user - dataset" gives back the user and the dataset whenever the user name holds no '-' |
| `Models.LogLabel` | myapp/myapp/models.py:49-50 | a log row's label starts with its user and dataset written as in an access-right label, and ends with " (None)" for a deleted version or otherwise with the version's label in parentheses |
| `Models.DisplayName` | myapp/myapp/models.py:64-65 | a transaction is shown under its user name, or under "Unknown" when the name is null or empty; never under an empty name |
| `Models.TransactionLabel` | myapp/myapp/models.py:64-65 | a transaction's label starts with its display name and ends with the closing parenthesis around its status |
| `Models.CutDash` | myapp/myapp/models.py:64-65 | helper for the transaction label round trip: cutting "a - b" at its first '-' gives back `a` and `b` when `a` holds no '-' |
| `Models.CutParen` | myapp/myapp/models.py:64-65 | helper for the transaction label round trip: cutting "a (b" at its first '(' gives back `b` when `a` holds no '(' |
| `Models.TransactionLabelRoundTrip` | myapp/myapp/models.py:64-65 | the label "name - category - amount (status)" gives back the display name, the category and the status whenever the name and the category hold no '-' and the written amount holds no '(' |
| `Models.AllowedVersionLabels` | myapp/myapp/models.py:26-31 | a serialised right lists the label of every version it covers and nothing else |
| `Models.AccessRightList` | myapp/myapp/views.py:32-36 | the listing serialises every stored access right, one entry per row in order, with its fields and version labels |
| `Loading.Contribution` | myapp/myapp/views.py:109-121 | a non-`.json` name, a folder or an unreadable file contributes nothing; a readable `.json` file contributes its items |
| `Loading.FlattenAppend` | myapp/myapp/views.py:108-122 | the records of a listing split anywhere are the records of the first part followed by those of the second |
| `Loading.FailedFileIsSkipped` | myapp/myapp/views.py:119-121 | a file that fails to load drops its own records and changes nothing else |
| `Loading.FlattenSnoc` | myapp/myapp/views.py:108-122 | one more file in the listing appends exactly that file's records at the end |
| `Loading.FlattenSource` | myapp/myapp/views.py:108-122 | every record read from a folder comes from one of its files' contributions |
| `Loading.FlattenContains` | myapp/myapp/views.py:108-122 | every record a file contributes is among the folder's records |
| `Loading.FlattenMembership` | myapp/myapp/views.py:108-122 | a record is loaded exactly when some entry of the folder contributes it |
| `Loading.LoadDataForDataset` | myapp/myapp/views.py:99-122 | the answer is None exactly when the folder is missing; otherwise it is the concatenation of the folder's file contributions, in listing order |
| `Loading.DatasetLoads` | myapp/myapp/views.py:53-57 | the per-dataset loads are one per dataset of the user |
| `Loading.DatasetLoadsAt` | myapp/myapp/views.py:53-57 | the load for a dataset is the records `load_data_for_dataset` returns for it, or nothing when its folder is missing |
| `Loading.ConcatSource` | myapp/myapp/views.py:53-57 | every element of the laid-end-to-end loads comes from one of them |
| `Loading.ConcatContains` | myapp/myapp/views.py:53-57 | every element of any one load is in the laid-end-to-end loads |
| `Loading.UnionStep` | myapp/myapp/views.py:53-57 | one more dataset extends the authorised data by exactly that dataset's records, at the end |
| `Loading.UnionMembership` | myapp/myapp/views.py:53-57 | a record is in the authorised data exactly when it belongs to one of the user's datasets |
| `Loading.LoadAuthorizedData` | myapp/myapp/views.py:53-57 | the accumulation loop builds the union of the user's datasets, in the order of the user's rights |
| `Access.CheckDatasetAccess` | myapp/myapp/views.py:38-40 | access is granted exactly when some access-right row names the user and the dataset |
| `Access.AccessIgnoresVersionFields` | myapp/myapp/views.py:38-40 | the dataset-level answer depends on the (user, dataset) pairs only, never on the version fields |
| `Access.FirstRight` | myapp/myapp/views.py:480-483 | a right is found exactly when access is granted, and the right found is a stored row for the pair |
| `Access.FirstRightIsTheRight` | myapp/myapp/views.py:480-483 | under the uniqueness rule, the right found is the only right of the pair |
| `Access.UserDatasets` | myapp/myapp/views.py:49-51 | the user's datasets are empty exactly when the user holds no right; a dataset is listed exactly when access to it is granted |
| `Access.VersionsNamed` | myapp/myapp/views.py:465 | the versions selected are exactly the catalog rows carrying the name |
| `Access.VersionDecision` | myapp/myapp/views.py:460-543 | checks run in order: version lookup (404, or 500 when the name is ambiguous), access right (403), version permission (403), dataset folder (404), then success (200). Every decision except the ambiguous one logs exactly one row, which records a success exactly for the 200 answer. A successful read returns the folder's records under the version's path |
| `Access.FreshRightReadsNoVersion` | myapp/myapp/models.py:14-21 | a right created with its defaults (no version listed, not all versions) opens the dataset but lets no version-scoped read through |
| `Access.VersionReadGranted` | myapp/myapp/views.py:499-529 | for a unique version name and unique rights, a user reads the version exactly when the right covers it and the folder exists |
| `Access.AuditTrail.constructor` | myapp/myapp/models.py:40-47 | a new access-log table holds no rows |
| `Access.AuditTrail.Create` | myapp/myapp/views.py:467-473 | creating a log row appends it to the audit trail |
| `Access.GetDatasetVersion` | myapp/myapp/views.py:460-543 | the endpoint answers as the decision says and appends to the audit trail exactly the rows the decision logs |
| `Pagination.SliceBound` | myapp/myapp/views.py:68 | a slice bound is clamped to the list; a negative bound counts from the end |
| `Pagination.PySlice` | myapp/myapp/views.py:68 | an in-range slice is the plain subsequence, an end past the list is cut to it, and the result is never longer than the list |
| `Pagination.Paginate` | myapp/myapp/views.py:60-74 | a page is out of range exactly when `(page-1)*10` is not below the length. Otherwise the answer carries the page, the page size 10, the total, and at most 10 results; for page 1 or more these are the items from `(page-1)*10` on |
| `Pagination.PageZeroIsEmpty` | myapp/myapp/views.py:60-68 | page 0 is never out of range and answers 200 with no results, even over an empty list |
| `Pagination.NegativePageCountsFromEnd` | myapp/myapp/views.py:60-68 | a negative page returns the window that Python's negative slice bounds select from the end |
| `Pagination.PageItemsSlice` | myapp/myapp/views.py:60-68 | page k is the slice of the data between the ends of pages k-1 and k: consecutive pages abut |
| `Pagination.PagesUpToIsPrefix` | myapp/myapp/views.py:60-68 | pages 1..k laid end to end are exactly the first 10k items: none skipped, none repeated |
| `Pagination.PagesCoverData` | myapp/myapp/views.py:60-68 | the in-range pages give back the whole list, and the page after the last one is out of range |
| `Pagination.PageOf` | myapp/myapp/views.py:60-74 | a page text that `int()` rejects gives 500 and an out-of-range page gives 404; otherwise the listing is the page `Paginate` computes for the parsed number: its total, page size 10 and that page's items |
| `Pagination.RetrieveAll` | myapp/myapp/views.py:45-74 | 403 exactly when the user holds no right; otherwise the paged union of the user's datasets |
| `Pagination.RetrieveProjection` | myapp/myapp/views.py:127-155 | 403 exactly without the dataset's right, 404 exactly when its folder is missing, otherwise the folder's records paged |
| `Transactions.ToFloat` | myapp/myapp/views.py:265 | `float()` keeps a number as it is and raises on null, lists and objects |
| `Transactions.Truncate` | myapp/myapp/models.py:58 | `int()` of a real truncates toward zero |
| `Transactions.TextColumn` | myapp/myapp/views.py:261-264 | a text column takes the string given, or "Unknown" when the key is absent, and fails on any other value |
| `Transactions.NullableTextColumn` | myapp/myapp/views.py:268-270 | a nullable column is the string given, NULL for a JSON null, or "Unknown" when the key is absent |
| `Transactions.CountryColumn` | myapp/myapp/views.py:246-247 | the country is read from `LOCATION.COUNTRY`, defaulting to "Unknown" when either key is absent; a non-object location fails the item |
| `Transactions.RatingColumn` | myapp/myapp/views.py:249-251 | a missing or null rating is stored as 0; a number is stored truncated |
| `Transactions.TimestampColumn` | myapp/myapp/views.py:253-258 | as written: a missing or falsy timestamp fails the item, because `datetime` is an unbound local in that branch; a truthy one must be a string the ISO layout parses, and is stored as parsed |
| `Transactions.IntendedTimestampColumn` | myapp/myapp/views.py:253-258 | as intended: a missing or falsy timestamp becomes the ingestion clock's value; a truthy one is read as the code reads it |
| `Transactions.BuildRow` | myapp/myapp/views.py:244-271 | once the timestamp is known, the row fails exactly when a column fails or there is no timestamp; otherwise it holds each column's normalised value |
| `Transactions.CreateTransaction` | myapp/myapp/views.py:244-273 | as written: an item yields no row exactly when it is malformed field by field or has no truthy timestamp; otherwise the row is built from each column's normalised value |
| `Transactions.IntendedCreateTransaction` | myapp/myapp/views.py:244-273 | as intended: an item yields no row exactly when it is malformed field by field; a missing timestamp no longer fails it |
| `Transactions.MissingTimestampDropsItem` | myapp/myapp/views.py:253-258 | as written, every object without a truthy timestamp is dropped; `{"AMOUNT": 5}` is dropped, where the intended code stores it with defaults and the clock's time |
| `Transactions.TimestampedItemsAgree` | myapp/myapp/views.py:253-258 | for an object with a truthy timestamp, the code as written and as intended create the same row or fail alike |
| `Transactions.NormalisationDefaults` | myapp/myapp/views.py:246-270 | every default of a created row: "Unknown" texts, country from the nested location, rating 0, amount 0; its timestamp is the parse of a truthy string field |
| `Transactions.IntendedNormalisationDefaults` | myapp/myapp/views.py:246-270 | the same defaults as intended, with the clock's time for a missing or falsy timestamp |
| `Transactions.RowsFromItemsAppend` | myapp/myapp/views.py:237-242 | the rows of concatenated item lists are the concatenated rows |
| `Transactions.MalformedItemIsSkipped` | myapp/myapp/views.py:272-273 | a malformed item is dropped without affecting the items around it |
| `Transactions.RowsOnePerItem` | myapp/myapp/views.py:237-242 | with no malformed item, there is exactly one row per item, in order, each the item's normalisation |
| `Transactions.IngestIsNormalisedFlatten` | myapp/myapp/views.py:225-235 | loading a folder file by file gives the normalised rows of exactly the records that the dataset loader reads from it |
| `Transactions.TransactionStore.constructor` | myapp/myapp/models.py:52-62 | a new transaction table is empty |
| `Transactions.TransactionStore.Create` | myapp/myapp/views.py:260-271 | creating a row appends it to the table |
| `Transactions.RowsFromItemsStep` | myapp/myapp/views.py:237-242 | one more item adds its row at the end, or nothing when creating it raises |
| `Transactions.IngestStep` | myapp/myapp/views.py:225-235 | one more file of the folder adds exactly that file's rows at the end |
| `Transactions.TransactionStore.LoadFolder` | myapp/myapp/views.py:225-235 | the file loop appends the rows of every file of the folder, file after file |
| `Transactions.TransactionStore.LoadFile` | myapp/myapp/views.py:226-235 | a ".json" file that decodes appends its items' rows; any other entry, or a file that fails to decode, appends nothing |
| `Transactions.TransactionStore.ProcessTransactionData` | myapp/myapp/views.py:237-242 | the table grows by the normalised rows of the file's items, in order |
| `Transactions.TransactionStore.LoadDataFromLake` | myapp/myapp/views.py:214-235 | without the right nothing changes; with it the table grows by the lake's normalised rows. The call crashes exactly when the dataset path is a file, not a folder |
| `Transactions.TransactionStore.EnsureLoaded` | myapp/myapp/views.py:314-319 | a non-empty table is left alone; an empty one, for an entitled user, becomes the lake's rows |
| `Transactions.TransactionStore.GetQueryset` | myapp/myapp/views.py:206-212 | without the right the user sees nothing and nothing changes; with it an empty table is loaded first and the user sees the whole table |
| `Rollup.Bump` | myapp/myapp/views.py:351-366 | adding to a status or payment bucket raises the bucket list's counts and totals by exactly the amounts added |
| `Rollup.BucketAt` | myapp/myapp/views.py:351-366 | a key has a bucket exactly when it is among the keys |
| `Rollup.BumpNewKey` | myapp/myapp/views.py:350-356 | bumping a new key appends, at the end, a bucket holding exactly the count and amount added |
| `Rollup.BumpKnownKey` | myapp/myapp/views.py:350-356 | bumping a known key adds the count and amount to its bucket and adds no bucket |
| `Rollup.BumpOthers` | myapp/myapp/views.py:351-366 | bumping a key leaves every other key's bucket as it was |
| `Rollup.BumpKeys` | myapp/myapp/views.py:351-366 | adding to a bucket adds its key to the keys, and a bucket list with distinct keys keeps them distinct: a key is never listed twice |
| `Rollup.DistinctCons` | myapp/myapp/views.py:351-366 | a bucket list has distinct keys exactly when its first key is not among the rest's keys and the rest's keys are distinct |
| `Rollup.KeysCons` | myapp/myapp/views.py:351-366 | the keys of a bucket list are its first key plus the keys of the rest |
| `Rollup.IndexOfUser` | myapp/myapp/views.py:332 | the user entry found is the first one with that id; none is found only when no entry has it |
| `Rollup.RollupStep` | myapp/myapp/views.py:330-366 | the roll-up of one more group is the previous roll-up with that group added |
| `Rollup.AddGroup` | myapp/myapp/views.py:331-366 | one loop iteration: the user entry is created if new, then its totals and both breakdowns are updated by the group |
| `Rollup.TotalSpentByUserType` | myapp/myapp/views.py:329-371 | the loop's dictionary is the roll-up of the groups, and `total_users` is its number of entries |
| `Rollup.NoGroupsNoTotals` | myapp/myapp/views.py:329-366 | a user with no group has spent nothing and made no transaction |
| `Rollup.UpdateKeepsConsistent` | myapp/myapp/views.py:347-366 | updating a user entry keeps both breakdowns summing to the user's totals |
| `Rollup.UserIdsSnoc` | myapp/myapp/views.py:331-339 | one more group adds its user id to the ids seen |
| `Rollup.IdsSnoc` | myapp/myapp/views.py:332-339 | a new user entry adds its id to the entries' ids |
| `Rollup.IdsUpdate` | myapp/myapp/views.py:347-366 | updating an entry in place keeps the set of ids |
| `Rollup.NewUserKeepsInvariant` | myapp/myapp/views.py:332-366 | a group of a new user keeps the roll-up invariant: distinct ids, totals equal to the groups' sums, consistent breakdowns |
| `Rollup.KnownUserKeepsInvariant` | myapp/myapp/views.py:341-366 | a group of a known user keeps the roll-up invariant |
| `Rollup.AddStatKeepsInvariant` | myapp/myapp/views.py:330-366 | every iteration keeps the roll-up invariant |
| `Rollup.RollupKeepsInvariant` | myapp/myapp/views.py:329-366 | the roll-up of any group list satisfies the invariant |
| `Rollup.RollupTotals` | myapp/myapp/views.py:329-371 | each user's totals are the sums over that user's groups, and both breakdowns sum to those totals |
| `Rollup.DistinctCardinality` | myapp/myapp/views.py:369 | entries with distinct ids are as many as their ids |
| `Rollup.TotalUsersCountsDistinctIds` | myapp/myapp/views.py:369 | `total_users` is the number of distinct user ids among the groups |
| `Rollup.GroupOf` | myapp/myapp/views.py:321-326 | the group found has the row's user, payment method and status; none is found only when no group has all three |
| `Rollup.UserTotalsSnoc` | myapp/myapp/views.py:321-326 | appending a group adds its count and amount to its user's sums |
| `Rollup.UserTotalsUpdate` | myapp/myapp/views.py:321-326 | replacing a group changes its user's sums by the difference between the new group and the old one |
| `Rollup.AddRowTotals` | myapp/myapp/views.py:321-326 | grouping one more transaction adds exactly one count and its amount to its own user, and nothing to any other user |
| `Rollup.GroupsKeepUserTotals` | myapp/myapp/views.py:321-326 | the groups of a table carry, per user, exactly that user's transaction count and amount |
| `Rollup.BreakdownMatchesTransactions` | myapp/myapp/views.py:321-371 | in the report, every user's `total_transactions` and `total_spent` are that user's count and sum over the transaction table |
| `Reports.SpendingReport` | myapp/myapp/views.py:313-375 | with the right: a non-empty table is never reloaded and an empty one becomes the lake's normalised rows, 500 exactly when that load crashes, otherwise the roll-up of the table's groups with `total_users` its length; without it, the given refusal and the table left alone |
| `Reports.TotalSpentByUserType` | myapp/myapp/views.py:304-375 | as written: never 403 nor 400. 500 exactly without the right (leaving the table alone) or when an empty table's load crashes. A non-empty table is never reloaded; an empty one, for an entitled user, becomes the lake's normalised rows. Otherwise the roll-up of the table's groups, with `total_users` its length |
| `Reports.IntendedTotalSpentByUserType` | myapp/myapp/views.py:304-375 | as intended: 403 exactly without the right, leaving the table alone; otherwise as written, an empty table becoming the lake's normalised rows before the roll-up |
| `Reports.ProductGroupOf` | myapp/myapp/views.py:397-401 | the group found has the product id and category; none is found only when no group has both |
| `Reports.TotalBoughtSnoc` | myapp/myapp/views.py:400 | appending a product group adds its count |
| `Reports.TotalBoughtUpdate` | myapp/myapp/views.py:400 | replacing a product group changes the total by the difference between the new count and the old one |
| `Reports.AddProductCountsOne` | myapp/myapp/views.py:397-401 | counting one more transaction raises the groups' total of `total_bought` by exactly one |
| `Reports.CountKeySnoc` | myapp/myapp/views.py:397-401 | helper: one more transaction adds one to its own product's count and nothing to any other |
| `Reports.LookupKeepsGroups` | myapp/myapp/views.py:397-401 | helper: a product missing from a list of groups is missing from any list starting with the same keys |
| `Reports.AddProductNew` | myapp/myapp/views.py:397-401 | a transaction of a product with no group opens a group counting it once, keeping keys distinct and every count exact |
| `Reports.AddProductKnown` | myapp/myapp/views.py:397-401 | a transaction of a product with a group adds one to that group only, keeping keys distinct and every count exact |
| `Reports.AddProductKeepsCounts` | myapp/myapp/views.py:397-401 | counting one more transaction keeps the product keys distinct, each group's count equal to its key's number of transactions, and a key without a group uncounted |
| `Reports.ProductGroupsByKey` | myapp/myapp/views.py:397-401 | the product grouping has distinct `(product_id, product_category)` keys, each group's `total_bought` is the number of transactions of its key, and a key with no group has no transaction |
| `Reports.ProductGroupsCountEveryRow` | myapp/myapp/views.py:397-401 | the product groups' `total_bought` values add up to the number of transactions |
| `Reports.Insert` | myapp/myapp/views.py:402 | insertion adds exactly the one group to the sequence |
| `Reports.InsertAtMost` | myapp/myapp/views.py:402 | insertion keeps every count below a common bound |
| `Reports.InsertKeepsOrder` | myapp/myapp/views.py:402 | inserting into a list sorted by decreasing `total_bought` keeps it sorted |
| `Reports.SortByBought` | myapp/myapp/views.py:402 | ordering by `-total_bought` is a permutation of the groups, sorted by decreasing count |
| `Reports.Take` | myapp/myapp/views.py:402 | `[:limit]` is the prefix of length min(limit, size) |
| `Reports.Line` | myapp/myapp/views.py:405-410 | a product line carries the group's id, category and count, with a null total written as 0 |
| `Reports.Lines` | myapp/myapp/views.py:405-410 | one line per group, in order |
| `Reports.SplitOrdered` | myapp/myapp/views.py:402 | cutting the groups ordered by purchases keeps the front ordered, loses no group, and leaves no group behind the cut bought more than one before it |
| `Reports.TopGroupsAreTheBest` | myapp/myapp/views.py:397-402 | the top `limit` groups together with the rest are all the groups; the top ones are sorted, as many as allowed, and no left-out group sold more than a chosen one |
| `Reports.TopProducts` | myapp/myapp/views.py:380-423 | 403 exactly without the right. An unparsable limit gives "Invalid limit parameter" and a limit of 0 or less gives "Limit must be a positive integer", both 400, and no other 400 message exists. Every other request gets a report of at most `limit` lines: the top groups' lines, with 10 when no limit is given |
| `Reports.Recent` | myapp/myapp/views.py:288-289 | the filtered rows all have a timestamp at or after the window's start, are drawn from the table, and include every such row |
| `Reports.RecentCounts` | myapp/myapp/views.py:288-289 | the filter keeps each qualifying row exactly as many times as the table holds it, and no other row |
| `Reports.RecentKeepsRepeatedRows` | myapp/myapp/views.py:288-289 | two equal transactions in the window are both kept |
| `Reports.SumAmountsSnoc` | myapp/myapp/views.py:290-292 | the sum of one more row adds its amount |
| `Reports.SpentSinceSumsRecent` | myapp/myapp/views.py:288-292 | the window's total is the sum of the amounts of the rows in the window |
| `Reports.NothingRecentSpendsZero` | myapp/myapp/views.py:291 | an empty window totals 0.0, as the `Coalesce` default says |
| `Reports.WiderWindowSpendsMore` | myapp/myapp/views.py:287-292 | with non-negative amounts, a window that starts earlier never totals less |
| `Reports.Last5MinutesSpent` | myapp/myapp/views.py:278-299 | 403 exactly without the right; otherwise the window starts five minutes before the request, ends at the second clock reading, and totals the rows inside it |
| `Documents.FirstSuccess` | myapp/myapp/documents.py:9-13 | the first successful attempt, with all earlier attempts failing, or no success among the allowed attempts |
| `Documents.ConnectElasticsearch` | myapp/myapp/documents.py:7-20 | connected exactly when one of the first `max_retries` attempts succeeds, stopping at the first success. After a failure it pauses `delay` seconds, except after the last attempt |
| `Documents.ElasticsearchAvailable` | myapp/myapp/documents.py:22 | the service is available exactly when one of three attempts connects |
| `Indexer.DocumentId` | myapp/myapp/management/commands/index_data.py:53 | a document id starts with the version name and an underscore, ends with the transaction id, and has the three parts' lengths plus two |
| `Indexer.DocumentIdInjective` | myapp/myapp/management/commands/index_data.py:53 | within one version and dataset, distinct transaction ids give distinct document ids |
| `Indexer.DocumentIdsCanCollide` | myapp/myapp/management/commands/index_data.py:53 | across versions and datasets whose names contain underscores, two different items can share one document id, so one overwrites the other |
| `Indexer.IdText` | myapp/myapp/management/commands/index_data.py:53 | a string transaction id appears in the document id as it is |
| `Indexer.ToDocument` | myapp/myapp/management/commands/index_data.py:45-67 | an item becomes a document exactly when it is not broken. A broken item is a non-object, an unparsable truthy timestamp, a non-object location, or an amount `float()` rejects. The document is tagged with its dataset and version |
| `Indexer.DocumentFields` | myapp/myapp/management/commands/index_data.py:47-66 | the field defaults: '' for text fields, country from the nested location, rating 0, amount 0; a falsy timestamp is kept as it was, a truthy one is parsed |
| `Indexer.ItemSave` | myapp/myapp/management/commands/index_data.py:45-68 | a record yields a save exactly when building its document does not raise; the save holds that document, under the id made of the version, the dataset and the record's `TRANSACTION_ID` |
| `Indexer.ItemSaves` | myapp/myapp/management/commands/index_data.py:45-68 | a file never saves more documents than it has items |
| `Indexer.ItemSavesStopAtFirstBroken` | myapp/myapp/management/commands/index_data.py:36-71 | the items of a file are saved in order, each under its id, until the first broken item; the exception skips the rest of that file |
| `Indexer.ItemLoopStep` | myapp/myapp/management/commands/index_data.py:45-68 | after the saves of the items already done, an item that raises ends the file's saves, and any other item adds its own save ahead of those of the items after it |
| `Indexer.DatasetSavesStep` | myapp/myapp/management/commands/index_data.py:31-71 | a dataset's saves are the first file's saves followed by the rest |
| `Indexer.DatasetLoopStep` | myapp/myapp/management/commands/index_data.py:31-71 | the file loop's progress invariant carries over one file |
| `Indexer.VersionLoopStep` | myapp/myapp/management/commands/index_data.py:23-28 | after the saves of the entries already done, the next entry of a version adds its own saves (none for a non-directory) ahead of those of the entries after it |
| `Indexer.WalkStep` | myapp/myapp/management/commands/index_data.py:17-23 | a version whose path cannot be listed ends the walk there, unfinished; any other version adds the saves of its listing and the walk goes on |
| `Indexer.ApplySavesSnoc` | myapp/myapp/management/commands/index_data.py:68 | one more save stores its document under its id |
| `Indexer.ApplySavesAppend` | myapp/myapp/management/commands/index_data.py:68 | saving two runs of documents is saving the first, then the second |
| `Indexer.ApplySavesOverrides` | myapp/myapp/management/commands/index_data.py:68 | a run of saves overwrites the ids it saves and leaves every other document unchanged |
| `Indexer.ReindexingIsIdempotent` | myapp/myapp/management/commands/index_data.py:53-68 | running the same saves twice leaves the index as one run does |
| `Indexer.DatasetSavesAppend` | myapp/myapp/management/commands/index_data.py:31-71 | the saves of a listing split anywhere are those of its two parts in order |
| `Indexer.FailingFileIsSkipped` | myapp/myapp/management/commands/index_data.py:70-71 | an unreadable file saves nothing and does not affect the other files |
| `Indexer.DatasetSavesAreTagged` | myapp/myapp/management/commands/index_data.py:65-66 | every document saved from a dataset carries that dataset and version |
| `Indexer.VersionSavesAreTagged` | myapp/myapp/management/commands/index_data.py:22-66 | every document saved from a version carries the version and one of its directory names |
| `Indexer.WalkCompletes` | myapp/myapp/management/commands/index_data.py:17-23 | the command completes exactly when every version's path exists |
| `Indexer.SearchIndex.constructor` | myapp/myapp/documents.py:40-41 | the index starts with the given documents |
| `Indexer.SearchIndex.SaveDocument` | myapp/myapp/documents.py:47-48 | saving stores the document under its id, replacing any earlier one |
| `Indexer.SearchIndex.IndexItems` | myapp/myapp/management/commands/index_data.py:45-68 | the item loop applies exactly the file's saves |
| `Indexer.SearchIndex.IndexFile` | myapp/myapp/management/commands/index_data.py:35-71 | one file applies exactly its saves |
| `Indexer.SearchIndex.IndexDataset` | myapp/myapp/management/commands/index_data.py:31-71 | the file loop applies exactly the dataset's saves |
| `Indexer.SearchIndex.IndexEntry` | myapp/myapp/management/commands/index_data.py:23-28 | one entry of a version folder applies exactly its saves: none for a non-directory, its dataset's for a directory |
| `Indexer.SearchIndex.IndexVersion` | myapp/myapp/management/commands/index_data.py:22-71 | the dataset loop applies exactly the version's saves |
| `Indexer.SearchIndex.Handle` | myapp/myapp/management/commands/index_data.py:11-73 | the command applies the saves of the walk over every version and completes exactly when the walk does |
| `Search.ItemOf` | myapp/myapp/views.py:650-662 | an item carries every field of its hit's document except the dataset and version: put back together with those two it is the document |
| `Search.Conditions` | myapp/myapp/views.py:611-629 | the query has the multi-match over the seven text fields first, plus a `timestamp >= from_date` range only when a date is given |
| `Search.GroupIndex` | myapp/myapp/views.py:644 | the group found has the hit's dataset; none is found only when no group has it |
| `Search.GroupByDataset` | myapp/myapp/views.py:641-662 | the grouping loop builds the association list of groups by dataset |
| `Search.SourcesSnoc` | myapp/myapp/views.py:642-643 | one more hit adds its dataset to the datasets seen |
| `Search.NoHitsFrom` | myapp/myapp/views.py:642-648 | a dataset with no hit has no items and no version |
| `Search.AddHitNewDataset` | myapp/myapp/views.py:644-662 | a hit from a new dataset keeps the grouping invariant |
| `Search.AddHitKnownDataset` | myapp/myapp/views.py:650-662 | a hit from a known dataset keeps the grouping invariant |
| `Search.GroupHitsGroups` | myapp/myapp/views.py:641-662 | the grouping of any hit list satisfies the invariant |
| `Search.GroupingIsByDataset` | myapp/myapp/views.py:641-662 | each dataset appears once. Its items are exactly its hits, in order, and its version is the version of its first hit |
| `Search.DatasetsAreTheSources` | myapp/myapp/views.py:641-662 | the datasets of the answer are exactly the datasets of the hits |
| `Search.ItemCountSnoc` | myapp/myapp/views.py:645-648 | a new group adds its items to the count |
| `Search.ItemCountUpdate` | myapp/myapp/views.py:650 | replacing a group changes the count by the difference in its items |
| `Search.GroupingKeepsEveryHit` | myapp/myapp/views.py:641-662 | the groups hold as many items as there are hits: none lost, none duplicated |
| `Search.FullTextSearch` | myapp/myapp/views.py:577-675 | checks run in order, each error exactly under its condition: 503 when the backend is unavailable, 400 without a query, 400 for an unparsable date. A request passing them gets 500 exactly when the search raises, and otherwise the query, the date, the total and the hits grouped by dataset |

## Findings

| source | as written | input that shows it | evidently intended | confidence | as-written member | corrected member |
|---|---|---|---|---|---|---|
| myapp/myapp/views.py:253-258 | the `from datetime import datetime` inside the truthy branch makes `datetime` local to the function, so `datetime.now()` in the other branch raises UnboundLocalError; the handler swallows it and the item gets no row | the item `{"AMOUNT": 5}` | an item without a timestamp is stored, stamped with the current time | not executed | `Transactions.CreateTransaction` (`Transactions.MissingTimestampDropsItem`) | `Transactions.IntendedCreateTransaction` (`Transactions.IntendedNormalisationDefaults`, `Transactions.TimestampedItemsAgree`) |
| myapp/myapp/views.py:310, 341 | the loop's `status = stat['status']` makes `status` local to the function, so `status.HTTP_403_FORBIDDEN` raises UnboundLocalError outside the `try`, and the request ends in a 500 | a user holding no right on `TRANSACTIONS_COMPLETED` | 403 with "Access denied" | not executed | `Reports.TotalSpentByUserType` | `Reports.IntendedTotalSpentByUserType` |

## Left out

- Request logging (`log_access`, views.py:21-27) writes one `AccessLog` row per request with no effect on any answer; it and the `AccessLog` table are not modelled.
- `list_data_lake_resources` and `get_dataset_access_history` are not part of this model, nor are `load_all_data` (which no endpoint calls), the URL routes and the admin registrations.
- `TransactionViewSet.list` and `retrieve`, the DRF filter, search and ordering backends and serialisation are framework code; only `get_queryset` and the loading chain behind it are modelled.
- `init_elasticsearch` (index creation with its shard settings) is left out; the index is a map from document id to document.
- `Documents.ConnectElasticsearch`: `create_connection` only builds a client and does not contact the server, so the attempt outcomes are a parameter; in practice attempt 0 nearly always succeeds, and the retry pauses and the 503 of the search endpoint are reachable only when building the client raises.
- Timekeeping, `time.sleep`, `print`, `self.stdout.write`, the network connection and the query execution are outside the model. The clock is a parameter, the pauses are returned as a list, and each connection attempt and each search is the outcome of a parameter function.
- Floating point is modelled with reals; decimal rounding to two places (`DecimalField`), the `Integer` mapping of the index's `amount` and `customer_rating` fields, and relevance scoring are not modelled.
- `Transactions.CreateTransaction`: a non-string value in a text column, or a string rating, makes the item fail, where the ORM would store its `str()` or `int()` form; the model keeps JSON strings, numbers and nulls as the common cases.
- `Transactions.TransactionStore.LoadDataFromLake`: the lake is the `TRANSACTIONS_COMPLETED` path's listing when it is a folder; a read error that is not a JSON error is treated like one (both are caught and the file skipped).
- `Rollup.TotalSpentByUserType`: the groups are taken in order of first appearance in the table, not sorted by `(user_id, status)`; the per-user totals and `total_users` (`Rollup.RollupTotals`, `Rollup.TotalUsersCountsDistinctIds`) hold for any order, but the order of users and breakdown keys in the answer is not the database's.
- `Reports.TopProducts`: groups with the same `total_bought` keep their first-appearance order; the database leaves the order of ties unspecified.
- `Reports.Last5MinutesSpent`: the end of the window is the second clock reading, passed as a parameter; nothing relates it to the first.
- `Search.FullTextSearch`: the hits are the backend's answer as given; that they match the query is not modelled.
- `Indexer.SearchIndex.Handle`: a failing `doc.save()` is not modelled; saves always succeed.
