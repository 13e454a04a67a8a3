# Inspection tracker: a verified model of its core logic

This project models, in Dafny, the logic of an inspection and quality-improvement
tracker: a Flask back end over SQL Server (users, companies, products and
inspection records), and three React front ends that list, filter, edit and
summarise those records, two of them against in-memory mock APIs.

The model follows the program file by file.

- **Shared semantics.** `JsSemantics` covers the JavaScript values and objects the front ends
  handle: strict equality, truthiness, `||`, `trim`, `parseInt`, object spread, and dates as
  millisecond numbers with the clock as a parameter. `PyJson` covers the Python side:
  `dict.get`, truthiness, `str` and `int` of JSON values. `Text`, `Collections` and `Wrappers`
  hold the string, sequence and option helpers they build on.
- **Back end.** `TokenAuth` holds the login decision and the `token_required` guard.
  `Uploads` holds the upload whitelist and column choice. `LegacySql` is the older handler
  that builds an SQL script as text. `Database` is the record store: a class `Store` whose
  tables change in place through login, add, update, delete and upload, with commit and
  rollback as a snapshot restore.
- **Status rules and summaries.** `StatusRules` is the completed / delayed / in-progress rule
  and the status tally. `StatsGrid`, `KpiSection` and `StatisticsPage` are the dashboards'
  counters, group-by sums and filter cascade.
- **Mock APIs.** `MockInspectionApi`, `MockQualityApi` and `FrontQualityApi` are the in-memory
  tables, as classes whose methods mutate them. They cover the join-and-sort listing, the KPI
  summaries and the per-record comment and history lists (with `KeyedLists`).
- **Client state.**
  - `ListState` holds the shared filter chain, option lists and upsert.
  - `MainListSection`, `FrontListSection`, `MainQualityListSection`, `FrontQualityListSection`
    and `QualityImprovementPage` are the list pages. `MyPosts` is the own-posts page.
  - `AppSession` is the stored-token restore, logout and admin route. `LoadingBus` is the
    loading-state subscriber list and request interceptor. `DummyAuth` is the dummy login.
  - `AddInspectionModal`, `ChangePasswordModal`, `CommentSection` and `DetailModals` are the
    form guards, the audit diff and the comment lists.

Clocks, randomness, password hashing, JWT signing and decoding, `secure_filename` and
database faults are parameters of the operations that use them. The API stores, the
database, the loading bus and the session are classes whose methods update their fields
and are proved against a function of the old state. Component state updates (`useState`
setters in the pages, list sections and modals) are functions from the old state to the
new one.

## Model

| member | source | states |
|---|---|---|
| StatusRules.KeyOf | inspection_front/src/utils.js:25-29 | a status string is recognised only as the name of one of the three keys of `statusMap` |
| StatusRules.KeyOfKeyValue | inspection_front/src/utils.js:25-29 | every key's own name is recognised as that key |
| StatusRules.StatusMap | inspection_front/src/utils.js:25-29 | the display of each status carries the key's own name as its class name |
| StatusRules.DayOf | inspection_front/src/utils.js:13-17 | a falsy target date has no calendar day |
| StatusRules.CalculateStatus | inspection_front/src/utils.js:1-23 | completed exactly when the progress is strictly 100; delayed exactly when it is not and the target's calendar day is before today's; in progress otherwise |
| StatusRules.DueTodayIsNotDelayed | inspection_front/src/utils.js:11-22 | an item due today is not delayed, whatever the hour |
| StatusRules.NoTargetIsNotDelayed | inspection_front/src/utils.js:3-10 | an item with neither `end_date` nor `target_date` is never delayed |
| StatusRules.DeadlineStatus | inspection_front-main/src/components/QualityListSection/QualityListSection.jsx:19 | completed exactly when progress is strictly 100; delayed exactly when it is not, the due instant has passed and progress is below 100 |
| StatusRules.Tally | inspection_front/src/components/KpiSection/KpiSection.jsx:10-20 | the three counters never add up to more than the number of statuses |
| StatusRules.TallyCounts | inspection_front/src/components/KpiSection/KpiSection.jsx:10-20 | each counter is the number of occurrences of its status string |
| StatusRules.TallyTotal | inspection_front/src/components/KpiSection/KpiSection.jsx:10-23 | when every status is one of the three keys, the counters add up to the number of items |
| StatusRules.TallyOfKeys | inspection_front/src/components/KpiSection/KpiSection.jsx:10-23 | tallying computed statuses counts each key's occurrences and accounts for every item |
| StatsGrid.QuantityOr0 | frontend/src/components/StatsGrid.jsx:34-35 | `item.field \|\| 0`: a number is itself, a falsy value counts 0 |
| StatsGrid.SumField | frontend/src/components/StatsGrid.jsx:34-35 | the sum over no items is 0 |
| StatsGrid.SumFieldAppend | frontend/src/components/StatsGrid.jsx:34-35 | the sum over two lists together is the sum of their sums |
| StatsGrid.SumFieldNonNegative | frontend/src/components/StatsGrid.jsx:34-35 | non-negative quantities give a non-negative total |
| StatsGrid.ComputeStats | frontend/src/components/StatsGrid.jsx:33-42 | ongoing is the number of items whose progress is below 100; the totals are the sums of defective and actioned quantities; untreated is their difference; the rate is "100.0" when there are no defects |
| StatsGrid.OngoingCounted | frontend/src/components/StatsGrid.jsx:33 | an item is among the ongoing ones exactly when its progress is below 100 |
| KpiSection.Statuses | inspection_front/src/components/KpiSection/KpiSection.jsx:11 | one computed status per inspection, in order |
| KpiSection.KpiDataCounts | inspection_front/src/components/KpiSection/KpiSection.jsx:9-21 | each KPI counter is the number of inspections with that computed status, and the three add up to the number of inspections |
| KpiSection.ShowPieIffCounted | inspection_front/src/components/KpiSection/KpiSection.jsx:23-32 | the chart is shown exactly when some inspection is counted |
| KpiSection.ClickKeySelectsCounted | inspection_front/src/components/KpiSection/KpiSection.jsx:35-50 | the total card shows the number of inspections and sends "all"; every other card shows the count of the status it sends |
| AppSession.Restored | inspection_front/src/App.jsx:38-56 | no token (or an empty one) leaves the user signed out; the user is restored exactly when the token decodes and `exp * 1000 > Date.now()`, with the name and id taken from its claims; otherwise the token is discarded |
| AppSession.RestoredAdmin | inspection_front/src/App.jsx:119-121 | a restored user reaches the user-management route exactly when the token's username is "test" |
| AppSession.ExpiredNotRestored | inspection_front/src/App.jsx:43-48 | a decodable token whose expiry has passed is discarded, even for the admin |
| AppSession.Session.constructor | inspection_front/src/App.jsx:16-18 | the shell starts with no user, no login modal and the start-up spinner on |
| AppSession.Session.RestoreOnStart | inspection_front/src/App.jsx:38-57 | the spinner goes off; a restored token signs the user in, a discarded one is removed from storage and opens the login modal, a missing one opens the modal |
| AppSession.Session.LoginSuccess | inspection_front/src/App.jsx:63-66 | the user is set and the login modal closes; nothing else changes |
| AppSession.Session.Logout | inspection_front/src/App.jsx:68-72 | the token and the user are cleared and the login modal opens, so the admin route is gone |
| LoadingBus.Deliveries | inspection_front/src/api/api.js:22-24 | every subscriber, in subscription order, receives the same current state |
| LoadingBus.AuthorizationHeader | inspection_front/src/api/api.js:39-42 | a header is set exactly for a non-empty stored token, and it is "Bearer " followed by that token |
| LoadingBus.Bus.constructor | inspection_front/src/api/api.js:9-13 | nothing loading, no cold start, no message, no subscribers, no timer |
| LoadingBus.Bus.Subscribe | inspection_front/src/api/api.js:15-16 | the callback is added last; nothing else changes |
| LoadingBus.Bus.Unsubscribe | inspection_front/src/api/api.js:17-19 | every occurrence of that callback is removed, the others keep their order; nothing else changes |
| LoadingBus.Bus.Notify | inspection_front/src/api/api.js:22-24 | each subscriber receives the current state once, in order; the state is unchanged |
| LoadingBus.Bus.OnRequest | inspection_front/src/api/api.js:26-44 | loading is on with the message cleared (the cold-start flag is left as it was), subscribers are told, a new cold-start timer is started and becomes the one remembered, and the request carries the bearer header |
| LoadingBus.Bus.ColdStartFires | inspection_front/src/api/api.js:33-37 | a timer that is still running sets the cold-start flag and message and notifies; a cleared timer does nothing |
| LoadingBus.Bus.Settle | inspection_front/src/api/api.js:45-71 | loading, cold start and message are reset, subscribers are told, and only the last remembered timer is cleared |
| DummyAuth.Login | inspection_front-main/src/api/authAPI.js:17-35 | succeeds exactly when some dummy user's id and password are strictly equal to the given ones, answering that user's id and name; otherwise fails with the mismatch message |
| DummyAuth.WrongPasswordRejected | inspection_front-main/src/api/authAPI.js:4-9 | "intern" with any password other than "password123" is refused |
| DummyAuth.AccountsSignIn | inspection_front-main/src/api/authAPI.js:4-15 | both dummy accounts sign in with their own passwords and get their names |
| KeyedLists.AppendToFrame | inspection_front-main/src/api/inspectionAPI.js:167-175 | appending under a parent id extends that parent's list only (starting from an empty list when it had none) and leaves every other parent's list alone |
| KeyedLists.KeepOthersRemoves | inspection_front-main/src/api/inspectionAPI.js:192-194 | removing by comment id keeps, in order, every copy of each comment whose id is not strictly equal to it and no copy of the others, and shrinks the list exactly when some comment matched |
| ListState.FilterStepIsFilter | inspection_front-main/src/components/ListSection/ListSection.jsx:45-47 | one filter step keeps exactly the items that pass that field's filter ('all' passes everything) |
| ListState.FilterChainConjunctive | inspection_front-main/src/components/ListSection/ListSection.jsx:43-57 | the chain of filter steps keeps, in order, exactly the items that pass every field's filter |
| ListState.FilterChainAllIsIdentity | inspection_front-main/src/components/ListSection/ListSection.jsx:19-24 | with every filter at 'all' the list is shown unchanged |
| ListState.AllFilters | inspection_front-main/src/components/ListSection/ListSection.jsx:19-24 | the initial filter object holds 'all' for every field |
| ListState.ChangeFilter | inspection_front-main/src/components/ListSection/ListSection.jsx:72-75 | a filter change sets the named field and keeps the others |
| ListState.NarrowOneFilter | inspection_front-main/src/components/ListSection/ListSection.jsx:43-75 | choosing a value for a field that was 'all' narrows the shown list to its items with that value |
| ListState.PrependFiltered | inspection_front-main/src/components/ListSection/ListSection.jsx:43-57 | a prepended entry is shown first exactly when it passes the filters; the rest is shown as before |
| ListState.Column | inspection_front-main/src/components/ListSection/ListSection.jsx:60-62 | one value per item, the item's field |
| ListState.OptionList | inspection_front-main/src/components/ListSection/ListSection.jsx:59-68 | an option list is 'all' followed by each distinct field value exactly once, and by nothing else |
| ListState.OptionListOrder | inspection_front-main/src/components/ListSection/ListSection.jsx:60-62 | the options keep the order in which the values first occur |
| ListState.Upserted | inspection_front-main/src/components/ListSection/ListSection.jsx:86-100 | an entry whose id is strictly equal to an existing one replaces the first such item in place; otherwise it is prepended |
| ListState.Upsert | inspection_front-main/src/components/ListSection/ListSection.jsx:88-99 | the copy-and-assign update computes exactly the upsert |
| ListState.ReplaceById | inspection_front-main/src/pages/MyPosts.jsx:44-46 | every item with the updated item's id is replaced by it and the others are kept |
| ListState.ReplaceByIdAgreesWithUpsert | inspection_front-main/src/pages/MyPosts.jsx:44-46 | when exactly one item has the id, replacing by id and upserting agree |
| ListState.ItemDeadlineStatus | inspection_front-main/src/components/QualityListSection/QualityListSection.jsx:19 | completed exactly when `progress === 100`; delayed exactly when not, `endDate` has passed and progress is below 100 |
| ListState.WithStatus | inspection_front-main/src/components/QualityListSection/QualityListSection.jsx:58 | the entry gets the computed status and keeps every other field, including its id |
| MainListSection.InitialFilters | inspection_front-main/src/components/ListSection/ListSection.jsx:19-24 | the four filters start at 'all' |
| MainListSection.FilteredInspections | inspection_front-main/src/components/ListSection/ListSection.jsx:43-57 | the shown list is, in order, exactly the items that pass the manager, company, part-name and status filters |
| MainListSection.InitialFiltersShowAll | inspection_front-main/src/components/ListSection/ListSection.jsx:19-57 | with the initial filters every fetched inspection is shown |
| MainListSection.RefreshOptions | inspection_front-main/src/components/ListSection/ListSection.jsx:59-69 | with data, the manager, company and part-name options are rebuilt from it; without data they are left as they were; the status options never change |
| MainListSection.IdlessAddsOverwrite | inspection_front-main/src/components/ListSection/ListSection.jsx:86-100 | two successive id-less entries (as the in-memory add returns them) leave only the second: it replaces the first because `undefined === undefined` |
| MainListSection.UpsertKeepingNew | inspection_front-main/src/components/ListSection/ListSection.jsx:86-100 | an entry without an id is always prepended; an entry with one is upserted |
| MainListSection.IdlessAddsKept | inspection_front-main/src/components/ListSection/ListSection.jsx:86-100 | with the corrected update, two id-less entries are both kept, newest first |
| MainListSection.HandleSuccess | inspection_front-main/src/components/ListSection/ListSection.jsx:86-100 | the success handler computes the corrected update |
| MainListSection.NewEntryShown | inspection_front-main/src/components/ListSection/ListSection.jsx:43-100 | a new entry is shown first exactly when it passes the filters, and the rest is shown as before |
| FrontListSection.UserEffect | inspection_front/src/components/ListSection/ListSection.jsx:42-73 | signed out or after a failed fetch the list is empty; after a fetch it is the data and the three option lists are rebuilt from it |
| FrontListSection.NothingListedWithoutData | inspection_front/src/components/ListSection/ListSection.jsx:60-73 | signed out or after a failed fetch nothing is shown, whatever the filters |
| FrontListSection.SignedOutIgnoresFetch | inspection_front/src/components/ListSection/ListSection.jsx:66-72 | when signed out no fetch result matters |
| FrontListSection.Prepend | inspection_front/src/components/ListSection/ListSection.jsx:35-38 | the new entry goes first, followed by the previous list |
| FrontListSection.PrependShown | inspection_front/src/components/ListSection/ListSection.jsx:35-38 | nothing is lost or replaced, and the new entry is shown first exactly when it passes the filters |
| MainQualityListSection.FilteredItems | inspection_front-main/src/components/QualityListSection/QualityListSection.jsx:29-34 | the shown list is, in order, exactly the items that pass the manager, company and status filters |
| MainQualityListSection.RefreshOptions | inspection_front-main/src/components/QualityListSection/QualityListSection.jsx:36-40 | with data, the manager and company options are rebuilt from it; without data they are left as they were |
| MainQualityListSection.EntryWithStatus | inspection_front-main/src/components/QualityListSection/QualityListSection.jsx:57-58 | the entry carries the status computed from its progress and end date, and keeps every other field |
| MainQualityListSection.HandleSuccess | inspection_front-main/src/components/QualityListSection/QualityListSection.jsx:56-70 | the list is upserted by id with the entry carrying its computed status |
| MainQualityListSection.StoredEntryHasFreshStatus | inspection_front-main/src/components/QualityListSection/QualityListSection.jsx:56-70 | the stored entry is the one with the fresh status, and the list grows by at most one |
| FrontQualityListSection.Processed | inspection_front/src/components/QualityListSection/QualityListSection.jsx:19-22 | every item gets the status `calculateStatus` computes and keeps every other field |
| FrontQualityListSection.FilteredItems | inspection_front/src/components/QualityListSection/QualityListSection.jsx:18-28 | the shown list is, in order, exactly the processed items that pass the username, company-name and status filters |
| FrontQualityListSection.StatusFilterUsesComputedStatus | inspection_front/src/components/QualityListSection/QualityListSection.jsx:19-27 | with a status filter set, every shown item is one whose computed status is that status, whatever status it arrived with |
| FrontQualityListSection.RefreshOptions | inspection_front/src/components/QualityListSection/QualityListSection.jsx:30-34 | with items, the username and company-name options are rebuilt from them; without items they are left as they were |
| QualityImprovementPage.Loaded | inspection_front/src/pages/QualityImprovement.jsx:72-88 | the list becomes the fetched items and the manager and company options are rebuilt from them; the status options stay |
| QualityImprovementPage.EmptyLoadLeavesOnlyAll | inspection_front/src/pages/QualityImprovement.jsx:78-85 | an empty fetch leaves only 'all' in the manager and company options |
| QualityImprovementPage.HandleSuccess | inspection_front/src/pages/QualityImprovement.jsx:111-112 | the new item, with its computed status and every other field kept, goes first, followed by the previous list |
| QualityImprovementPage.NewItemShown | inspection_front/src/pages/QualityImprovement.jsx:91-112 | the new item is shown first exactly when it passes the filters, and the rest is shown as before |
| MockInspectionApi.UserByIdFinds | inspection_front-main/src/api/inspectionAPI.js:70 | a user is found exactly when some mock user's id is strictly equal to the given one, and the one found has that id |
| MockInspectionApi.UserByNameFinds | inspection_front-main/src/api/inspectionAPI.js:109 | a user is found exactly when some mock user's display name is strictly equal to the given one, and the one found has that name |
| MockInspectionApi.CompanyByIdFinds | inspection_front-main/src/api/inspectionAPI.js:68 | a company is found exactly when some mock company has that id |
| MockInspectionApi.ProductByIdFinds | inspection_front-main/src/api/inspectionAPI.js:69 | a product is found exactly when some mock product has that id |
| MockInspectionApi.GetStatus | inspection_front-main/src/api/inspectionAPI.js:160-164 | the status is always one of the three keys |
| MockInspectionApi.GetStatusRule | inspection_front-main/src/api/inspectionAPI.js:160-164 | completed exactly when `progress_percentage === 100`; delayed exactly when not, the target date has passed and progress is below 100 |
| MockInspectionApi.ManagerNameResolves | inspection_front-main/src/api/inspectionAPI.js:70-75 | the manager is the matching user's name, or '알 수 없음' when no user has that id |
| MockInspectionApi.JoinRow | inspection_front-main/src/api/inspectionAPI.js:67-86 | the joined row keeps the inspection's id, received and due dates, progress, quantities, reason and solution, carries its status, and names its manager, company and part through the lookups |
| MockInspectionApi.JoinAll | inspection_front-main/src/api/inspectionAPI.js:67-87 | one joined row per stored inspection, in table order |
| MockInspectionApi.SortByReceivedDesc | inspection_front-main/src/api/inspectionAPI.js:88 | the sort is a permutation of its input |
| Collections.InsertLatestSorted | inspection_front-main/src/api/inspectionAPI.js:88 | inserting a dated row into a newest-first list keeps it newest first |
| MockInspectionApi.SortByReceivedDescSorted | inspection_front-main/src/api/inspectionAPI.js:88 | when every received date parses, the result is newest first |
| Collections.SortKeepsSameTimeOrder | inspection_front-main/src/api/inspectionAPI.js:88 | the insertion sort is stable: elements of equal time keep their input order |
| MockInspectionApi.SortKeepsSameDateOrder | inspection_front-main/src/api/inspectionAPI.js:88 | when every received date parses, rows received at the same time keep their table order, as the stable `Array.prototype.sort` does |
| MockInspectionApi.GetInspections | inspection_front-main/src/api/inspectionAPI.js:65-90 | the answer is a reordering of the joined rows, one per stored inspection |
| MockInspectionApi.GetKpiSummary | inspection_front-main/src/api/inspectionAPI.js:93-103 | the total is the number of stored inspections |
| MockInspectionApi.JoinedStatusesKnown | inspection_front-main/src/api/inspectionAPI.js:85 | every joined row's status is one of the three keys |
| MockInspectionApi.KpiSummaryTotal | inspection_front-main/src/api/inspectionAPI.js:93-103 | the three counters add up to the total, because every joined status is counted |
| MockInspectionApi.NewJoinedEntry | inspection_front-main/src/api/inspectionAPI.js:127-139 | the returned entry has no id, takes manager and progress from the submitted data, and its status is computed from the stored row |
| MockInspectionApi.AddedEntryAgainstStored | inspection_front-main/src/api/inspectionAPI.js:107-145 | the returned entry has the stored row's status but no id, while the stored row has id `length + 100`; the stored manager is the submitted one only when that name is a mock user's, '알 수 없음' otherwise |
| MockInspectionApi.Store.constructor | inspection_front-main/src/api/inspectionAPI.js:23-62 | the store starts with the two mock inspections and their comments and history |
| MockInspectionApi.Store.AddInspection | inspection_front-main/src/api/inspectionAPI.js:107-145 | the new table row is appended, comments and history are untouched, and the joined entry is returned |
| MockInspectionApi.Store.GetComments | inspection_front-main/src/api/inspectionAPI.js:148-152 | the comments stored under the inspection's id, or `[]` when none were ever added |
| MockInspectionApi.Store.GetHistory | inspection_front-main/src/api/inspectionAPI.js:154-158 | the history stored under the inspection's id, or `[]` when none was ever added |
| MockInspectionApi.Store.AddComment | inspection_front-main/src/api/inspectionAPI.js:167-175 | the comment is appended to that inspection's list (created when missing) and returned; `getComments` then reads the old list plus the comment, and every other inspection's list reads as before; nothing else changes |
| MockInspectionApi.Store.AddHistory | inspection_front-main/src/api/inspectionAPI.js:178-186 | the log entry is appended to that inspection's history (created when missing) and returned; `getHistory` then reads the old history plus the entry, and every other inspection's history reads as before; nothing else changes |
| MockInspectionApi.Store.DeleteComment | inspection_front-main/src/api/inspectionAPI.js:189-203 | without a list for the inspection it fails with "not found" and changes nothing; otherwise the list keeps only comments with a different id, and it succeeds exactly when that removed something; `getComments` then reads the old list without those comments |
| MockQualityApi.QualityStatus | inspection_front-main/src/api/qualityApi.js:34-50 | completed exactly when `parseInt(progress, 10) === 100`; delayed exactly when not and the end date's calendar day is before today's; in progress otherwise |
| MockQualityApi.TextProgressCompletes | inspection_front-main/src/api/qualityApi.js:43-44 | a progress given as the text "100" counts as completed |
| MockQualityApi.DueTodayNotDelayed | inspection_front-main/src/api/qualityApi.js:36-47 | an item ending today is not delayed |
| MockQualityApi.GetQualityItems | inspection_front-main/src/api/qualityApi.js:52-58 | one item per stored item, each with its computed status and every other field kept |
| MockQualityApi.Statuses | inspection_front-main/src/api/qualityApi.js:63 | one computed status per stored item, in order |
| MockQualityApi.QualityKpiCounts | inspection_front-main/src/api/qualityApi.js:60-73 | each counter is the number of items with that status, and the counters add up to the total, the number of items |
| MockQualityApi.NewQualityEntryFields | inspection_front-main/src/api/qualityApi.js:75-84 | the new entry's id is `length + 1` unless the submitted data has its own `id`, which wins; every other field is the submitted one |
| MockQualityApi.WithIdFields | inspection_front-main/src/api/qualityApi.js:115 | the stored comment has the clock reading as its id and keeps every other field |
| MockQualityApi.QualityStore.constructor | inspection_front-main/src/api/qualityApi.js:1-31 | the store starts with the three mock items and their comments and history |
| MockQualityApi.QualityStore.AddQualityItem | inspection_front-main/src/api/qualityApi.js:75-84 | the new entry goes to the front and is returned; comments and history are untouched |
| MockQualityApi.QualityStore.GetQualityComments | inspection_front-main/src/api/qualityApi.js:97-101 | the comments stored under the item's id, or `[]` when none were ever added |
| MockQualityApi.QualityStore.GetQualityHistory | inspection_front-main/src/api/qualityApi.js:103-107 | the history stored under the item's id, or `[]` when none was ever added |
| MockQualityApi.QualityStore.AddQualityComment | inspection_front-main/src/api/qualityApi.js:110-119 | the comment, given an id from the clock, is appended to that item's list (created when missing) and returned; `getQualityComments` then reads the old list plus it |
| MockQualityApi.QualityStore.AddQualityHistory | inspection_front-main/src/api/qualityApi.js:121-129 | the log entry is appended to that item's history (created when missing) and returned; `getQualityHistory` then reads the old history plus it |
| MockQualityApi.QualityStore.DeleteQualityComment | inspection_front-main/src/api/qualityApi.js:132-141 | without a list for the item it fails with "not found" and changes nothing; otherwise the list keeps only comments with a different id and it succeeds, even when nothing matched; `getQualityComments` then reads the old list without those comments |
| FrontQualityApi.FrontQualityStatus | inspection_front/src/api/qualityApi.js:34-38 | completed exactly when `progress === 100`; delayed exactly when not and the end date has passed, whatever the progress |
| FrontQualityApi.FrontQualityVersusDeadline | inspection_front/src/api/qualityApi.js:34-38 | this rule differs from the list components' rule exactly for an overdue item whose progress is not below 100 (for instance a text or missing progress) |
| FrontQualityApi.FrontQualityItems | inspection_front/src/api/qualityApi.js:40-46 | one item per stored item, each with its computed status and every other field kept |
| FrontQualityApi.Statuses | inspection_front/src/api/qualityApi.js:51 | one computed status per stored item, in order |
| FrontQualityApi.FrontQualityKpiCounts | inspection_front/src/api/qualityApi.js:48-61 | each counter is the number of items with that status, and the counters add up to the total |
| FrontQualityApi.FrontQualityStore.constructor | inspection_front/src/api/qualityApi.js:3-31 | the store starts with the three mock items |
| FrontQualityApi.FrontQualityStore.AddQualityItem | inspection_front/src/api/qualityApi.js:63-72 | the new entry `{ id: length + 1, ...data }` goes to the front and is returned |
| StatisticsPage.Keys | frontend/src/components/StatisticsPage.jsx:19 | one group key per item, in order: the item's `key` field as an object key |
| StatisticsPage.KeysSnoc | frontend/src/components/StatisticsPage.jsx:18-19 | appending an item appends its group key |
| StatisticsPage.AggregateStep | frontend/src/components/StatisticsPage.jsx:18-22 | one `forEach` step keeps the loop invariant: the groups are the distinct keys in first-seen order, each with its defect sum and first item's name |
| StatisticsPage.AggregateStepGroup | frontend/src/components/StatisticsPage.jsx:20-21 | after one step, every group holds the sum over the items seen so far |
| StatisticsPage.AddToGroup | frontend/src/components/StatisticsPage.jsx:19-21 | a new key opens a group named by the item with count 0; the item's quantity (or 0) is then added to its group |
| StatisticsPage.AggregateData | frontend/src/components/StatisticsPage.jsx:16-24 | one group per distinct key in first-seen order; each group's total is the sum of `defective_quantity` over its items and its name is the key value of its first item |
| StatisticsPage.AggregatedGroups | frontend/src/components/StatisticsPage.jsx:23 | `Object.values` of the finished map lists the groups in first-seen order with their sums and names |
| StatisticsPage.GroupSumAbsent | frontend/src/components/StatisticsPage.jsx:20-21 | a key no item carries has total 0 |
| StatisticsPage.SumGroupsSnoc | frontend/src/components/StatisticsPage.jsx:21 | adding an item adds its quantity to exactly the one group of its key |
| StatisticsPage.GroupTotals | frontend/src/components/StatisticsPage.jsx:16-24 | the group totals add up to the total defective quantity: nothing is lost or counted twice |
| StatisticsPage.ReasonRows | frontend/src/components/StatisticsPage.jsx:28-33 | one row per listed defect reason, in the listed order, carrying that reason's total |
| StatisticsPage.AggregateReasonsForProduct | frontend/src/components/StatisticsPage.jsx:26-35 | exactly the listed reasons with a positive total over the product's items, in the listed order |
| StatisticsPage.CountReasons | frontend/src/components/StatisticsPage.jsx:28-33 | the map holds exactly the six listed reasons, each with its total over the items; other reasons are skipped |
| StatisticsPage.ReasonChart | frontend/src/components/StatisticsPage.jsx:34 | a row is shown iff it is a listed reason with a positive total, and the shown rows keep the listed order |
| StatisticsPage.OtherProductIgnored | frontend/src/components/StatisticsPage.jsx:29 | an item of another product changes no reason total |
| StatisticsPage.UnlistedReasonIgnored | frontend/src/components/StatisticsPage.jsx:30 | an item whose reason is not listed changes no listed total |
| StatisticsPage.ProductColumn | frontend/src/components/StatisticsPage.jsx:79 | the `product_name` of each item, in order |
| StatisticsPage.CompanyProductListed | frontend/src/components/StatisticsPage.jsx:78-79 | every product offered for a company comes from an item of that company |
| StatisticsPage.CompanyProductCarried | frontend/src/components/StatisticsPage.jsx:78-79 | every item of the company contributes its product to the list |
| StatisticsPage.CompanyProducts | frontend/src/components/StatisticsPage.jsx:77-79 | the product list for a company is exactly the products of that company's items |
| StatisticsPage.Cascade | frontend/src/components/StatisticsPage.jsx:69-88 | with a company chosen, the product list is exactly that company's products; without one, all products; never a duplicate |
| StatisticsPage.CascadeSelects | frontend/src/components/StatisticsPage.jsx:77-86 | the shown items are exactly those matching the chosen company and the chosen product, in order |
| StatisticsPage.HandleCompanyChange | frontend/src/components/StatisticsPage.jsx:90-93 | choosing a company sets it and clears the product filter, so the view shows exactly that company's items, or every item when the company is cleared |
| StatisticsPage.ProductReasonData | frontend/src/components/StatisticsPage.jsx:97 | no reason chart without a product; otherwise the reason chart of that product's shown items |
| MyPosts.OwnItems | inspection_front-main/src/pages/MyPosts.jsx:26-27 | exactly the items whose `manager` is strictly equal to the user's name, every copy of each, in their original order |
| MyPosts.OwnItemsAreEditable | inspection_front-main/src/components/InspectionDetailModal/InspectionDetailModal.jsx:23 | the page lists exactly the items whose detail modal offers that user the edit button (`canEdit`); a signed-out visitor can edit nothing |
| MyPosts.Load | inspection_front-main/src/pages/MyPosts.jsx:19-30 | without a user nothing changes; with one, both lists become that user's own inspections and quality items |
| MyPosts.RowClick | inspection_front-main/src/pages/MyPosts.jsx:33-36 | the clicked item and its kind are selected and the lists are untouched |
| MyPosts.HandleSuccess | inspection_front-main/src/pages/MyPosts.jsx:39-55 | an edit replaces the entry with the same id in the list of the open modal's kind only; with no modal open nothing changes |
| MyPosts.HandleSuccessKeepsLengths | inspection_front-main/src/pages/MyPosts.jsx:44-53 | an edit never adds or removes a row |
| MyPosts.CloseModal | inspection_front-main/src/pages/MyPosts.jsx:57-60 | closing clears the selection and the kind and keeps the lists |
| MyPosts.SuccessAfterCloseIsNoOp | inspection_front-main/src/pages/MyPosts.jsx:41-60 | a success reported after the modal closed changes nothing |
| AddInspectionModal.FormError | inspection_front-main/src/components/AddInspectionModal/AddInspectionModal.jsx:25-34 | the error is set exactly when both counts parse as integers and the defect count exceeds the total; otherwise it is empty |
| AddInspectionModal.EmptyCountsNoError | inspection_front-main/src/components/AddInspectionModal/AddInspectionModal.jsx:26-33 | an empty total count never raises the error |
| AddInspectionModal.SliderChange | inspection_front-main/src/components/AddInspectionModal/AddInspectionModal.jsx:41-49 | progress becomes the parsed slider value; status is `completed` exactly at 100 and `inProgress` otherwise; every other field is kept |
| AddInspectionModal.SliderAgreesOnCompletion | inspection_front-main/src/components/AddInspectionModal/AddInspectionModal.jsx:43-46 | the slider never writes `delayed`, and it writes `completed` exactly when the status rule would compute completed |
| AddInspectionModal.InitialForm | inspection_front-main/src/components/AddInspectionModal/AddInspectionModal.jsx:7-20 | the form starts with the user as manager, progress 0, status `in-progress`, empty counts and today's date |
| AddInspectionModal.InitialFormState | inspection_front-main/src/components/AddInspectionModal/AddInspectionModal.jsx:7-34 | the fresh form has no error, and its `in-progress` status is not one of the status keys |
| AddInspectionModal.HandleSubmit | inspection_front-main/src/components/AddInspectionModal/AddInspectionModal.jsx:51-69 | a form error blocks the submit with an alert and no call; otherwise the entry is reported iff the call succeeds, and submitting ends either way |
| AddInspectionModal.BlockedSubmitMakesNoCall | inspection_front-main/src/components/AddInspectionModal/AddInspectionModal.jsx:53-56 | a blocked submit does not depend on what the back end would answer |
| ChangePasswordModal.HandleSubmit | inspection_front/src/components/ChangePasswordModal/ChangePasswordModal.jsx:12-43 | a request is sent iff the new passwords match and are at least 6 UTF-16 code units long (`length`), carrying the three fields; mismatch and shortness give their messages; the result is an error iff no request was sent or it failed |
| ChangePasswordModal.MismatchCheckedFirst | inspection_front/src/components/ChangePasswordModal/ChangePasswordModal.jsx:17-27 | a mismatch is reported even when the new password is also too short |
| ChangePasswordModal.SupplementaryCharactersCountTwice | inspection_front/src/components/ChangePasswordModal/ChangePasswordModal.jsx:23 | three characters outside the Basic Multilingual Plane are long enough, three inside it are too short |
| ChangePasswordModal.RejectedMakesNoCall | inspection_front/src/components/ChangePasswordModal/ChangePasswordModal.jsx:17-27 | a rejected form does not depend on what the back end would answer |
| CommentSection.FetchComments | inspection_front/src/components/CommentSection/CommentSection.jsx:12-24 | no parent means no change; otherwise the list becomes the fetched comments, or the load error is shown |
| CommentSection.NoParentNoFetch | inspection_front/src/components/CommentSection/CommentSection.jsx:13 | without a parent id the outcome does not depend on the back end |
| CommentSection.PostComment | inspection_front/src/components/CommentSection/CommentSection.jsx:30-41 | a blank draft or a failed call changes nothing; otherwise the returned comment is appended and the draft cleared |
| CommentSection.DeleteComment | inspection_front/src/components/CommentSection/CommentSection.jsx:43-52 | unless confirmed and successful nothing changes; then every copy of each comment with another id remains, in order, and none with that id |
| CommentSection.UpdateComment | inspection_front/src/components/CommentSection/CommentSection.jsx:54-65 | a blank edit or a failed call changes nothing; otherwise editing ends and the thread is reloaded for the same parent: draft kept, comments replaced by a successful fetch, the load error on a failed one, and nothing reloaded without a parent |
| CommentSection.ControlsForAuthorOnly | inspection_front/src/components/CommentSection/CommentSection.jsx:115-118 | edit and delete are offered only to the comment's author, hidden while that comment is edited (except a NaN id), and back after a saved edit |
| DetailModals.LabelOf | inspection_front-main/src/components/QualityDetailModal/QualityDetailModal.jsx:60-70 | a label exists iff the key is in the label map, and it is that key's label |
| DetailModals.AuditedKeys | inspection_front-main/src/components/QualityDetailModal/QualityDetailModal.jsx:68-69 | exactly the form keys whose value differs strictly from the item's and that have a label |
| DetailModals.ChangeLinesPerKey | inspection_front-main/src/components/QualityDetailModal/QualityDetailModal.jsx:68-73 | one change line per audited key, in key order, each naming the label, the old and the new value |
| DetailModals.NoLinesIffUnchanged | inspection_front-main/src/components/QualityDetailModal/QualityDetailModal.jsx:67-74 | there are no change lines iff no labelled field changed |
| DetailModals.Diff | inspection_front-main/src/components/InspectionDetailModal/InspectionDetailModal.jsx:22 | the loop over the form's keys collects exactly the change lines |
| DetailModals.HandleUpdateSubmit | inspection_front-main/src/components/InspectionDetailModal/InspectionDetailModal.jsx:22 | the form is always reported; a history entry is written iff something labelled changed and a user is logged in, joining the lines with `, ` |
| DetailModals.SubmitComment | inspection_front-main/src/components/QualityDetailModal/QualityDetailModal.jsx:28-41 | a blank text or no user changes nothing; otherwise the returned record is appended |
| DetailModals.SubmitKeepsListInStep | inspection_front-main/src/components/InspectionDetailModal/InspectionDetailModal.jsx:18 | with the inspection back end, the modal's list after a submit equals the list stored for the item |
| DetailModals.DeleteLocal | inspection_front-main/src/components/QualityDetailModal/QualityDetailModal.jsx:47-56 | every copy of each comment with another id remains, in order, and none with that id |
| DetailModals.IdlessDeleteRemovesAll | inspection_front-main/src/components/InspectionDetailModal/InspectionDetailModal.jsx:21 | when no comment has an id, deleting one clears the whole list |
| DetailModals.RemoveComment | inspection_front-main/src/components/InspectionDetailModal/InspectionDetailModal.jsx:21 | removing by position drops exactly that one comment and keeps the others in order |
| DetailModals.RemoveOneOfIdless | inspection_front-main/src/components/InspectionDetailModal/InspectionDetailModal.jsx:21 | removing by position deletes one comment even when none has an id |
| TokenAuth.Decide | backend/app/api/auth.py:13-42 | a falsy username or password gives the 400; a token is issued iff the account exists and the password verifies; it carries the account id and submitted username, as does the reply's `user`, and expires 24 hours after the issuing second |
| TokenAuth.IssuedTokenLifetime | backend/app/api/auth.py:34-38 | the front end keeps an issued token exactly until 24 hours after the second it was issued in |
| TokenAuth.ClientAndServerExpiryAgree | backend/app/api/auth.py:62-66 | the front end's `exp * 1000 > Date.now()` agrees with the whole-second expiry check on the server |
| TokenAuth.ExtractToken | backend/app/api/auth.py:52-57 | no header gives no token; a header without a space is malformed; a presented token never holds a space |
| TokenAuth.PresentedToken | backend/app/api/auth.py:55 | the token is the word after the first space |
| TokenAuth.PresentedTokenWithRest | backend/app/api/auth.py:55 | anything after a second space is ignored |
| TokenAuth.TokenRequired | backend/app/api/auth.py:49-71 | each outcome holds exactly in its case: malformed header, missing or empty token, expired, invalid, or allowed with exactly the decoded `user_id` and `username`; claims without them give a 500 |
| TokenAuth.SchemeIgnored | backend/app/api/auth.py:55 | any scheme word is treated like `Bearer` |
| TokenAuth.InterceptorHeaderAccepted | backend/app/api/auth.py:55 | the header the front end builds hands the guard the stored token unchanged |
| Uploads.Extension | backend/app.py:214 | the extension holds no dot |
| Uploads.UploadColumn | backend/app.py:226 | an upload goes to `image_path` or `excel_path` |
| Uploads.LastOccurrenceUnique | backend/app.py:214 | the last occurrence of a character is unique, so the `rsplit` split point is well defined |
| Uploads.ExtensionOfName | backend/app.py:214 | the extension of `stem.ext` is `ext` lower-cased |
| Uploads.AllowedFileIff | backend/app.py:213-214 | a name is allowed iff its lower-cased suffix after the last dot is whitelisted; a name without a dot never is |
| Uploads.UpperCaseAccepted | backend/app.py:214 | the whitelist ignores case: any spelling of `xlsx` is accepted and recorded in `excel_path` |
| Uploads.ExtensionOfPrefixed | backend/app.py:222-225 | prefixing the id does not change the extension |
| Uploads.ColumnOfAllowed | backend/app.py:211-226 | images go to `image_path` and spreadsheets to `excel_path`, each exactly |
| Uploads.UploadAsWritten | backend/app.py:216-241 | no file part or a name the whitelist refuses gives a 400; an allowed name gives a 500, since `secure_filename` is never imported; no path is ever returned |
| Uploads.NoUploadSucceeds | backend/app.py:216-241 | as written, no upload ever returns 201 |
| Uploads.AllowedUploadFails | backend/app.py:221-222 | every allowed name such as `report.png` ends in a 500 |
| Uploads.UploadTarget | backend/app.py:222-226 | there is a target iff the sanitised name keeps a dot, and the stored name is the sanitised `id_filename` |
| Uploads.TargetOfSafeName | backend/app.py:222-226 | when sanitising keeps the name, the upload goes to the column its own extension selects |
| LegacySql.Escape | backend/app.py:122 | escaping never shortens the text |
| LegacySql.EscapeLength | backend/app.py:122 | escaping adds exactly one character per single quote |
| LegacySql.ReadLiteral | backend/app.py:140-162 | reading an SQL string literal consumes at least its closing quote |
| LegacySql.ReadDoubledQuote | backend/app.py:122 | a doubled quote inside a literal reads back as one quote |
| LegacySql.ReadPlainChar | backend/app.py:122 | any other character reads back as itself |
| LegacySql.ReadClosingQuote | backend/app.py:140-162 | a single quote not followed by another ends the literal |
| LegacySql.EscapeCons | backend/app.py:122 | escaping proceeds character by character |
| LegacySql.EscapeRoundTrip | backend/app.py:122-130 | an escaped text followed by a closing quote reads back as exactly the original text |
| LegacySql.TargetLiteralAsWritten | backend/app.py:131-133 | a falsy target date is `NULL`; any other is quoted without escaping |
| LegacySql.TargetLiteral | backend/app.py:131-133 | a falsy target date is `NULL`; any other is quoted with its quotes doubled |
| LegacySql.AfterTarget | backend/app.py:161 | what follows the target literal starts with a comma, so it cannot extend the literal |
| LegacySql.UnescapedTargetBreaksLiteral | backend/app.py:131-133 | the target `x'y` ends its literal after `x`, leaving `y'` as SQL |
| LegacySql.QuotedRoundTrip | backend/app.py:122-161 | a quoted escaped value reads back as the value |
| LegacySql.TargetRoundTrip | backend/app.py:131-133 | with escaping, the target literal reads back as the submitted text |
| LegacySql.EscapeWithoutQuotes | backend/app.py:122 | text without quotes is unchanged by escaping |
| LegacySql.QuantityOf | backend/app.py:126-128 | an absent or falsy quantity counts as 0 |
| LegacySql.Convert | backend/app.py:120-134 | each text field is the escaped `str` of its value or `''`; the target is `NULL` or its quoted text with quotes doubled (the corrected literal, see Findings); the user id defaults to 1, progress to 0 and the quantities to 0 when falsy; conversion fails iff one of the `int` calls fails |
| LegacySql.AfterSolution | backend/app.py:161 | what follows the solution literal starts with a comma |
| LegacySql.AfterReason | backend/app.py:161 | what follows the reason literal starts with a comma |
| LegacySql.RowTailReadsBack | backend/app.py:161 | the reason and solution literals of the generated row read back as the submitted texts |
| LegacySql.AddInspection | backend/app.py:111-168 | a missing required key gives the 400; the script is returned iff all are present and conversion succeeds, built from the converted values, with the corrected target literal; a conversion error gives the 500 with the generation-error prefix and the name of the exception |
| LegacySql.AddInspectionAsWritten | backend/app.py:111-168 | the reply the handler builds: the same status and values as `AddInspection`, with the target date quoted without doubling its quotes |
| LegacySql.AsWrittenAgreesWithoutQuote | backend/app.py:131-133 | the as-written and corrected replies are identical whenever the target date holds no quote |
| LegacySql.NullRequiredAccepted | backend/app.py:116-134 | required keys holding `null` pass the check: names become `None`, quantities 0, the user 1, the target `NULL` |
| LegacySql.NullProgressFails | backend/app.py:134 | an explicit `null` progress raises in `int` and gives the 500 |
| Database.AccountOf | backend/app/api/auth.py:27-28 | no account iff no user has that name; otherwise the id and hash of a user with that name |
| Database.Stamped | backend/app/api/auth.py:31 | `last_login` is set on exactly the rows with that username; every other row is unchanged |
| Database.ResolveCompany | backend/app/api/inspections.py:56-64 | only the company table and its counter can change; an existing name keeps the tables and gives its id; otherwise one row with the next identity is appended; afterwards the name is found with the returned id |
| Database.ResolveCompanyIdempotent | backend/app/api/inspections.py:56-64 | resolving the same name again creates nothing and gives the same id |
| Database.ResolveProduct | backend/app/api/inspections.py:67-75 | only the product table and its counter can change; an existing code keeps the tables; otherwise one row with the submitted name and code and the next identity is appended; afterwards the code is found with the returned id |
| Database.ExistingProductNameKept | backend/app/api/inspections.py:68-71 | for a known code the submitted product name is ignored and the table is unchanged |
| Database.InsertValue | backend/app/api/inspections.py:84-88 | each inserted column is the body's value or `None`, and progress defaults to 0 |
| Database.WithTokenUser | backend/app/api/inspections.py:44 | the body's `user_id` becomes the token's user and every other key is unchanged |
| Database.NewInspection | backend/app/api/inspections.py:78-89 | the new row carries the given ids, the body's user and the receipt date, exactly the seven data columns, progress defaulting to 0 |
| Database.AddedInspection | backend/app/api/inspections.py:43-92 | a successful add appends exactly one row, keeps the earlier rows and the users, records the token's user whatever the body said, and stores the submitted columns |
| Database.AddedInspectionKeys | backend/app/api/inspections.py:56-89 | the new row points at the company with the submitted name and the product with the submitted code |
| Database.CompanyAppendConsistent | backend/app/api/inspections.py:62-64 | appending a company with the next identity keeps company ids distinct and below the counter |
| Database.ProductAppendConsistent | backend/app/api/inspections.py:73-75 | appending a product with the next identity keeps product ids distinct and below the counter |
| Database.InspectionAppendConsistent | backend/app/api/inspections.py:89 | appending an inspection with the next identity keeps inspection ids distinct and below the counter |
| Database.AddedKeepsConsistent | backend/app/api/inspections.py:54-92 | a successful add keeps every table's ids distinct and below its counter |
| Database.SetColumns | backend/app/api/inspections.py:106-107 | exactly the body's keys that are updatable, in the body's order |
| Database.UpdateParams | backend/app/api/inspections.py:110-111 | one parameter per set column, holding the body's value, then the id last |
| Database.ClauseEmptyIff | backend/app/api/inspections.py:107-108 | the clause is empty iff no column is set, which is when the 400 is returned |
| Database.ClausePlaceholders | backend/app/api/inspections.py:107 | the clause holds one placeholder per set column |
| Database.CountAround | backend/app/api/inspections.py:117 | the fixed text around the clause adds exactly the one placeholder of `WHERE id = ?` |
| Database.QueryPlaceholders | backend/app/api/inspections.py:117 | the query holds one placeholder per set column plus one for the id |
| Database.ParamsMatchPlaceholders | backend/app/api/inspections.py:107-118 | the query's placeholders and the parameters always agree in number |
| Database.Assignment | backend/app/api/inspections.py:117-118 | binding the parameters to the set columns assigns exactly those columns |
| Database.AssignmentAligned | backend/app/api/inspections.py:110-118 | each column receives the value its parameter was read for |
| Database.UpdateWritesAllowedKeys | backend/app/api/inspections.py:106-118 | the update assigns exactly the body's updatable keys, each to the body's value |
| Database.UpdatedRows | backend/app/api/inspections.py:117-119 | the row with the id gets the assignment; every other row is unchanged |
| Database.UpdateOfMissingIdChangesNothing | backend/app/api/inspections.py:117-120 | updating an id no row has changes nothing and still answers 200 |
| Database.UpdateKeepsOtherColumns | backend/app/api/inspections.py:117 | columns the body does not name keep their values |
| Database.UpdateKeepsConsistent | backend/app/api/inspections.py:117-122 | an update writes columns only, so every table's ids stay distinct and below their counters |
| Database.LegacyParams | backend/app.py:174-177 | one parameter per updatable column, holding the body's value or `None`, then the id |
| Database.LegacyUpdateSetsAll | backend/app.py:174-183 | the older handler assigns all seven columns, writing `NULL` into every one the body leaves out |
| Database.DeletedRows | backend/app/api/inspections.py:136 | every row with the id goes and every other row stays, with each copy counted, in order |
| Database.DeleteKeepsConsistent | backend/app/api/inspections.py:136 | a delete keeps the remaining ids distinct and below the counter |
| Database.Joined | backend/app/api/inspections.py:17-24 | a row is listed iff some inspection joins to it; nothing drops out iff every inspection's user, company and product exist, and then row i is inspection i's join |
| Database.JoinedAppend | backend/app/api/inspections.py:17-24 | the join keeps the table order |
| Database.StepsGiveNewestFirst | backend/app/api/inspections.py:25 | dates descending between neighbours means descending between any two rows |
| Database.InsertByDate | backend/app/api/inspections.py:25 | inserting a row into a newest-first list keeps it newest-first and adds exactly that row |
| Database.NewestFirstOrder | backend/app/api/inspections.py:25 | the ordering is newest-first and a permutation of its input |
| Database.GetInspections | backend/app/api/inspections.py:7-32 | the listing is the joined rows, each exactly once, newest receipt date first, each carrying only the seven selected inspection columns |
| Database.Projected | backend/app/api/inspections.py:17-21 | a listed row has exactly the seven inspection columns the `SELECT` names, `NULL` for one never written; `image_path`, `excel_path` and other columns are not listed |
| Database.Store.Load | backend/app/api/inspections.py:94-96 | the tables become exactly the given snapshot; with the snapshot taken before the transaction this is the rollback |
| Database.Store.InsertSteps | backend/app/api/inspections.py:54-89 | the get-or-create of company and product and the insert leave exactly the tables of a successful add |
| Database.Store.constructor | backend/app/api/inspections.py:1-5 | the store holds the given tables |
| Database.Store.Login | backend/app/api/auth.py:10-47 | missing credentials give 400, a database error 500, bad credentials 401, all with no change; success gives 200 with the signed token and the user and stamps `last_login` on that user's rows only; every outcome keeps the ids consistent |
| Database.Store.AddInspection | backend/app/api/inspections.py:39-99 | a missing or `None` required field gives 400 and a failure gives 500, both leaving the tables unchanged; success gives 201 with exactly the added row and any created company or product; every outcome keeps the ids consistent |
| Database.Store.UpdateInspection | backend/app/api/inspections.py:101-126 | no updatable key gives 400 and a failure 500, both with no change; success gives 200 with exactly the assignment applied to the row with the id; every outcome keeps the ids consistent |
| Database.Store.LegacyUpdateInspection | backend/app.py:170-191 | a failure gives 500 with no change; success gives 200 and writes all seven columns of the row with the id; every outcome keeps the ids consistent |
| Database.Store.DeleteInspection | backend/app/api/inspections.py:128-144 | a failure gives 500 with no change; success gives 200 and removes exactly the rows with the id; every outcome keeps the ids consistent |
| Database.Store.UploadFile | backend/app.py:216-241 | only a 201 changes the tables; a refused request answers as the handler does; with a sanitiser and a configured upload folder the stored name goes to the column its extension selects; without the folder, or for a dotless name, 500; a failure 500 with its message; every outcome keeps the ids consistent |
| JsSemantics.Or | frontend/src/components/StatisticsPage.jsx:21 | `a \|\| b` is `b` exactly when `a` is falsy |
| JsSemantics.Utf16Length | inspection_front/src/components/ChangePasswordModal/ChangePasswordModal.jsx:23 | `length` counts one unit per character and two for one outside the Basic Multilingual Plane: it equals the character count iff none is outside, and twice it iff all are |
| JsSemantics.TrimEmptyIffBlank | inspection_front/src/components/CommentSection/CommentSection.jsx:32 | `trim()` leaves nothing exactly when the text is all white space |
| JsSemantics.ParseInt | inspection_front-main/src/components/AddInspectionModal/AddInspectionModal.jsx:26-27 | `parseInt` always gives an integer or NaN |
| JsSemantics.ParseIntIsStringParse | inspection_front-main/src/components/AddInspectionModal/AddInspectionModal.jsx:26-27 | `parseInt` parses the string form of its argument |
| JsSemantics.ParseIntStringOfDigits | inspection_front-main/src/components/AddInspectionModal/AddInspectionModal.jsx:26-27 | an optionally negated digit string parses to its value |
| JsSemantics.NegativeDigits | inspection_front-main/src/components/AddInspectionModal/AddInspectionModal.jsx:26-27 | a minus sign followed by digits parses to the negated value |
| JsSemantics.NoLeadingDigits | inspection_front-main/src/components/AddInspectionModal/AddInspectionModal.jsx:26-29 | a text starting with a letter parses to NaN, so the count check is skipped |
| JsSemantics.ParseIntOfNumber | inspection_front-main/src/components/AddInspectionModal/AddInspectionModal.jsx:42 | the decimal rendering of an integer parses back to it |
| JsSemantics.Put | inspection_front-main/src/components/AddInspectionModal/AddInspectionModal.jsx:38 | `{ ...prev, [name]: value }` sets that key, keeps every other key, and appends a new key at the end |
| JsSemantics.Spread | inspection_front-main/src/components/AddInspectionModal/AddInspectionModal.jsx:48 | `{ ...a, ...b }` takes `b`'s value for `b`'s keys and `a`'s for the rest |
| PyJson.PyGet | backend/app/api/inspections.py:86-87 | `d.get(k)` is the value, or `None` when the key is absent |
| PyJson.PyOr | backend/app.py:126-128 | `v or 0` is 0 exactly when `v` is falsy |
| PyJson.PyInt | backend/app.py:125-134 | `int` keeps numbers and fails on `None` and `nan` |
| PyJson.PyIntOfPyStr | backend/app.py:122-125 | `int(str(n))` is `n` for every integer |
| PyJson.PyIntOfDigits | backend/app.py:125-128 | `int` of an optionally negated run of digits is its value |
| KeyedLists.UnknownParentReadsEmpty | inspection_front-main/src/api/inspectionAPI.js:148-158 | `getComments` and `getHistory` of an id with no list give the empty list |

## Left out

- JavaScript numbers are modelled as integers. Fractional quantities, `NaN` arithmetic other than `parseInt`'s, the floating-point rates and percentages (`toFixed`, the pie-chart shares) are not modelled; `StatsGrid.ComputeStats` states only the `'100.0'` case of the rate.
- JavaScript objects keep their keys in insertion order; the special ordering of integer-like keys and inherited prototype keys are not modelled.
- `StatsGrid.QuantityOr0`: a truthy quantity that is not a number counts as 0; JavaScript would concatenate a string onto the running sum and add `true` as 1.
- Dates are millisecond numbers, and string parsing (`new Date(s)`) is a parameter. The local time zone is taken as UTC, so "midnight" is a multiple of a day. `parseInt` exponent and hexadecimal forms are not modelled.
- The day, month and year time filter of frontend/src/components/StatisticsPage.jsx depends on the local calendar and is not modelled; the company and product cascade is.
- Python `int()` of strings with `_` separators or non-ASCII white space or digits is not modelled; such strings are treated as invalid.
- `LegacySql.Convert` and `LegacySql.AddInspection` quote the target date with its quotes doubled, the corrected form of the finding below; the handler's own reply is `LegacySql.AddInspectionAsWritten`.
- `LegacySql.AddInspection`: the 500 body ends with the exception's class name (`TypeError`, `ValueError`, as `PyJson.PyInt` reports them) in place of Python's exception message `{e}`, whose wording depends on the interpreter version and on `repr` of the value.
- `LegacySql.AddInspection` returns the script text; what the script would do when run against SQL Server is not interpreted.
- SQL comparisons are exact; the database collation (case- and accent-insensitive matching) is not modelled.
- After a rollback the model restores the identity counters too; SQL Server does not give back identity values consumed by a rolled-back insert.
- `received_date` (a database default) and `GETDATE()` are parameters.
- `Database.AccountOf`: a username that is not a string matches no user, where the driver would convert it.
- `MockInspectionApi.SortByReceivedDesc`: a row without a valid `receivedDate` is treated as a tie with every row, which the insertion sort resolves by its own rule; with a comparator that is not consistent, the order `Array.prototype.sort` produces is implementation-defined. Stability is proved only for lists whose dates all parse.
- `Database.GetInspections` fixes one order for rows with the same date; the database may return ties in any order.
- `Database.Store.UploadFile`: the 201 branch needs the upload folder configured; the source never sets `app.config['UPLOAD_FOLDER']`, so as written even a sanitised upload answers 500 (the `uploadFolder` parameter is `None` for the source as it stands).
- Database connection failures (the "Database connection failed" 500 of every endpoint) and driver exceptions are folded into one failure parameter whose text stands for the exception message. File saving and `send_from_directory`, CORS, the app factory and blueprints are not modelled.
- The `login` route in backend/app.py duplicates the one in backend/app/api/auth.py without issuing a token, and the companies and users listing endpoints there are plain SELECTs; none is modelled.
- `applyFiltersFromModal` in inspection_front/src/components/QualityListSection/QualityListSection.jsx replaces the whole filter object with the one the filter modal returns; the filter modal is not part of this model, so only the single-key `handleFilterChange` is.
- `LoadingBus.Bus.Settle`: a second request overwrites the remembered cold-start timer, so only the last one is cleared; the model records this but not the timer callbacks' real timing.
- inspection_front/src/components/KpiSection/KpiSection.jsx imports `calculateStatus` twice (lines 4 and 6), which a bundler rejects; the model treats the component as if one import were present.
- JSX rendering, CSS, modal open and close plumbing, and the thin axios wrappers are not modelled.

## Findings

| source | as written | input that shows it | evidently intended | confidence | as-written member | corrected member |
|---|---|---|---|---|---|---|
| inspection_front-main/src/components/ListSection/ListSection.jsx:86-100 | `handleSuccess` looks the entry up by `id`, but the in-memory `addInspection` returns new entries without an `id`, so `undefined === undefined` matches the first id-less entry | two successive adds into a list of stored inspections | every new entry is prepended | not executed | MainListSection.IdlessAddsOverwrite | MainListSection.UpsertKeepingNew |
| backend/app.py:131-133 | `target_date` is wrapped in quotes without doubling `'`, unlike every other string value | `target_date = "x'y"` ends the literal after `x` and leaves `y'` as SQL | the target is escaped like the other strings | not executed | LegacySql.UnescapedTargetBreaksLiteral | LegacySql.TargetRoundTrip |
| inspection_front-main/src/components/InspectionDetailModal/InspectionDetailModal.jsx:21 | the comment delete filters the list by `c.id !== commentId`, but the comments the inspection mock stores have no `id` | deleting any comment of a list of id-less comments | only the clicked comment goes | not executed | DetailModals.IdlessDeleteRemovesAll | DetailModals.RemoveComment |
| backend/app.py:216-222 | `upload_file` calls `secure_filename`, which the module never imports | any allowed name, such as `report.png` | the sanitised file is stored and its column updated, once `UPLOAD_FOLDER` is also configured (the source never sets it, so `app.config['UPLOAD_FOLDER']` raises `KeyError` at line 223) | not executed | Uploads.AllowedUploadFails | Database.Store.UploadFile |
