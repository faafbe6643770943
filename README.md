# FairShare ledger core in Dafny

FairShare is a React expense-splitting ledger. A user keeps **groups**. Each group has:

- **members**, each with a budget;
- a shared cash **locker** with its deposits;
- **expenses**, each paid by the locker, by one member or by several payers, and split between members by an equal, ratio, shares or manual strategy.

A **collection** bundles several groups, which may use different currencies, into one dashboard.

This project models the logic under the screens, on in-memory values, and proves what that logic promises. The screens covered are:

- the expense form's split calculator and submit checks;
- the locker screen's deposit and budget transitions and its withdrawn and remaining figures;
- the per-group summary statistics;
- the collection aggregation functions, with their per-currency views;
- the currency utilities;
- the list and collection transitions of the app shell.

Modelling conventions:

- Money is `real`, dates are `int` timestamps, and ids are strings.
- Number inputs that `parseFloat` reads arrive already parsed. A missing or unparsable entry of a weight or payment map reads as 0; an empty amount field is `None`.
- A JavaScript `Map` or object used as an accumulator is an insertion-ordered association list (module `Buckets`). Its first-insertion key order is the order `Object.entries` and `Map.values` give for these string keys.
- `Array.sort` with a `b - a` comparator is a stable insertion sort by a real key (`Seqs.SortDesc`). `users.sort()` is an insertion sort that compares strings character by character, by code point (`App.SortStrings`).
- `Math.round(x)` is `floor(x + 1/2)`.
- `String.prototype.trim` removes the ECMAScript whitespace and line-terminator characters (module `Text`).
- `Date.now()` ids, `new Date()` times and the answers to `confirm` dialogs are parameters.
- Locale number rendering is an uninterpreted parameter `render`.

Where the source keeps component state, the model keeps it as a class with those fields:

- `AddExpense.MemberSelection`
- `LockerManager.LockerScreen`
- `ExpensesList.ExpensesScreen`
- `GroupSetup.GroupSetupForm`
- `CreateCollection.CollectionForm`
- `App.AppState`

Where the source computes with `forEach` or `for` loops that update accumulators, the model is a method with a loop. Each such method is proved equal to a specification function, and the properties are proved about that function. The source's three different locker-spending rules are kept apart:

- The locker screen and the summary count the first locker contribution (`LockerManager.TotalWithdrawn`).
- The collection statistics count all locker contributions (`Aggregates.LockerSpend`).
- The per-currency panel ignores locker contributions to multiple-payer expenses (`CollectionStatsView.GroupLocker`).

The lemmas relate these rules to each other.

`Group` carries a `currency` field because every caller reads `g.currency`, although `src/types/app.ts` does not declare one. The transactions of the legacy locker-consumption view have the fields that view reads: `paidFromLocker`, `cost`, `currency` and `shares`. The module of their type is not part of this model.

`getExistingUsers` turns a key into a user name with `key.replace('_expenseGroups', '')`. That call removes the first occurrence of the suffix, not the trailing one, and the model does the same (`App.Username`):

- `App.UserKeyRoundTrip` proves that a user name without the suffix inside it is read back unchanged.
- `App.UsernameReplacesFirstOccurrence` exhibits a user name that is not read back unchanged.

## Model

| member | source | states |
|---|---|---|
| Currencies.Symbol | src/utils/currency.ts:41-43 | every currency has a non-empty configured symbol |
| Currencies.Rate | src/utils/currency.ts:52-57 | every rate is positive, and the rupee, the base, is the only currency at rate 1 |
| Currencies.Convert | src/utils/currency.ts:62-74 | within one currency the amount comes back unchanged, with no rounding |
| Currencies.ConvertCents | src/utils/currency.ts:73 | across two currencies the result is a whole number of cents |
| Currencies.ConvertError | src/utils/currency.ts:70-73 | across two currencies the result is within half a cent of amount / rate[from] * rate[to] |
| Currencies.Round2Cents | src/utils/currency.ts:73 | rounding to two decimals gives a whole number of cents |
| Currencies.Round2Error | src/utils/currency.ts:73 | rounding to two decimals moves a value by at most half a cent |
| Currencies.ConvertMonotone | src/utils/currency.ts:62-74 | for a fixed pair of currencies, a larger amount never converts to a smaller result |
| Currencies.ConvertRoundTrip | src/utils/currency.ts:62-74 | converting there and back ends within half a cent, plus half a cent scaled by the rate ratio, of the start |
| Currencies.RoundTripCanLoseSmallAmounts | src/utils/currency.ts:70-73 | one dong converted to dollars and back gives 0 |
| Currencies.FormatCurrency | src/utils/currency.ts:26-39 | the text starts with the currency's symbol, followed by the locale rendering, asked for two decimals exactly when the amount is not whole |
| Currencies.FormatWithConversion | src/utils/currency.ts:79-94 | the converted amount is formatted in the display currency; the original in parentheses is appended only when asked for and the currencies differ |
| Currencies.FormatSameCurrency | src/utils/currency.ts:85-93 | within one currency the result is the plain formatting of the amount, whatever showOriginal says |
| Currencies.UniqueCurrencies | src/utils/currency.ts:99-101 | each input currency appears exactly once, nothing else appears, and the order is that of first occurrence |
| Seqs.DedupFirstOccurrenceOrder | src/utils/currency.ts:100 | `Array.from(new Set(s))` lists elements in the order of their first occurrence |
| Seqs.SortDescSorted | src/utils/collectionAggregation.ts:116 | a descending sort gives non-increasing keys |
| Seqs.SortDescPermutation | src/utils/collectionAggregation.ts:116 | a descending sort is a permutation of its input |
| Seqs.SortDescStable | src/utils/collectionAggregation.ts:116 | the sort is stable: elements with equal keys keep their relative order |
| Seqs.SortDescSum | src/utils/collectionAggregation.ts:119-126 | sorting does not change any sum over the elements |
| Seqs.SortDescElements | src/utils/collectionAggregation.ts:119-126 | the sorted sequence holds exactly the elements of the input |
| Seqs.ToggledMembership | src/components/AddExpense.tsx:39-45 | toggling adds an absent id and removes a present one, and leaves every other id as it was |
| Seqs.ToggledDistinct | src/components/AddExpense.tsx:39-45 | toggling keeps a duplicate-free selection duplicate-free |
| Seqs.ToggledTwice | src/components/AddExpense.tsx:39-45 | toggling the same id twice restores membership |
| Seqs.FilterAll | src/utils/collectionAggregation.ts:331 | a filter that keeps every element returns the sequence unchanged |
| Seqs.FilterCommute | src/App.tsx:177-181 | two filters applied one after the other commute |
| Seqs.FilterSnoc | src/utils/collectionAggregation.ts:18-20 | a filter keeps the order of its input: an element appended to the input is appended to the output exactly when it passes |
| Seqs.ReplaceByKey | src/App.tsx:161-163 | replacing by id (`map(x => x.id === u.id ? u : x)`) turns every element with the update's id into the update, leaves every other element in place, and changes no id |
| Seqs.FilterDropsOne | src/components/LockerManager.tsx:101 | a filter that rejects only one element removes just that element |
| Buckets.AccumulateSpec | src/components/SummaryDashboard.tsx:81-84 | an accumulator bumped once per pair has one entry per distinct key, in first-insertion order; each value is the sum of that key's pairs, and the values add up to the sum of all pairs |
| Buckets.AddKeys | src/components/SummaryDashboard.tsx:82 | `acc[k] = (acc[k] \|\| 0) + v` adds k at the end exactly when it is new, and otherwise keeps the keys |
| Buckets.AddGet | src/components/SummaryDashboard.tsx:82 | after the bump, k reads its old value plus v, and every other key reads its old value |
| Buckets.AddSum | src/components/SummaryDashboard.tsx:82 | a bump by v adds v to the sum of the values |
| Text.TrimSlice | src/components/AddExpense.tsx:110 | the trimmed string is a slice of the input, and everything cut off is whitespace |
| Text.TrimEnds | src/components/AddExpense.tsx:110 | the trimmed string neither starts nor ends with whitespace |
| Text.TrimEmpty | src/components/AddExpense.tsx:97 | `!s.trim()` holds exactly when the string is empty or all whitespace |
| Text.TrimIdempotent | src/components/CreateCollection.tsx:60 | trimming twice is trimming once |
| AddExpense.CalculateSplits | src/components/AddExpense.tsx:50-94 | one split per selected member, in selection order; ratio or shares weights are stored, with missing weights read as 0; manual amounts are taken as typed |
| AddExpense.EqualSplitSums | src/components/AddExpense.tsx:54-60 | with at least one member, the equal shares are all the same and add up to the total |
| AddExpense.WeightedSplitAmounts | src/components/AddExpense.tsx:62-89 | each ratio or shares amount times the weight total is its weight times the total, so amounts are proportional to weights |
| AddExpense.WeightedSplitSums | src/components/AddExpense.tsx:62-89 | ratio and shares amounts add up to the total |
| AddExpense.ManualSplitSums | src/components/AddExpense.tsx:73-78 | manual amounts add up to whatever was typed, and nothing ties them to the total |
| AddExpense.Contributions | src/components/AddExpense.tsx:115-119 | the stored contributions are exactly the payments with a positive amount |
| AddExpense.ContributionsSum | src/components/AddExpense.tsx:115-119 | with no negative payments, dropping the zero payments keeps the total paid |
| AddExpense.Submit | src/components/AddExpense.tsx:96-125 | an expense is saved exactly when the draft passes both guards; nothing happens without a non-blank name, an amount and a selected member; multiple payers are rejected exactly when they miss the amount by more than 0.01; a saved expense has the trimmed name, the kept or fresh id, the computed splits, and contributions only for multiple payers |
| AddExpense.SubmitToleranceInclusive | src/components/AddExpense.tsx:102 | payments exactly 0.01 over the amount are accepted |
| AddExpense.SavedContributionsMatch | src/components/AddExpense.tsx:100-119 | when no payment is negative, the stored contributions of a saved expense are within 0.01 of its amount |
| AddExpense.NegativePaymentDropped | src/components/AddExpense.tsx:101-117 | a negative payment counts toward the check but is not stored, so stored contributions can exceed the amount |
| AddExpense.MemberSelection.constructor | src/components/AddExpense.tsx:26-28 | the selection starts as the edited expense's split members, or else every member |
| AddExpense.MemberSelection.Toggle | src/components/AddExpense.tsx:39-45 | `toggleMember` flips the id's membership, changes no other id, and keeps the selection duplicate-free |
| AddExpense.MemberSelection.SelectAll | src/components/AddExpense.tsx:47 | `selectAll` selects every member id in order |
| AddExpense.MemberSelection.SelectNone | src/components/AddExpense.tsx:48 | `selectNone` empties the selection |
| LockerManager.LowerBudgets | src/components/LockerManager.tsx:88-92 | every budget is lowered by the per-head share but never below 0 |
| LockerManager.AddDeposit | src/components/LockerManager.tsx:50-72 | nothing happens without an amount and a member; otherwise one deposit is appended and the amount added to the total, members untouched, and a balanced locker stays balanced |
| LockerManager.AddCommonPool | src/components/LockerManager.tsx:16-48 | every budget rises by the per-head share; one common-pool deposit of the full amount is appended and added to the total; a balanced locker stays balanced |
| LockerManager.FindDeposit | src/components/LockerManager.tsx:80 | the first deposit with the id, or none exactly when no deposit has it |
| LockerManager.DeleteDeposit | src/components/LockerManager.tsx:79-106 | an unknown id or a declined confirmation changes nothing; otherwise every deposit with the id is removed and its amount subtracted once; a common-pool deposit also lowers every budget, floored at 0 |
| LockerManager.FilterUniqueSum | src/components/LockerManager.tsx:100-101 | with unique ids, filtering out a deposit removes exactly its amount from the deposit sum |
| LockerManager.DeleteDepositBalanced | src/components/LockerManager.tsx:100-101 | with unique deposit ids, deleting a deposit keeps the total equal to the deposit sum |
| LockerManager.DeleteDuplicateIdUnbalances | src/components/LockerManager.tsx:100-101 | with two deposits under one id, deletion removes both but subtracts once, so the locker is no longer balanced |
| LockerManager.CommonPoolRoundTrip | src/components/LockerManager.tsx:16-106 | adding a common-pool deposit under a fresh id and deleting it restores the group, when no budget was negative |
| LockerManager.LowerAfterRaise | src/components/LockerManager.tsx:23-26 | lowering by the share just added restores budgets that were not negative |
| LockerManager.DepositRoundTrip | src/components/LockerManager.tsx:50-106 | adding a member's deposit under a fresh id and deleting it restores the group |
| LockerManager.UpdateMemberBudget | src/components/LockerManager.tsx:108-117 | only the members with the id get the new budget; order, other members and the locker are unchanged |
| LockerManager.NoLockerContributionDrawsNothing | src/components/LockerManager.tsx:125-127 | a multiple-payer expense without a locker contribution draws nothing from the locker |
| LockerManager.TotalWithdrawn | src/components/LockerManager.tsx:121-129 | the amounts of the locker-paid expenses plus the first locker contribution of each multiple-payer expense |
| LockerManager.Remaining | src/components/LockerManager.tsx:131 | the locker total less the withdrawn total: for a balanced locker the deposits less the withdrawals, negative exactly when more was withdrawn than the locker holds |
| LockerManager.RemainingCanBeNegative | src/components/LockerManager.tsx:131 | an empty locker and one locker-paid expense leave a negative remainder |
| LockerManager.RemainingMoves | src/components/LockerManager.tsx:122-132 | adding an expense lowers the remaining amount by its locker draw; a deposit raises it by the deposit |
| LockerManager.LockerScreen.constructor | src/components/LockerManager.tsx:11-14 | the screen starts on the group with empty inputs |
| LockerManager.LockerScreen.CommitDeposit | src/components/LockerManager.tsx:50-72 | the group becomes the deposit's result, both inputs clear only when it happened, and the locker stays balanced |
| LockerManager.LockerScreen.CommitCommonPool | src/components/LockerManager.tsx:16-48 | the group becomes the common-pool result, its input clears, and the locker stays balanced |
| LockerManager.LockerScreen.CommitDeleteDeposit | src/components/LockerManager.tsx:79-106 | the group becomes the deletion's result, and with unique ids the locker stays balanced |
| LockerManager.LockerScreen.CommitMemberBudget | src/components/LockerManager.tsx:108-120 | the group gets the edited budget and the member's editing field is cleared |
| Summary.ComputeConsumed | src/components/SummaryDashboard.tsx:24-31 | the loop sums, over the expenses, the amount of the member's first split, whoever paid |
| Summary.ComputePersonallyPaid | src/components/SummaryDashboard.tsx:34-45 | the loop sums the amounts the member paid alone and the member's first contribution to multiple-payer expenses |
| Summary.ComputeMemberStat | src/components/SummaryDashboard.tsx:22-61 | a member's row: consumption, payments, remaining budget, percent used (0 without a positive budget), and over budget exactly when consumption exceeds the budget |
| Summary.ComputeCategoryData | src/components/SummaryDashboard.tsx:81-89 | the category reduce is the accumulator of the expenses' (category, amount) pairs |
| Summary.ComputeStats | src/components/SummaryDashboard.tsx:12-100 | no statistics without members; otherwise one row per member in order, the totals are sums over the members, the withdrawals follow the first-contribution rule, and the category data is the category accumulator |
| Summary.CategoryDataSpec | src/components/SummaryDashboard.tsx:81-89 | one category entry per distinct category, in order of first appearance; each entry is its category's sum, and the entries add up to the expense total |
| ExpensesList.AddExpenseTo | src/components/ExpensesList.tsx:16-21 | the expense is appended at the end, and every other group field is unchanged |
| ExpensesList.DeleteExpense | src/components/ExpensesList.tsx:42-49 | without confirmation nothing changes; otherwise exactly the expenses with other ids remain |
| ExpensesList.DeleteExpenseKeepsOrder | src/components/ExpensesList.tsx:47 | the remaining expenses keep their order: an expense appended to the list remains at the end exactly when it has another id |
| ExpensesList.UpdateExpense | src/components/ExpensesList.tsx:57-64 | the length is kept and every expense is the update or an old expense with another id |
| ExpensesList.DeleteAbsent | src/components/ExpensesList.tsx:47 | deleting an id that no expense has changes nothing |
| ExpensesList.DeleteOne | src/components/ExpensesList.tsx:47 | with unique ids, deleting removes exactly that expense and keeps the others in order |
| ExpensesList.AddThenDelete | src/components/ExpensesList.tsx:16-49 | adding an expense under a fresh id and deleting it restores the group |
| ExpensesList.UpdateOne | src/components/ExpensesList.tsx:60-62 | with unique ids, updating replaces exactly the expense with that id in place |
| ExpensesList.UpdateAbsent | src/components/ExpensesList.tsx:60-62 | updating an id that no expense has changes nothing |
| ExpensesList.GetMemberName | src/components/ExpensesList.tsx:25-27 | the name of the first member with the id, or "Unknown" when there is none or that name is empty |
| ExpensesList.AddedMemberNamed | src/components/ExpensesList.tsx:25-27 | a member the setup form added under a fresh id is shown by its trimmed name |
| ExpensesList.GetPaidByLabel | src/components/ExpensesList.tsx:29-36 | the locker label exactly for locker expenses, the payer count (0 without payers) exactly for multiple payers, otherwise the payer's name |
| ExpensesList.SavedSplitTotal | src/components/ExpensesList.tsx:250 | the displayed split total of a saved expense is its amount for equal, ratio and shares splits, and the typed manual sum otherwise |
| ExpensesList.ExpensesScreen.constructor | src/components/ExpensesList.tsx:12-14 | the list starts on the group with the form closed and nothing being edited |
| ExpensesList.ExpensesScreen.HandleAddExpense | src/components/ExpensesList.tsx:16-23 | commits the appended expense and closes the form |
| ExpensesList.ExpensesScreen.HandleDelete | src/components/ExpensesList.tsx:42-50 | commits the deletion when confirmed |
| ExpensesList.ExpensesScreen.HandleEdit | src/components/ExpensesList.tsx:52-55 | opens the form on the expense |
| ExpensesList.ExpensesScreen.HandleUpdate | src/components/ExpensesList.tsx:57-67 | commits the replacement, closes the form and stops editing |
| GroupSetup.AddMemberTo | src/components/GroupSetup.tsx:22-31 | a blank name is ignored; otherwise one member with the trimmed name, the fresh id and budget 0 is appended |
| GroupSetup.RemoveMember | src/components/GroupSetup.tsx:35-37 | exactly the members with other ids remain |
| GroupSetup.RemoveMemberKeepsOrder | src/components/GroupSetup.tsx:36 | the remaining members keep their order: a member appended to the list remains at the end exactly when it has another id |
| GroupSetup.AddThenRemove | src/components/GroupSetup.tsx:22-37 | removing a member just added under a fresh id restores the list |
| GroupSetup.CreateGroup | src/components/GroupSetup.tsx:39-57 | no group without a non-blank name and a member; a new group has the trimmed name, no expenses, and an empty locker that is balanced |
| GroupSetup.GroupSetupForm.constructor | src/components/GroupSetup.tsx:10-14 | the form starts empty, with the plane icon and US dollars |
| GroupSetup.GroupSetupForm.AddMember | src/components/GroupSetup.tsx:22-33 | the member list gets the new member, and the name field clears only when one was added |
| GroupSetup.GroupSetupForm.RemoveMemberById | src/components/GroupSetup.tsx:35-37 | the member list loses the id, and nothing else changes |
| GroupSetup.GroupSetupForm.Create | src/components/GroupSetup.tsx:39-57 | the group handed over is the one `createGroup` builds from the form |
| CreateCollection.ValidationErrorsSpec | src/components/CreateCollection.tsx:44-50 | the name error is there exactly for a blank name, and first; the group error is there exactly for an empty selection; there is nothing else and no repeat |
| CreateCollection.Submit | src/components/CreateCollection.tsx:40-68 | errors exactly when the name is blank or nothing is selected; otherwise the collection has the trimmed name and the selection, and keeps the edited id and creation time |
| CreateCollection.SelectedGroups | src/components/CreateCollection.tsx:70 | exactly the groups whose id is selected |
| CreateCollection.SelectedGroupsKeepsOrder | src/components/CreateCollection.tsx:70 | the preview keeps the order of the groups array: an appended group is previewed last exactly when its id is selected |
| CreateCollection.SavedIncludesSelected | src/components/CreateCollection.tsx:58-70 | the groups the saved collection aggregates are the groups the form previewed |
| CreateCollection.CollectionForm.constructor | src/components/CreateCollection.tsx:17-22 | prefilled from the edited collection, or empty with the default icon |
| CreateCollection.CollectionForm.ToggleGroupSelection | src/components/CreateCollection.tsx:31-38 | flips the id's membership and clears the errors |
| CreateCollection.CollectionForm.HandleSubmit | src/components/CreateCollection.tsx:40-68 | shows the errors and saves nothing, or hands over the built collection |
| Aggregates.IncludedGroups | src/utils/collectionAggregation.ts:18-20 | a group is included exactly when its id is listed, and no group is added |
| Aggregates.IncludedGroupsKeepsOrder | src/utils/collectionAggregation.ts:18-20 | the included groups keep the order of the groups array: an appended group is included last exactly when its id is listed |
| Aggregates.IncludedGroupsBySet | src/utils/collectionAggregation.ts:18-20 | only the set of listed ids matters, so repeated or reordered ids select the same groups |
| Aggregates.FlattenMembership | src/utils/collectionAggregation.ts:29-32 | every visited expense belongs to an included group |
| Aggregates.FlattenComplete | src/utils/collectionAggregation.ts:29-32 | every expense of every included group is visited with its group |
| Aggregates.AllExpensesSums | src/utils/collectionAggregation.ts:29-35 | the total is the sum of the group totals, and the count the sum of the group sizes |
| Aggregates.CategoryBreakdownSpec | src/utils/collectionAggregation.ts:50-60 | one category row per distinct category, in order of first appearance; each amount is its category's sum; amounts add up to the total and counts to the number of expenses |
| Aggregates.FindMember | src/utils/collectionAggregation.ts:64 | the first member with the id, or none exactly when no member has it |
| Aggregates.MemberBreakdownSpec | src/utils/collectionAggregation.ts:63-95 | one member row per distinct name, in order of first appearance; each total is the sum of that name's credited splits and of its per-group amounts, with each group at most once |
| Aggregates.UnknownSplitsDropped | src/utils/collectionAggregation.ts:64-65 | splits whose member is not in the group credit nobody |
| Aggregates.PercentagesSum | src/utils/collectionAggregation.ts:110-113 | with a positive total the percentages add up to 100; otherwise they are all 0 |
| Aggregates.ContributionsTotal | src/utils/collectionAggregation.ts:98-106 | the group rows' totals add up to the sum of the group totals |
| Aggregates.CombinedFeedSpec | src/utils/collectionAggregation.ts:142-168 | the feed is newest first and a permutation of the tagged expenses; same-date expenses keep visit order; each entry names its expense's group, with that group's name and currency |
| Aggregates.StatsGroupsSpec | src/utils/collectionAggregation.ts:98-116 | one group row per included group, largest first; the total and count are sums over the groups; percentages add up to 100 when anything was spent |
| Aggregates.StatsCategoriesSpec | src/utils/collectionAggregation.ts:50-60 | the category rows are largest first, each is its category's sum, and they add up to the total and to the count |
| Aggregates.StatsMembersSpec | src/utils/collectionAggregation.ts:63-95 | the member rows are largest first, each is consistent with its per-group breakdown, and they add up to all credited splits |
| CollectionAggregation.LockerSpendOf | src/utils/collectionAggregation.ts:38-47 | a locker-paid expense counts in full, and a multiple-payer expense counts every locker contribution |
| CollectionAggregation.AddSplits | src/utils/collectionAggregation.ts:63-95 | the splits loop credits each split of a known member to the member's name and group |
| CollectionAggregation.AssignPercentages | src/utils/collectionAggregation.ts:110-113 | each row's percentage becomes its share of the total, or 0 without a positive total |
| CollectionAggregation.VisitGroup | src/utils/collectionAggregation.ts:30-96 | one group's pass carries every accumulator over that group's expenses and yields the group total |
| CollectionAggregation.CalculateCollectionStats | src/utils/collectionAggregation.ts:14-137 | the nested loops produce exactly the statistics specified by `Aggregates.StatsOf` |
| CollectionAggregation.AppendFeed | src/utils/collectionAggregation.ts:153-161 | one group's expenses are appended to the feed, tagged with the group |
| CollectionAggregation.AddGroupMembers | src/utils/collectionAggregation.ts:184-218 | one group's splits are credited to the member map |
| CollectionAggregation.BumpGroupCategories | src/utils/collectionAggregation.ts:241-253 | one group's expenses are added to the category map |
| CollectionAggregation.GroupTotals | src/utils/collectionAggregation.ts:275-291 | the first pass gives the sum of group totals and one row per group |
| CollectionAggregation.GetCombinedExpenses | src/utils/collectionAggregation.ts:142-168 | the loops produce the newest-first feed that `Aggregates.CombinedFeedSpec` describes |
| CollectionAggregation.AggregateMemberSpending | src/utils/collectionAggregation.ts:173-225 | the result is the statistics' member rows |
| CollectionAggregation.GetCategoryBreakdown | src/utils/collectionAggregation.ts:230-258 | the result is the statistics' category rows |
| CollectionAggregation.GroupTotalOf | src/utils/collectionAggregation.ts:276-279 | the reduce gives the sum of the group's expense amounts |
| CollectionAggregation.GetGroupContributions | src/utils/collectionAggregation.ts:263-303 | the result is the statistics' group rows |
| CollectionAggregation.ValidateCollectionGroups | src/utils/collectionAggregation.ts:308-321 | the missing ids are exactly the listed ids that name no group, and the collection is valid exactly when every listed id names a group |
| CollectionAggregation.CleanupCollection | src/utils/collectionAggregation.ts:326-338 | exactly the ids that name a group are kept; nothing but the update time changes otherwise; the result validates |
| CollectionAggregation.CleanupKeepsOrder | src/utils/collectionAggregation.ts:331 | the kept ids keep their order: an id appended to the list is kept last exactly when it names a group |
| CollectionAggregation.CleanupIdempotent | src/utils/collectionAggregation.ts:326-338 | cleaning up twice is cleaning up once |
| CollectionAggregation.CleanupValid | src/utils/collectionAggregation.ts:326-338 | a valid collection is left as it is, apart from its update time |
| CollectionAggregation.CleanupKeepsStats | src/utils/collectionAggregation.ts:326-338 | dropping dangling ids changes no statistic |
| CollectionAggregation.LockerRulesAgree | src/utils/collectionAggregation.ts:38-47 | the all-contributions rule and the locker screen's first-contribution rule agree when no expense has two locker contributions |
| CollectionAggregation.LockerRulesDiffer | src/utils/collectionAggregation.ts:42-46 | with two locker contributions of 5, the statistics count 10 and the locker screen 5 |
| CollectionStatsView.InitialDisplay | src/components/CollectionStats.tsx:12-14 | a single currency is shown directly, and anything else starts as the multi-currency view |
| CollectionStatsView.OneCurrency | src/components/CollectionStats.tsx:11-14 | there is exactly one currency when there is a group and all groups share its currency |
| CollectionStatsView.ComputeTotalsByCurrency | src/components/CollectionStats.tsx:17-31 | the reduce bumps one bucket per group currency by the group's total and locker amounts |
| CollectionStatsView.TotalsByCurrencySpec | src/components/CollectionStats.tsx:17-31 | one bucket per currency in first-occurrence order; each figure is the sum over that currency's groups; personal is total minus locker; the buckets add up to the groups' sum |
| CollectionStatsView.BucketTotalsMatchStats | src/components/CollectionStats.tsx:17-31 | over a collection's groups, the bucket totals add up to the statistics' total |
| CollectionStatsView.BucketLockerMatchesStats | src/components/CollectionStats.tsx:19-21 | the bucket locker amounts match the statistics' locker spending when no multiple-payer expense draws on the locker |
| CollectionStatsView.SharedLockerPaymentIgnored | src/components/CollectionStats.tsx:19-21 | a locker contribution to a multiple-payer expense is missing from the buckets but counted by the statistics |
| CollectionStatsView.Formatted | src/components/CollectionStats.tsx:38 | each bucket is formatted in its own currency |
| CollectionStatsView.DisplayInOwnCurrency | src/components/CollectionStats.tsx:42-45 | when every bucket is already in the display currency, the converted display is the plain sum |
| CollectionStatsView.ConvertedSumError | src/components/CollectionStats.tsx:42-45 | the converted display total is within half a cent per bucket of the exact rate-table sum |
| CollectionStatsView.InitialDisplayTotal | src/components/CollectionStats.tsx:11-47 | groups of one currency start with the plain total in that currency; otherwise the buckets are joined with " + " |
| CollectionStatsView.SpendingShares | src/components/CollectionStats.tsx:111-125 | the locker and personal shares add up to 100% of a positive total and read 0% otherwise |
| CollectionDashboardView.InitialMemberDisplay | src/components/CollectionDashboard.tsx:38-49 | one currency exactly when the collection has a group and all its groups share that currency |
| CollectionDashboardView.ComputeCategoryByCurrency | src/components/CollectionDashboard.tsx:154-159 | the reduce sums, per currency, the feed's expenses of exactly that category |
| CollectionDashboardView.CategoryByCurrencySpec | src/components/CollectionDashboard.tsx:154-159 | a category row's currency amounts have one entry per currency and add up to the row's amount |
| CollectionDashboardView.FindGroup | src/components/CollectionDashboard.tsx:255 | the first collection group with the id, or none exactly when no group has it |
| CollectionDashboardView.ComputeMemberByCurrency | src/components/CollectionDashboard.tsx:254-260 | the reduce sums a member's group amounts by group currency, skipping groups outside the collection |
| CollectionDashboardView.MemberByCurrencySpec | src/components/CollectionDashboard.tsx:254-260 | a member row's currency amounts have one entry per currency and add up to the member's total |
| CollectionDashboardView.MemberInitialDisplay | src/components/CollectionDashboard.tsx:263-275 | in a single-currency collection the member tab starts on the plain total in that currency |
| LockerConsumption.DisplayCurrency | src/components/LockerConsumption.tsx:10 | the first transaction's currency, or VND |
| LockerConsumption.ShareConsumption | src/components/LockerConsumption.tsx:26-35 | a negative share adds its absolute value, a positive share adds the cost minus the share, and a zero share adds nothing |
| LockerConsumption.ZeroEntries | src/components/LockerConsumption.tsx:16-18 | every person starts at 0, in order |
| LockerConsumption.AddShares | src/components/LockerConsumption.tsx:25-36 | the inner loop adds each share of one transaction to its person |
| LockerConsumption.InitialConsumption | src/components/LockerConsumption.tsx:16-18 | the initialisation loop sets every person to 0 |
| LockerConsumption.FoldLockerTransactions | src/components/LockerConsumption.tsx:21-37 | the outer loop folds exactly the locker-paid transactions into the dictionary |
| LockerConsumption.ComputeConsumption | src/components/LockerConsumption.tsx:12-42 | the memo gives the dictionary's entries sorted largest first |
| LockerConsumption.DictionarySpec | src/components/LockerConsumption.tsx:13-37 | one entry per distinct key, people first, and each entry sums that person's consumption |
| LockerConsumption.ConsumptionSorted | src/components/LockerConsumption.tsx:39-41 | the rows are largest first, a permutation of the dictionary, and stable among equal amounts |
| LockerConsumption.TotalConsumptionSpec | src/components/LockerConsumption.tsx:44 | the total is the sum over locker-paid transactions of their shares' consumption |
| LockerConsumption.NonLockerIgnored | src/components/LockerConsumption.tsx:21-22 | a transaction not paid from the locker changes nothing |
| App.StorageKey | src/App.tsx:32 | the user's name and "_" before the key when a user is logged in, otherwise the key alone |
| App.FirstOccurrence | src/App.tsx:48 | the first position where the pattern occurs, or none |
| App.ReplaceFirst | src/App.tsx:48 | a string without the pattern is left unchanged |
| App.CollectedUsersSpec | src/App.tsx:43-53 | the collected names are distinct and are exactly the names read from the user keys |
| App.SortStringsSpec | src/App.tsx:54 | `users.sort()` gives a sorted permutation |
| App.GetExistingUsers | src/App.tsx:43-55 | the loop collects the names, then sorts them |
| App.ExistingUsersSpec | src/App.tsx:43-55 | the known users are sorted and listed once each, and they are exactly the names read from the user keys |
| App.UserKeyRoundTrip | src/App.tsx:32-48 | a user whose name does not contain the suffix is read back from that user's groups key |
| App.UsernameReplacesFirstOccurrence | src/App.tsx:48 | a user name containing the suffix is read back wrongly, because the first occurrence is removed |
| App.Migrate | src/App.tsx:95-98 | a missing currency becomes USD, and every other field is unchanged |
| App.ViewModeName | src/App.tsx:153 | the view mode written under its key is read back as the same view mode |
| App.SaveGroups | src/App.tsx:132-141 | with a user logged in, the groups are written only when the list is non-empty and the active id only when it is set; everything else stored is kept |
| App.SaveCollections | src/App.tsx:144-154 | with a user logged in, the collections are written only when the list is non-empty, the active id only when it is set, and the view mode always |
| App.SaveThenLoad | src/App.tsx:72-104 | loading a non-empty list of groups after the save effect wrote it gives back the same groups, since the currency migration changes no saved group, and a saved active id that names one of them is restored |
| App.EmptiedGroupsComeBack | src/App.tsx:135-137 | after the list is emptied, the load still returns the last non-empty list that was saved |
| App.SaveCollectionsThenLoad | src/App.tsx:110-127 | loading after the collections save effect restores a non-empty list, an active id that names one of its collections, and the view mode |
| App.EmptiedCollectionsComeBack | src/App.tsx:147-152 | emptying the collections and clearing the active collection write nothing, so the previous list and id stay stored |
| App.LoadedGroups | src/App.tsx:76-99 | the saved list after migration, or else the legacy single group wrapped in a list, or else nothing |
| App.LoadedActive | src/App.tsx:100-104 | the saved id when a loaded group has it, else the first group, else the old id; with groups the result names one of them |
| App.LoadedActiveCollection | src/App.tsx:118-120 | the saved id when it is non-empty and a loaded collection has it, else the previous id; so the result is the previous id or names a loaded collection |
| App.LoadedViewMode | src/App.tsx:126-128 | only the two known view names are restored |
| App.RemoveGroup | src/App.tsx:173 | exactly the groups with other ids remain |
| App.RemoveCollection | src/App.tsx:214 | exactly the collections with other ids remain |
| App.FirstGroupId | src/App.tsx:186 | the first remaining group's id, or none exactly when there is none |
| App.FirstCollectionId | src/App.tsx:218 | the first remaining collection's id, or none exactly when there is none |
| App.CascadeSpec | src/App.tsx:177-181 | no remaining collection mentions the deleted group or is empty; each one is an old collection stripped of the id; an old collection survives exactly when it had another id |
| App.DeleteGroupAggregates | src/App.tsx:173-181 | a stripped collection aggregates its old groups minus the deleted one |
| App.DeleteGroupKeepsValid | src/App.tsx:173-181 | a collection whose ids all named groups still does after the deletion |
| App.UpdateKeepsValidity | src/App.tsx:161-163 | replacing a group by id keeps every collection's validity |
| App.AppState.constructor | src/App.tsx:16-25 | the app starts with no user, no groups, no collections and the groups view |
| App.AppState.Load | src/App.tsx:72-129 | without a user nothing changes; otherwise the groups, collections, active ids and view are loaded as specified, and loaded groups leave a valid active group |
| App.AppState.HandleGroupCreated | src/App.tsx:156-159 | the group is appended and becomes the active group |
| App.AppState.HandleGroupUpdate | src/App.tsx:161-163 | the groups are replaced by id, and a valid active group stays valid |
| App.AppState.DeleteGroup | src/App.tsx:170-188 | unless cancelled, the group is removed, the collections cascade, and an active deleted group passes to the first remaining one or none |
| App.AppState.HandleCreateCollection | src/App.tsx:199-203 | the collection is appended, becomes active, and the collections view is shown |
| App.AppState.HandleUpdateCollection | src/App.tsx:205-209 | the collections are replaced by id |
| App.AppState.HandleDeleteCollection | src/App.tsx:211-220 | unless cancelled, the collection is removed, and an active deleted collection passes to the first remaining one or none |
| App.AppState.ImportData | src/App.tsx:256-275 | a parsed group is appended under a fresh id and made active; a parse failure changes nothing |
| App.DeleteGroupCanDropActiveCollection | src/App.tsx:177-187 | the cascade removes a collection whose only group is deleted, while `App.AppState.DeleteGroup` keeps the active collection id |

## Left out

- Rendering, styling, charts, progress bars, emoji pickers and navigation are not modelled. This covers `switchGroup`, `openGroup`, `openCollection`, the view switches, the group selector, `activeTab` and the summary's empty-state screens. They change only what is shown.
- Login, logout, `resetGroup` and `exportData` are not modelled. They are a stored user name, a second confirmation before `deleteGroup`, and a file download.
- Browser I/O becomes values. `localStorage` is a `Storage` value read by `App.AppState.Load` and written by `App.SaveGroups` and `App.SaveCollections`, and the key list is a parameter of `App.GetExistingUsers`. JSON parsing is an `Option`, and the migration's write-back of the wrapped legacy group is not modelled.
- App.AppState.ImportData: the imported file arrives as a well-formed `Group`, which always has a currency. The source takes any JSON `as Group` and runs no currency migration on it (src/App.tsx:263-265), so an export that predates currencies is stored without one. The model does not capture that.
- `confirm` answers, `Date.now()` ids and `new Date()` times are parameters. Id collisions between two `Date.now()` calls are not modelled, except where a lemma requires a fresh id.
- Number formatting is an uninterpreted `render` function. This covers `toLocaleString`, `toFixed` and the exact digits shown.
- `parseFloat` is not modelled. Inputs arrive as reals, with `None` for an empty field and 0 for a missing map entry.
- IEEE-754 doubles are not modelled: sums, divisions and rounding are exact over the reals. Binary rounding drift and `amount % 1` on doubles are therefore not captured.
- AddExpense.CalculateSplits: requires a non-zero weight total for ratio and shares splits, because the source then divides by zero and stores NaN amounts, which reals cannot represent.
- AddExpense.Submit: requires the same non-zero weight total, but only for drafts that pass both guards (`AddExpense.PassesChecks`), because only those reach the split calculation; drafts the guards stop are modelled for every weight.
- The category percentage bar of the collection dashboard is not modelled. It is computed without a guard on a zero total (src/components/CollectionDashboard.tsx:152), and it is only a bar width.
- The key order of `Object.entries` is modelled as first-insertion order. That is JavaScript's order for these non-numeric keys, but numeric-looking keys would come first.
- `App.SortStrings` orders characters by code point. JavaScript compares UTF-16 code units, which order differently only for characters outside the Basic Multilingual Plane.
- App.ReplaceFirst: its contract states only that a string without the pattern is unchanged. What happens to a string that contains the pattern is shown on one family of inputs by `App.UsernameReplacesFirstOccurrence`.
- The locker screen's `getMemberName` is not modelled: it is only a display label. Neither are the currency and icon editors, the collections list, the combined expense list, the group breakdown or the rates display, which only show values computed elsewhere.
- `deleteGroup` leaves `activeCollectionId` pointing at a collection the cascade may have removed. The model keeps this as written (`App.DeleteGroupCanDropActiveCollection`).
- The save effects write nothing for an empty group list, an empty collection list or an unset active id (src/App.tsx:135-140, 147-152). Groups or collections deleted down to none therefore come back on the next load. The model keeps this as written (`App.EmptiedGroupsComeBack`, `App.EmptiedCollectionsComeBack`).
- The load keeps the previous active collection id when the saved one is unknown. It keeps the previous active group id when no group was loaded. The model keeps both as written.
- React scheduling is not modelled. That covers `useState` batching, `useMemo` and `useEffect` ordering; each handler is one atomic state change.
