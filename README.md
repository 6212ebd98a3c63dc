# expense-snippet, modelled in Dafny

expense-snippet is a personal expense tracker. A React front end keeps its
state in a zustand store (categories, subcategories, expenses, budgets and
savings goals), backed by Supabase tables. Splitwise comes in three ways:

- the browser-side Splitwise client syncs the user's recent Splitwise
  expenses into the store's tables;
- Supabase edge functions proxy Splitwise (`get_expenses`,
  `create_expense`) and ask Gemini to read a receipt photo (`get_items`);
- a Python poller (`utils/script.py`) copies into the expenses table, for
  each configured user, the expenses that user owes on.

The model keeps each part in the form of its source:

- The store's actions are functions from a `State` value to a `Step`: the
  request the action sent, the new state, and what the call returned or
  threw. The database's answers are parameters. Where an action loops
  (recurring series, cascaded deletes, default seeding, bulk operations),
  the model has a `method` with the same loop, proved against a
  specification function.
- The rate limiter and the TTL cache update their maps in place. Each is a
  `class` whose methods state the whole new state.
- The edge functions and the poller are methods. The HTTP request, the
  environment, Splitwise's and Gemini's answers, and `JSON.parse` are
  parameters. Each method returns the request it sent and the response.
- Money is in integer cents and percentages are reals. Dates are local
  calendar date-times, with the browser's zone as a fixed offset.
- Strings are sequences of characters. `trim`, `split`, `parseInt`,
  `String(n)` and the regular expressions the code uses are written out in
  `JsText` and next to their callers.

Two stores exist side by side. `src/lib/store.ts` is the older
single-file store, and `src/lib/store/` holds the newer one, split by
entity. Both are modelled, the older one in `LegacyStore`, with lemmas
stating where they differ:

- the older store does not cascade deletes and swallows delete errors;
- it drops recurrences;
- it filters a month on the UTC date.

Category create, update and fetch code, and the default seeding table, is
the same in both stores and is modelled once, in `CategoryActions`.
`src/lib/store/expenseActions.ts` shadows the `src/lib/store/expenseActions/`
directory under standard module resolution, and the store uses the `.ts`
file. The directory's variants are modelled as well: its recurring series
is the same code, and its optimistic update and delete are in
`OptimisticDelete`.

Which store the pages get: every page and `client.ts` import
`@/lib/store`, and under the same standard resolution that file,
`src/lib/store.ts`, comes before the `src/lib/store/` directory. So the
running app uses the older store: its month filter on the UTC date is the
one the month views see, and the budget and savings-goal actions that the
budget and goals pages call are missing from it. The newer store is
modelled as written all the same, as the code the app was evidently moving
to.

The Python poller is modelled as its code runs, which differs from the
intent described around it:

- a record is kept once per share of the user that owes more than zero, so
  two such shares give two rows;
- the amount is read from the user's first share, whether or not that share
  owes;
- an `owed_share` that is not a number stops the whole run, and the users
  after it are not processed.

A few other behaviours also follow the code rather than its comments:

- The rate limiter's doc comment says `isRateLimited` returns true when
  the call is allowed. The code returns true when the call is refused, and
  `RateLimiter.Limiter.IsRateLimited` states that.
- Undoing an optimistic delete puts back only the first expense with the
  deleted id.
- `handleError` returns `null`. The create and update actions of
  categories, subcategories, budgets and savings goals end in it, so they
  report a failure by returning nothing and never throw. The deletes and
  the expense actions re-throw.

## Model

| member | source | states |
|---|---|---|
| Auth.ExtractJwt | supabase/functions/_shared/auth.ts:3-6 | null exactly when the header is missing or does not start with "Bearer "; the token it returns never holds a space |
| Auth.TokenUpToSpace | supabase/functions/_shared/auth.ts:5 | the token is the text after "Bearer " up to the first further space or the end |
| Auth.BarePrefixGivesEmptyToken | supabase/functions/_shared/auth.ts:4-5 | the header "Bearer " alone gives the empty token, not null |
| GetExpenses.UpstreamParams | supabase/functions/get_expenses/index.ts:28-29 | `dated_after` is sent exactly when `after_date` is present and non-empty, and carries its value |
| GetExpenses.FirstNamed | supabase/functions/get_expenses/index.ts:49-50 | the index of the first share whose user id prints as the requested id; no earlier share matches |
| GetExpenses.KeepExpense | supabase/functions/get_expenses/index.ts:46-55 | the loop's answer equals the filter predicate: not a payment, not deleted, and the caller's first share owes more than zero |
| GetExpenses.FilterExpenses | supabase/functions/get_expenses/index.ts:46-55 | the loop computes the record-by-record filter |
| GetExpenses.FilteredMembers | supabase/functions/get_expenses/index.ts:46-55 | a record is kept exactly when it is in the input and satisfies the predicate |
| GetExpenses.FilteredAppend | supabase/functions/get_expenses/index.ts:46 | filtering a concatenation is concatenating the filtered parts, so upstream order is kept |
| GetExpenses.NoUserIdKeepsNothing | supabase/functions/get_expenses/index.ts:26-50 | without `user_id` (printed "null") no expense is kept |
| GetExpenses.Handle | supabase/functions/get_expenses/index.ts:4-66 | 401 with the matching message when the token or the key is missing or empty, and no request; otherwise one request with the params above; 200 with the filtered list, or 500 with the status message or the thrown message |
| SplitwiseRecords.FirstMatch | utils/script.py:75-76 | the index of the first share of the user; no earlier share is the user's |
| Poller.QueryFor | utils/script.py:32-49 | the request covers the eight hours (28800 s) up to now, at most 50 records, under the user's own token |
| Poller.Process | utils/script.py:57-104 | a status other than 200 inserts nothing; the run fails exactly when the fetch succeeded and some non-payment record has a share of the user that `float` cannot read |
| Poller.AppendOwing | utils/script.py:67-69 | the inner loop appends the record once per share of the user that owes more than zero, and fails exactly when such a share is unreadable |
| Poller.FilterMyExpenses | utils/script.py:61-69 | the filter loop builds the list of the selection function, and fails exactly when the filter crashes |
| Poller.ProcessUserExpenses | utils/script.py:24-104 | the method's result is the run's specification above |
| Poller.SelectedAppend | utils/script.py:62 | selection goes record by record, so upstream order is kept |
| Poller.SelectedOne | utils/script.py:64-69 | one record is kept once per owing share of the user, and never when it is a payment |
| Poller.SelectedMembers | utils/script.py:61-69 | every kept record is an upstream non-payment record with a share of the user owing more than zero |
| Poller.ProcessRowsCarryConfig | utils/script.py:86-94 | every inserted row has a fresh id and the configured user, category and subcategory |
| Poller.RowAmountIsFirstMatch | utils/script.py:75-90 | the amount of each row is the owed share of the first entry of the user in its record, and the description is the record's |
| Poller.AmountFromFirstEntry | utils/script.py:68-76 | two entries of one user owing 0 and 5.00 give one row with amount 0: the amount comes from the first entry, not the owing one |
| Poller.RunAll | utils/script.py:106-109 | the loop over users gives the rows and the crash flag of the run specification |
| Poller.RunIdsConsecutive | utils/script.py:87 | the rows of a whole run carry consecutive fresh ids, so none repeats |
| Poller.RunCrashCause | utils/script.py:68-109 | a run stops exactly when some user's fetch succeeded and one of that user's shares could not be read |
| RateLimiter.RecentMembers | src/lib/rateLimiter.ts:38-41 | exactly the timestamps with `now - t < window` survive the pruning |
| RateLimiter.RecentAscending | src/lib/rateLimiter.ts:39-41 | pruning keeps an ascending list ascending and adds nothing |
| RateLimiter.StepAscending | src/lib/rateLimiter.ts:39-49 | with a clock that does not run backwards, the recorded timestamps stay ascending, so the first one is the oldest |
| RateLimiter.Limiter.constructor | src/lib/rateLimiter.ts:17 | the map starts empty |
| RateLimiter.Limiter.IsRateLimited | src/lib/rateLimiter.ts:25-52 | the key keeps the config of its first call; the call is refused (true, nothing recorded) exactly when the pruned count has reached `maxRequests`, else `now` is appended; no other key changes; a refusal leaves a positive wait |
| RateLimiter.Limiter.TimeUntilReset | src/lib/rateLimiter.ts:59-70 | never negative; positive exactly when the key has timestamps and the oldest is still inside its window, and then `now` plus the wait is when it leaves |
| RateLimiter.Limiter.Reset | src/lib/rateLimiter.ts:76-80 | a known key loses its timestamps and keeps its config; an unknown key is left alone |
| RateLimiter.RefusedMeansWait | src/lib/rateLimiter.ts:44-69 | after a refusal the oldest retained timestamp is still inside the window |
| RateLimiter.SameInstantKept | src/lib/rateLimiter.ts:39-41 | with a positive window nothing recorded at `now` is pruned at `now` |
| TtlCache.Cache.Lookup | src/lib/cache.ts:38-52 | a lookup finds the value exactly when the key is stored and `now` is not past its expiry |
| TtlCache.Cache.constructor | src/lib/cache.ts:15-16 | the cache starts empty |
| TtlCache.Cache.Set | src/lib/cache.ts:24-31 | the entry gets expiry `now + ttl` (five minutes by default) and replaces any earlier one; a new key goes last; the value is found at every instant up to the expiry |
| TtlCache.Cache.Get | src/lib/cache.ts:38-52 | returns what a lookup finds; an expired entry is evicted and nothing else changes; otherwise the cache is unchanged |
| TtlCache.Cache.Has | src/lib/cache.ts:59-73 | true exactly when a lookup finds a value; evicts an expired entry as `get` does |
| TtlCache.Cache.Remove | src/lib/cache.ts:79-81 | removes that key and no other; the order of the rest is kept |
| TtlCache.Cache.Clear | src/lib/cache.ts:86-88 | the cache is empty afterwards |
| TtlCache.Cache.Keys | src/lib/cache.ts:94-96 | every stored key once, expired or not |
| TtlCache.Cache.Size | src/lib/cache.ts:102-104 | the number of stored entries, expired or not, which is the number of keys |
| TtlCache.WithoutDistinct | src/lib/cache.ts:47-80 | removing a key keeps the key list free of repeats |
| TtlCache.DistinctCard | src/lib/cache.ts:95-103 | a key list without repeats is as long as the set of its keys |
| Calendar.FromIndex | src/components/MonthSelector.tsx:21-26 | every month index names exactly one valid month |
| Calendar.FromIndexOfIndex | src/components/MonthSelector.tsx:21-26 | month indices number the valid months one to one |
| Calendar.ShiftMonth | src/components/MonthSelector.tsx:21-26 | the result is a valid month `n` months away |
| Calendar.NeighbourMonths | src/components/MonthSelector.tsx:21-26 | one month back from January is December of the year before, one month on from December is January of the next |
| Calendar.ShiftMonthInverse | src/components/MonthSelector.tsx:21-26 | going `n` months and then `-n` months returns to the month |
| Calendar.DaysIn | src/lib/store/expenseActions.ts:95 | a month has 28 to 31 days, February 29 in leap years |
| Calendar.AddMonths | src/lib/store/expenseActions.ts:95 | `addMonths` lands `n` months later at the same time of day, with the day clamped to the target month's length |
| Calendar.AddMonthsKeepsEarlyDay | src/lib/store/expenseActions.ts:95 | a day of month up to 28 survives every month step, and stepping back undoes it |
| Calendar.ToUtc | src/lib/store.ts:502 | the UTC time of a valid local time is a time of day; with a zero offset it is the local time |
| Calendar.Pad | src/lib/store/expenseActions.ts:96 | padding gives at least `width` digits |
| Calendar.PadValue | src/lib/store/expenseActions.ts:96 | padding keeps the number's value |
| Calendar.DigitsValueInjective | src/components/MonthSelector.tsx:18 | two digit strings of one length with one value are equal |
| Calendar.ParseMonth | src/components/MonthSelector.tsx:18 | a parsed month is valid and its year has at most four digits |
| Calendar.ParseMonthText | src/components/MonthSelector.tsx:18-27 | formatting a month of years 1 to 9999 as `yyyy-MM` and parsing it gives the month back |
| Calendar.MonthTextOfParse | src/components/MonthSelector.tsx:18-27 | parsing a month text and formatting it again gives the text back, for years from 1 |
| Calendar.SameParseSameText | src/components/MonthSelector.tsx:18 | two month texts that parse to the same month are the same text |
| Calendar.IsoPrefixIsFormat | src/lib/store.ts:502 | for years 1 to 9999 the first seven characters of `toISOString()` are the `yyyy-MM` text of the UTC date |
| MonthSelector.Previous | src/components/MonthSelector.tsx:18-23 | defined exactly for a text that parses as a month; gives the month before, December of the year before for January |
| MonthSelector.Next | src/components/MonthSelector.tsx:18-28 | defined exactly for a text that parses as a month; gives the month after, January of the next year for December |
| MonthSelector.StepsAreMonthShaped | src/components/MonthSelector.tsx:22-27 | both buttons print four digits, a dash and two digits while the year stays within 1 to 9999 |
| MonthSelector.NextOfPrevious | src/components/MonthSelector.tsx:20-28 | the next button undoes the previous button (while the year stays from 1) |
| MonthSelector.PreviousOfNext | src/components/MonthSelector.tsx:20-28 | the previous button undoes the next button (while the year stays at most 9999) |
| MonthSelector.ThirteenthMonthFails | src/components/MonthSelector.tsx:18 | "2024-13" is not a month, and neither button gives a value |
| UiUtils.CategoryColor | src/lib/utils.ts:81-90 | each of the five known types gets its own `bg-expense-<type>` class; any other type gets `bg-gray-400` |
| UiUtils.DateOfParts | src/lib/utils.ts:29 | `new Date(y, m, 1)` always names a valid month |
| UiUtils.Title | src/lib/utils.ts:29-30 | a title exists exactly when both parts read as numbers |
| UiUtils.SplitMonth | src/lib/utils.ts:28 | a `yyyy-MM` text splits into its year and its month |
| UiUtils.MonthParts | src/lib/utils.ts:28-29 | `parseInt` reads the two parts of a well-formed month as its year and month |
| UiUtils.TitleOf | src/lib/utils.ts:29-30 | the title of month `m` of year `y`, with years 0 to 99 moved to 1900 to 1999 |
| UiUtils.MonthNameOfMonth | src/lib/utils.ts:27-31 | for years from 100 the title is the English month name, a space, and the year as written |
| UiUtils.YearAsWritten | src/lib/utils.ts:30 | the year of a parsed month prints back as the text it came from |
| UiUtils.TwoDigitYear | src/lib/utils.ts:29 | years 0000 to 0099 are read as 1900 to 1999, so "0024-03" is titled March 1924 |
| MemberSelection.Without | src/components/expense/SplitwiseMemberSelection.tsx:69 | the filter drops every occurrence of the id and keeps every other element |
| MemberSelection.WithoutAbsent | src/components/expense/SplitwiseMemberSelection.tsx:69 | filtering out an id that is not there changes nothing |
| MemberSelection.WithoutAppend | src/components/expense/SplitwiseMemberSelection.tsx:69 | the filter distributes over concatenation |
| MemberSelection.Toggle | src/components/expense/SplitwiseMemberSelection.tsx:67-72 | after a toggle the id is selected exactly when it was not; a new id goes last |
| MemberSelection.ToggleKeepsOthers | src/components/expense/SplitwiseMemberSelection.tsx:67-72 | every other id keeps its occurrences and their order |
| MemberSelection.ToggleTwice | src/components/expense/SplitwiseMemberSelection.tsx:67-72 | toggling an unselected id twice gives the selection back |
| MemberSelection.MembersAfterGroupChange | src/components/expense/SplitwiseMemberSelection.tsx:27-65 | a null or 0 group id clears the list; otherwise a successful fetch replaces it and a failed one leaves it |
| AddExpenseForm.Validate | src/pages/AddExpense.tsx:70-100 | accepted exactly when initialized, both ids chosen, the amount positive, the trimmed description non-empty and, for a recurring expense, the months text reads as 1 to 60; each failing guard, the months check included, gives its own message |
| AddExpenseForm.BlankDescriptionRejected | src/pages/AddExpense.tsx:86-89 | a description made only of characters `trim()` strips (ECMAScript white space, every Unicode space separator, and line terminators) is rejected like an empty one |
| AddExpenseForm.IdeographicSpaceRejected | src/pages/AddExpense.tsx:86-89 | a description of ideographic spaces (U+3000) only is rejected with the description message |
| AddExpenseForm.MonthsReadLeadingDigits | src/pages/AddExpense.tsx:92-93 | the months text is read as `parseInt` does, so "12abc" passes as 12 |
| AddExpenseForm.NextMonths | src/pages/AddExpense.tsx:63-68 | the stored count follows the text only when it reads as a positive integer |
| AddExpenseForm.MonthsStayPositive | src/pages/AddExpense.tsx:44-68 | the stored count stays positive whatever is typed |
| SplitwiseClient.AfterDate | src/integrations/splitwise/client.ts:261-262 | the stored last sync time is the lower bound when present and non-empty, otherwise 1 January 2020 |
| SplitwiseClient.ResolveAsWritten | src/integrations/splitwise/client.ts:296-312 | a found misc category is used; when none is found the sync fails whether or not a new one was created |
| SplitwiseClient.Resolve | src/integrations/splitwise/client.ts:296-337 | the id is the found row's, else the created row's, and the error is the "failed to create" message only when neither exists |
| SplitwiseClient.CreatedCategoryIsLost | src/integrations/splitwise/client.ts:299-311 | with no misc category and a successful insert, the code as written throws where the intended code goes on with the new id |
| SplitwiseClient.Succeeded | src/integrations/splitwise/client.ts:350-366 | at most one count per attempt, and every attempt counted exactly when none threw |
| SplitwiseClient.InsertLoop | src/integrations/splitwise/client.ts:340-368 | the inserts attempted are those of the records that are not payments and where the user's first share does not read as `<= 0`, in order; `addedCount` counts the attempts that did not throw |
| SplitwiseClient.AttemptsAppend | src/integrations/splitwise/client.ts:342-367 | records are handled one after another: attempts keep upstream order and never outnumber the records |
| SplitwiseClient.AttemptsFromEligible | src/integrations/splitwise/client.ts:344-361 | every attempt comes from an eligible record and carries the user's first share as its amount and the record's description and date |
| SplitwiseClient.GuardError | src/integrations/splitwise/client.ts:253-283 | the first failing guard in the code's order gives its message: no session, no Splitwise user id, a non-ok answer with its status and text, no signed-in user; none fails exactly when all four hold |
| SplitwiseClient.Destination | src/integrations/splitwise/client.ts:288-337 | as written, the rows have a destination exactly when the misc category and a subcategory under it are both found, and then it is those two; as intended, also when the missing rows could be created; a failed creation gives its own message |
| SplitwiseClient.CreatedSubcategoryIsLost | src/integrations/splitwise/client.ts:314-336 | with the misc category found but no subcategory under it and a successful insert, the code as written throws where the intended code goes on with the new subcategory id |
| SplitwiseClient.SyncTo | src/integrations/splitwise/client.ts:251-375 | the guards in order, then a failed destination gives its error, otherwise the loop's report; the lower bound is requested once the session and Splitwise user id are present |
| SplitwiseClient.Sync | src/integrations/splitwise/client.ts:251-385 | the code as written: no session and no Splitwise user id fail before any request; the request carries the default lower bound; the result is Ok exactly when every guard passes and both the misc category and its subcategory are found, and is then exactly the loop's inserts into them, their count and the stamped last sync time; otherwise it is the first failing guard's or lookup's error |
| SplitwiseClient.SyncIntended | src/integrations/splitwise/client.ts:251-385 | the same sync with created rows used: Ok exactly when every guard passes and both rows are found or created, with the same report into them |
| SplitwiseClient.AsWrittenAgreesWhenFound | src/integrations/splitwise/client.ts:288-337 | when both rows are found, the code as written and the intended code send the rows to the same place |
| SplitwiseClient.StatusError | src/integrations/splitwise/client.ts:410-420 | 401 and 403 get their own messages; any other status is reported with its text |
| CreateExpense.UserCount | supabase/functions/create_expense/index.ts:56-57 | the users are indices 0, 1, 2, ... up to the first missing `users__<i>__user_id`; every earlier index is present |
| CreateExpense.FirstBad | supabase/functions/create_expense/index.ts:59-68 | the first user with a share that does not read as a number, and no earlier user has one |
| CreateExpense.CollectOne | supabase/functions/create_expense/index.ts:58-73 | one user's entry: fails exactly when a present share is unreadable (paid share checked first), otherwise both present shares rounded and written back |
| CreateExpense.CollectShares | supabase/functions/create_expense/index.ts:54-75 | fails exactly when some user below the count has an unreadable share, with the first such user's message; otherwise the entries of all users in order and the body with every share rewritten |
| CreateExpense.RewriteFrame | supabase/functions/create_expense/index.ts:70 | rewriting shares keeps the body's keys and leaves later users' shares untouched |
| CreateExpense.RewriteAt | supabase/functions/create_expense/index.ts:62-70 | every present share of a collected user is its rounded value written as a string |
| CreateExpense.FirstBadStays | supabase/functions/create_expense/index.ts:57-75 | once an unreadable share is found, further users do not change which user is reported |
| CreateExpense.LastPositive | supabase/functions/create_expense/index.ts:88-89 | the backward search finds the highest index whose owed share is positive, or none when there is none |
| CreateExpense.Reconcile | supabase/functions/create_expense/index.ts:84-96 | the loops compute exactly the reconciliation: which share is rewritten and the shares afterwards |
| CreateExpense.ReconciledSums | supabase/functions/create_expense/index.ts:84-96 | afterwards the owed shares add up to the cost unless no owed share was positive; only the adjusted user's owed share changes and no paid share changes |
| CreateExpense.SumOwedUpdate | supabase/functions/create_expense/index.ts:85-90 | replacing one entry changes the owed total by the difference of its owed shares |
| CreateExpense.UserKeyInjective | supabase/functions/create_expense/index.ts:57 | different user indices give different `user_id` keys |
| CreateExpense.ShareKeyInjective | supabase/functions/create_expense/index.ts:60 | share keys of different users or share types differ |
| CreateExpense.ShareKeyNotUserKey | supabase/functions/create_expense/index.ts:57-60 | a share key is never a `user_id` key |
| CreateExpense.PayloadShares | supabase/functions/create_expense/index.ts:84-118 | in an accepted request the payload carries, for every user with an owed share, the reconciled amount |
| CreateExpense.PayloadUsers | supabase/functions/create_expense/index.ts:114-118 | every `users__*` entry of the final body reaches the payload unchanged |
| CreateExpense.ExpectedOk | supabase/functions/create_expense/index.ts:37-118 | an accepted request read every share and its payload is built from the final body |
| CreateExpense.FinalizeAt | supabase/functions/create_expense/index.ts:62-92 | in the final body every user's owed share is the reconciled amount |
| CreateExpense.BuildPayload | supabase/functions/create_expense/index.ts:37-118 | the checks from the required fields to the payload give exactly the validation pipeline's answer: the first failing check's message, or the payload of the reconciled body |
| CreateExpense.Handle | supabase/functions/create_expense/index.ts:4-142 | missing token or key gives 401 before any request; a body that is not JSON gives 400; a JSON `null` body throws at the first field read and gets the runtime's 500 with nothing sent; a missing field, an unreadable cost or share, or no user gives 400 with the first failing check's message; otherwise exactly the expected payload is sent, and the upstream answer maps to 200 or to 500 with its message |
| JsText.TrimEmptyIffAllWhite | src/pages/AddExpense.tsx:86 | `trim()` gives the empty string exactly when every character is ECMAScript white space (tab, vertical tab, form feed, BOM, every Unicode space separator) or a line terminator |
| JsText.TrimIdeographicFrame | src/pages/AddExpense.tsx:86 | `trim()` strips ideographic spaces (U+3000) on both sides of a text |
| JsText.JoinSplit | src/lib/utils.ts:28 | `split` loses nothing: joining the fields with the separator gives the text back |
| JsText.ParseIntOfString | src/integrations/splitwise/client.ts:347 | `parseInt` reads back every integer `String` prints |
| JsText.NatToStringInjective | supabase/functions/create_expense/index.ts:57 | different numbers print differently |
| StoreModel.Persist | src/lib/store/index.ts:59-63 | only the initialized flag, the theme and the savings goals are persisted |
| StoreModel.PersistRestore | src/lib/store/index.ts:57-63 | persisting a restored store gives the same saved data, and a restored store starts without expenses or budgets |
| StoreModel.Remove | src/lib/store/expenseActions.ts:163 | the survivors are elements of the list without the id, and every element without the id survives |
| StoreModel.RemoveKeepsOthers | src/lib/store/expenseActions.ts:163 | removing an id keeps every other element as often as it occurred |
| StoreModel.RemoveAppend | src/lib/store/budgetActions.ts:75 | removal works piecewise, so survivors keep their order |
| StoreModel.RemoveAbsent | src/lib/store/savingsGoalActions.ts:81 | removing an id nobody has changes nothing |
| StoreModel.RemoveIds | src/lib/store/expenseActions/updateDeleteExpense.ts:101 | the survivors are elements of the list whose ids are not in the set, and every such element survives |
| StoreModel.RemoveIdsAppend | src/lib/store/expenseActions/updateDeleteExpense.ts:101 | bulk removal works piecewise |
| StoreModel.RemoveNoIds | src/lib/store/expenseActions/updateDeleteExpense.ts:101 | removing no ids changes nothing |
| StoreModel.RemoveIdsTwice | src/lib/store/categoryActions.ts:132-150 | two removals are one removal of both sets |
| StoreModel.RemoveIsRemoveIds | src/lib/store/expenseActions/updateDeleteExpense.ts:96-102 | removing one id is the bulk removal of the set holding it |
| StoreModel.IdsOf | src/lib/store/expenseActions/updateDeleteExpense.ts:96 | an id is in the set exactly when some element has it |
| StoreModel.IdsOfSnoc | src/lib/store/categoryActions.ts:138-147 | one more element adds its id |
| StoreModel.IdsWhere | src/lib/store/categoryActions.ts:138 | an id is in the set exactly when some element with the key value has it |
| StoreModel.FilterByIds | src/lib/store/categoryActions.ts:138 | the ids of the filtered list are the ids of the elements with the key value |
| StoreModel.RemoveWhere | src/lib/store/categoryActions.ts:132-150 | removing, after an earlier removal, the ids of the remaining elements with a key value is one removal of both sets |
| StoreModel.TakeIds | src/lib/store/expenseActions/updateDeleteExpense.ts:96 | the taken elements are elements of the list with ids in the set, and every such element is taken |
| StoreModel.TakeRemoveSplit | src/lib/store/expenseActions/updateDeleteExpense.ts:96-101 | what a bulk delete takes and what it leaves are together the whole list, as a multiset |
| StoreModel.FilterBy | src/lib/store/budgetActions.ts:86 | the kept elements have the key value, and every element with it is kept |
| StoreModel.FilterByAppend | src/lib/store/budgetActions.ts:86 | filtering works piecewise, so order is kept |
| StoreModel.FilterByTwice | src/lib/store/categoryActions.ts:132-163 | filtering twice by one key is filtering once by that value, or nothing for two values |
| StoreModel.Replace | src/lib/store/expenseActions.ts:145 | the list keeps its length; elements with the id become the new value and the others stay |
| StoreModel.ReplaceThenRemove | src/lib/store/budgetActions.ts:58-75 | removing after replacing an id is removing it from the original list |
| StoreModel.ReplaceAbsent | src/lib/store/savingsGoalActions.ts:64 | replacing an id nobody has changes nothing |
| StoreModel.Find | src/lib/store/expenseActions/updateDeleteExpense.ts:48 | finds something exactly when an element has the id, and what it finds is such an element |
| StoreModel.FindIsFirst | src/lib/store/expenseActions/updateDeleteExpense.ts:48 | what is found is the first element with the id |
| StoreRecords.ToCategory | src/lib/store/utils.ts:7-12 | the category keeps the row's id, name, type and icon |
| StoreRecords.ToSubcategory | src/lib/store/utils.ts:14-18 | `category_id` becomes the parent id; id and name are kept |
| StoreRecords.RecurringOf | src/lib/store/utils.ts:30-39 | no recurrence for missing or empty data; JSON text gives what it parses to (nothing when parsing fails); an object is taken as it is |
| StoreRecords.ToExpense | src/lib/store/utils.ts:20-42 | the expense keeps the row's id, amount, description, date and ids, with the recurrence read from its data |
| StoreRecords.ToBudget | src/lib/store/utils.ts:44-49 | the budget keeps id, amount, month text and category |
| StoreRecords.ToSavingsGoal | src/lib/store/utils.ts:51-59 | no due date exactly for a missing or empty one, otherwise its instant; other fields kept |
| StoreRecords.ExpenseRoundTrip | src/lib/store/utils.ts:20-42 | reading an expense back from the row it was stored as loses nothing |
| KeyedTotals.Keys | src/lib/store/expenseActions.ts:208 | the keys of a record are its entries' keys, in order |
| KeyedTotals.IndexOf | src/lib/store/expenseActions.ts:203 | the position found holds the key, and no position holds it when none is found |
| KeyedTotals.AddTo | src/lib/store/expenseActions.ts:203 | adding to a new key appends it last; adding to an existing key keeps the key order; keys stay distinct |
| KeyedTotals.Assign | src/lib/store/budgetActions.ts:90 | setting a new key appends the entry; setting an existing key replaces its value in place; keys stay distinct |
| KeyedTotals.Get | src/lib/store/budgetActions.ts:115 | a value is found exactly for the keys of the record |
| KeyedTotals.AssignGet | src/lib/store/budgetActions.ts:89-91 | after setting one key, reading it gives the new value and every other key reads as before |
| KeyedTotals.AddToLookup | src/lib/store/expenseActions.ts:203 | adding to one key changes that key's total by the amount and no other total |
| KeyedTotals.SumTotalsUpdate | src/lib/store/expenseActions.ts:203 | replacing one entry changes the sum of the totals by the difference |
| KeyedTotals.Tally | src/lib/store/expenseActions.ts:201-205 | tallying a list gives a record with distinct keys |
| KeyedTotals.TallyLookup | src/lib/store/expenseActions.ts:201-205 | each key's total is the sum over the elements with that key |
| KeyedTotals.AddToSum | src/lib/store/expenseActions.ts:203 | adding to a key adds the amount to the sum of all totals |
| KeyedTotals.TallySum | src/lib/store/expenseActions.ts:198-205 | the totals per key add up to the sum over the whole list |
| KeyedTotals.HasKeySplit | src/lib/store/budgetActions.ts:102-107 | an element with the key is among the first ones or is the last one |
| KeyedTotals.AddToKeys | src/lib/store/budgetActions.ts:103-106 | after adding to a key, the keys are the old ones and that key |
| KeyedTotals.TallyKeys | src/lib/store/budgetActions.ts:102-107 | a key has a total exactly when some element has that key |
| KeyedTotals.DistinctCount | src/lib/store/expenseActions.ts:208 | in a record each key occurs once |
| KeyedTotals.IndexOfDistinct | src/lib/store/expenseActions.ts:208 | looking up a record's own key finds its own position |
| StableSort.Insert | src/lib/store/expenseActions.ts:219 | inserting keeps all the elements and adds one |
| StableSort.SortDesc | src/lib/store/expenseActions.ts:219 | the sort keeps the length |
| StableSort.InsertPermutes | src/lib/store/expenseActions.ts:219 | inserting adds exactly the new element to the multiset |
| StableSort.InsertSorted | src/lib/store/expenseActions.ts:219 | inserting into a list sorted from the largest key down keeps it sorted |
| StableSort.SortDescCorrect | src/lib/store/expenseActions.ts:219 | the sort is a permutation of its input and runs from the largest key down |
| StableSort.SortDescSorted | src/lib/store/expenseActions.ts:219 | a list already in order is left exactly as it is, as a stable sort does |
| StableSort.Project | src/lib/store/expenseActions.ts:208 | mapping keeps the length and maps each element at its position |
| StableSort.InsertProjects | src/lib/store/expenseActions.ts:219 | inserting permutes any projection of the elements |
| StableSort.SortProjects | src/lib/store/expenseActions.ts:208-219 | sorting permutes any projection of the elements, such as their ids |
| StableSort.InsertKeepsSum | src/lib/store/expenseActions.ts:219 | inserting adds the new key to the sum of the keys |
| StableSort.SortKeepsSum | src/lib/store/expenseActions.ts:198-219 | sorting does not change the sum of the keys |
| Statistics.MonthlyExpenses | src/lib/store/expenseActions.ts:173-191 | the result holds every expense whose local month prints as the month, and only such expenses |
| Statistics.InMonthIff | src/lib/store/expenseActions.ts:184-185 | for years 1 to 9999 an expense is in the month exactly when the month text parses to the expense's month |
| Statistics.CategoryTotals | src/lib/store/expenseActions.ts:201-205 | the totals have one entry per category id |
| Statistics.ColorOf | src/lib/store/expenseActions.ts:214-217 | food is green, home blue, car red, groceries yellow and anything else purple |
| Statistics.Describe | src/lib/store/expenseActions.ts:208-218 | an entry keeps the id and total; it takes the name and colour of the first category with the id, or 'Unknown' and purple |
| Statistics.DescribeAll | src/lib/store/expenseActions.ts:208-218 | every total is described at its own position |
| Statistics.StatisticsSorted | src/lib/store/expenseActions.ts:193-222 | the total amount is the sum of the breakdown, and the breakdown runs from the largest total down |
| Statistics.DescribeSum | src/lib/store/expenseActions.ts:208-218 | describing the totals keeps their sum |
| Statistics.StatisticsPerCategory | src/lib/store/expenseActions.ts:193-222 | every category with spending in the month appears exactly once in the breakdown, and no other id appears |
| Statistics.StatisticsTotals | src/lib/store/expenseActions.ts:193-222 | each entry of the breakdown carries exactly what was spent in its category that month |
| ExpenseActions.FetchExpenses | src/lib/store/expenseActions.ts:8-39 | rows returned are converted in the database's order and become the store's list; an error or a missing result returns nothing and leaves the store alone |
| ExpenseActions.FetchRoundTrip | src/lib/store/expenseActions.ts:20-32 | fetching the rows the expenses were stored as gives back the same expenses in the same order |
| ExpenseActions.RecurringJson | src/lib/store/expenseActions.ts:47-49 | the recurrence is written as a JSON object |
| ExpenseActions.InsertOf | src/lib/store/expenseActions.ts:53-61 | the insert carries the signed-in user's id, and `recurring_data` is null exactly when the draft has no recurrence |
| ExpenseActions.InsertReadBack | src/lib/store/expenseActions.ts:47-68 | the row stored for an insert reads back as the draft itself with the new id, recurrence included |
| ExpenseActions.AddExpense | src/lib/store/expenseActions.ts:41-79 | without a user it throws the login message and sends nothing; otherwise it sends the insert; it throws exactly when no user is signed in or the insert fails; a returned row becomes the first expense, and nothing else changes |
| ExpenseActions.CopyShape | src/lib/store/expenseActions/recurringExpenses.ts:22-33 | copy `i` falls `i` months after the draft at the same time of day, keeps every other field, and only the first copy takes its own month as start month |
| ExpenseActions.CopiesInDistinctMonths | src/lib/store/expenseActions/recurringExpenses.ts:21-22 | no two copies of a series fall in the same month |
| ExpenseActions.Reversed | src/lib/store/expenseActions.ts:70 | reversing keeps the length |
| ExpenseActions.ReversedAppend | src/lib/store/expenseActions.ts:70 | putting one more element first extends the newest-first list |
| ExpenseActions.Copies | src/lib/store/expenseActions/recurringExpenses.ts:16-21 | a series has exactly `months` copies |
| ExpenseActions.CopiesAt | src/lib/store/expenseActions/recurringExpenses.ts:21-33 | copy `i` of the series is the draft moved `i` months on |
| ExpenseActions.CallIsAddExpense | src/lib/store/expenseActions/recurringExpenses.ts:35-36 | one call of the loop is one `addExpense`: its insert is sent, its store kept, its expense collected when returned, its error recorded |
| ExpenseActions.FinishSeries | src/lib/store/expenseActions/recurringExpenses.ts:21-37 | running the rest of the calls after the first `n` gives the whole series |
| ExpenseActions.FinishStopped | src/lib/store/expenseActions/recurringExpenses.ts:40-42 | once a call has thrown, no further call is made |
| ExpenseActions.RunStops | src/lib/store/expenseActions/recurringExpenses.ts:40-42 | after a call throws, the series stays as it was |
| ExpenseActions.AddCopies | src/lib/store/expenseActions/recurringExpenses.ts:17-42 | the loop sends the inserts, leaves the store and returns or throws exactly as the series of `addExpense` calls does |
| ExpenseActions.AddSeries | src/lib/store/expenseActions/recurringExpenses.ts:16-39 | a monthly series adds the copies month by month |
| ExpenseActions.Extend | src/lib/store/expenseActions.ts:51-63 | a call adds one insert when a user is signed in and none otherwise, after the earlier ones |
| ExpenseActions.SeriesRunCount | src/lib/store/expenseActions/recurringExpenses.ts:35 | each call adds one insert exactly when the series has not thrown and a user is signed in |
| ExpenseActions.SeriesRunError | src/lib/store/expenseActions/recurringExpenses.ts:35 | the series has thrown after a call exactly when it had before or this call fails |
| ExpenseActions.CountNext | src/lib/store/expenseActions/recurringExpenses.ts:35 | one call sends at most one insert, and exactly one when it does not throw |
| ExpenseActions.SeriesRequestCount | src/lib/store/expenseActions/recurringExpenses.ts:21-37 | a series sends at most one insert per month, and exactly one per month when it does not throw |
| ExpenseActions.SeriesInserts | src/lib/store/expenseActions/recurringExpenses.ts:21-35 | the expected inserts number one per call |
| ExpenseActions.RequestsClose | src/lib/store/expenseActions/recurringExpenses.ts:21-35 | one more call keeps the inserts in month order |
| ExpenseActions.InOrderNext | src/lib/store/expenseActions/recurringExpenses.ts:21-35 | one more call keeps the inserts in month order |
| ExpenseActions.SeriesRequests | src/lib/store/expenseActions/recurringExpenses.ts:21-35 | the `j`-th insert of a series is copy `j`'s, for the user signed in at call `j` |
| ExpenseActions.SignedNext | src/lib/store/expenseActions.ts:43-44 | a call sends an insert only for a signed-in user |
| ExpenseActions.SeriesRunSigned | src/lib/store/expenseActions.ts:43-44 | the calls so far sent inserts only for signed-in users |
| ExpenseActions.SeriesRequestsSigned | src/lib/store/expenseActions/recurringExpenses.ts:21-35 | every insert of a series was sent while a user was signed in |
| ExpenseActions.SeriesSucceeds | src/lib/store/expenseActions/recurringExpenses.ts:21-43 | a series throws exactly when one of its calls has nobody signed in or an insert error |
| ExpenseActions.FirstFailing | src/lib/store/expenseActions/recurringExpenses.ts:21-43 | among the calls that fail there is a first one |
| ExpenseActions.RunToFirstFailure | src/lib/store/expenseActions/recurringExpenses.ts:21-43 | the series up to the first failing call has thrown, after one insert per earlier call and one more if a user was signed in |
| ExpenseActions.SeriesFirstFailure | src/lib/store/expenseActions/recurringExpenses.ts:21-43 | a series that threw stopped at its first failing call: the calls before it all went through, and it sent its insert only if a user was signed in |
| ExpenseActions.Collected | src/lib/store/expenseActions/recurringExpenses.ts:35-36 | a call collects at most one expense |
| ExpenseActions.PrependStep | src/lib/store/expenseActions.ts:69-71 | putting the new expense first keeps the list newest first before the old list |
| ExpenseActions.StoreNext | src/lib/store/expenseActions.ts:69-71 | after each call the store's list is the collected expenses, newest first, before the old list |
| ExpenseActions.SeriesStore | src/lib/store/expenseActions/recurringExpenses.ts:21-37 | after a series the store's list is the added expenses, newest first, before the old list, and nothing else in the store changes |
| ExpenseActions.Added | src/lib/store/expenseActions/recurringExpenses.ts:36 | a series of `n` calls collects at most `n` expenses |
| ExpenseActions.SeriesResults | src/lib/store/expenseActions/recurringExpenses.ts:35-39 | a series that does not throw returns the expense of every returned row, in month order |
| ExpenseActions.SeriesRunResults | src/lib/store/expenseActions/recurringExpenses.ts:36 | a call that does not throw collects the expense of its returned row, if any |
| ExpenseActions.NextResults | src/lib/store/expenseActions/recurringExpenses.ts:36 | a call that does not throw follows calls that did not throw, and collects the expense of its returned row, if any |
| ExpenseActions.AddRecurringExpense | src/lib/store/expenseActions/recurringExpenses.ts:8-44 | without a monthly recurrence the draft is added once and a returned expense is wrapped in a list; otherwise the whole series is added; an error is re-thrown |
| ExpenseActions.DbUpdates | src/lib/store/expenseActions.ts:122-131 | every field that is set becomes its column; a recurrence set to nothing becomes null |
| ExpenseActions.UpdateReadBack | src/lib/store/expenseActions.ts:122-143 | applying the update to an expense's row and reading it back changes exactly the fields that were set |
| ExpenseActions.UpdateExpense | src/lib/store/expenseActions.ts:119-154 | the update is sent; an error is re-thrown and changes nothing; a returned row replaces every expense with the id |
| ExpenseActions.UpdateKeepsOthers | src/lib/store/expenseActions.ts:144-146 | an update keeps the number of expenses and leaves every expense with another id where it was |
| ExpenseActions.DeleteExpense | src/lib/store/expenseActions.ts:156-171 | the delete is sent; an error is re-thrown and changes nothing; otherwise every expense with the id leaves the list |
| ExpenseActions.DeleteRemovesOnlyId | src/lib/store/expenseActions.ts:162-164 | after a delete no expense has the id, and every other expense is there as often as before |
| ExpenseActions.AddThenDelete | src/lib/store/expenseActions.ts:162-164 | deleting an expense just added, under a new id, gives back the store as it was |
| OptimisticDelete.IdSet | src/lib/store/expenseActions/updateDeleteExpense.ts:96 | an id is in the set exactly when it is listed |
| OptimisticDelete.PendingDelete.constructor | src/lib/store/expenseActions/updateDeleteExpense.ts:48-56 | a delete in flight starts with its snapshots, its request and the undo flag down |
| OptimisticDelete.PendingDelete.Undo | src/lib/store/expenseActions/updateDeleteExpense.ts:62-68 | the undo raises the flag and puts the snapshots back, the list sorted by date, latest first |
| OptimisticDelete.PendingDelete.Fire | src/lib/store/expenseActions/updateDeleteExpense.ts:73-86 | after an undo the timer does nothing; otherwise it sends the delete, and a failure appends the snapshots again, unsorted |
| OptimisticDelete.DeleteExpense | src/lib/store/expenseActions/updateDeleteExpense.ts:45-91 | an unknown id changes nothing; otherwise the first expense with the id is the snapshot and every expense with the id leaves the list at once |
| OptimisticDelete.BulkDeleteExpenses | src/lib/store/expenseActions/updateDeleteExpense.ts:93-139 | when no expense is listed nothing changes; otherwise every listed expense is a snapshot and leaves the list at once |
| OptimisticDelete.BulkUndoRestores | src/lib/store/expenseActions/updateDeleteExpense.ts:96-116 | undoing a bulk delete at once gives back exactly the expenses the list had, sorted by date, latest first |
| OptimisticDelete.BulkFailureRestores | src/lib/store/expenseActions/updateDeleteExpense.ts:96-130 | a bulk delete whose commit fails gives back exactly the expenses the list had |
| OptimisticDelete.SnapshotIsTaken | src/lib/store/expenseActions/updateDeleteExpense.ts:48-53 | when one expense has the id, the snapshot is that expense |
| OptimisticDelete.UndoRestores | src/lib/store/expenseActions/updateDeleteExpense.ts:48-68 | when one expense has the id, undoing at once gives back exactly the expenses the list had, sorted by date, latest first |
| OptimisticDelete.UndoLosesDuplicates | src/lib/store/expenseActions/updateDeleteExpense.ts:48-68 | with two expenses under one id, the delete takes both but the undo puts back only the first |
| OptimisticDelete.Recategorized | src/lib/store/expenseActions/updateDeleteExpense.ts:150-154 | every listed expense takes the new category and subcategory and nothing else changes |
| OptimisticDelete.BulkUpdateCategory | src/lib/store/expenseActions/updateDeleteExpense.ts:141-161 | the rows are updated first; an error is re-thrown and changes nothing; otherwise the listed expenses are re-categorised |
| OptimisticDelete.RecategorizedKeepsOthers | src/lib/store/expenseActions/updateDeleteExpense.ts:150-154 | the unlisted expenses are left exactly as they were, and no expense changes its id or place |
| OptimisticDelete.RecategorizedTwice | src/lib/store/expenseActions/updateDeleteExpense.ts:150-154 | re-categorising twice is re-categorising once with the second category |
| BudgetActions.BudgetInsertOf | src/lib/store/budgetActions.ts:14-19 | the insert carries the draft's amount, month and category and the user's id |
| BudgetActions.BudgetInsertReadBack | src/lib/store/budgetActions.ts:14-26 | inserting a draft and reading the row back gives the draft's fields under the new id |
| BudgetActions.AddBudget | src/lib/store/budgetActions.ts:7-36 | the call never throws; without a user nothing is sent and nothing changes; the store changes only when a row comes back, which is appended to the list |
| BudgetActions.BudgetDbUpdates | src/lib/store/budgetActions.ts:40-44 | every field that is set becomes its column |
| BudgetActions.BudgetUpdateReadBack | src/lib/store/budgetActions.ts:40-56 | applying the update to a budget's row and reading it back changes exactly the fields that were set |
| BudgetActions.UpdateBudget | src/lib/store/budgetActions.ts:38-66 | the update is sent and the call never throws; without a returned row nothing changes; a returned row replaces every budget with the id |
| BudgetActions.UpdateBudgetKeepsOthers | src/lib/store/budgetActions.ts:57-59 | an update keeps the number of budgets and leaves every budget with another id where it was |
| BudgetActions.DeleteBudget | src/lib/store/budgetActions.ts:68-83 | the delete is sent; an error is re-thrown and changes nothing; otherwise every budget with the id leaves the list |
| BudgetActions.AddThenDeleteBudget | src/lib/store/budgetActions.ts:74-76 | deleting a budget just added, under a new id, gives back the store as it was |
| BudgetActions.BudgetIndex | src/lib/store/budgetActions.ts:87-91 | the record holds each category once |
| BudgetActions.LastForFound | src/lib/store/budgetActions.ts:89-91 | a category has a last budget exactly when some budget is for it |
| BudgetActions.LastForIsLast | src/lib/store/budgetActions.ts:89-91 | the last budget for a category is a budget for it that no later budget for it follows |
| BudgetActions.BudgetIndexGet | src/lib/store/budgetActions.ts:87-91 | under each category the record holds the last budget for it, and nothing under a category without one |
| BudgetActions.GetBudgetByMonth | src/lib/store/budgetActions.ts:85-94 | the loop builds the record of the month's budgets, each stored under its category in turn |
| BudgetActions.BudgetsOfMonthLatest | src/lib/store/budgetActions.ts:85-94 | a category has an entry in the month's record exactly when the month has a budget for it, and the entry is one of the month's budgets for that category |
| BudgetActions.Percentage | src/lib/store/budgetActions.ts:116-122 | the percentage never exceeds 100 |
| BudgetActions.PercentageMeaning | src/lib/store/budgetActions.ts:116-122 | the percentage is 0 without a positive budget, 100 once the budget is spent, and otherwise the share of the budget spent |
| BudgetActions.Budgeted | src/lib/store/budgetActions.ts:113-124 | one row per entry of the record, in its order, with the entry's category and budget amount |
| BudgetActions.SpentInMonth | src/lib/store/budgetActions.ts:98-107 | the month's totals have one entry per category |
| BudgetActions.SumByCategory | src/lib/store/budgetActions.ts:101-107 | the loop adds each expense's amount to its category's total, a new category starting at 0 |
| BudgetActions.PushRows | src/lib/store/budgetActions.ts:110-138 | the loops push a row per entry of the record, then a row per total whose category has no entry |
| BudgetActions.GetBudgetProgress | src/lib/store/budgetActions.ts:96-139 | the rows are those of the month's record and the month's totals |
| BudgetActions.Categories | src/lib/store/budgetActions.ts:119-130 | the categories of the rows, in order |
| BudgetActions.UnbudgetedFacts | src/lib/store/budgetActions.ts:127-136 | every row without a budget is for a category with a total and no entry, shows that total and reads 100% used |
| BudgetActions.UnbudgetedDistinct | src/lib/store/budgetActions.ts:127-136 | no category has two rows without a budget |
| BudgetActions.UnbudgetedCategories | src/lib/store/budgetActions.ts:127-136 | a category has a row without a budget exactly when it has a total and no entry |
| BudgetActions.RowsSpent | src/lib/store/budgetActions.ts:115-132 | each row shows its category's total and no percentage exceeds 100 |
| BudgetActions.RowsBudgeted | src/lib/store/budgetActions.ts:113-124 | the record's rows come first, each with the record's budget |
| BudgetActions.RowsUnbudgeted | src/lib/store/budgetActions.ts:127-136 | the rows after the record's have no entry, no budget and read 100% used |
| BudgetActions.RowsShape | src/lib/store/budgetActions.ts:110-138 | the budgeted rows come first with the record's budget, and the rest have no entry and read 100% used |
| BudgetActions.RowsDistinct | src/lib/store/budgetActions.ts:110-138 | no category has two rows |
| BudgetActions.CategoriesAppend | src/lib/store/budgetActions.ts:110-138 | the categories of two runs of rows, one after the other |
| BudgetActions.BudgetedCategories | src/lib/store/budgetActions.ts:113-124 | the budgeted rows are for the record's categories, in its order |
| BudgetActions.RowsCover | src/lib/store/budgetActions.ts:110-138 | a category has a row exactly when it has an entry or a total |
| BudgetActions.BudgetProgressRows | src/lib/store/budgetActions.ts:96-139 | each row shows what was spent in its category that month, no percentage exceeds 100, no category comes twice, the budgeted rows come first with the month's budget for the category, and the rest have none and read 100% used |
| BudgetActions.BudgetProgressCovers | src/lib/store/budgetActions.ts:96-139 | a category has a row exactly when the month has a budget for it or an expense in it |
| CategoryActions.CreateReadBack | src/lib/store/categoryActions.ts:14-56 | inserting a category or subcategory draft and reading the row back gives the draft's fields under the new id |
| CategoryActions.CreateCategory | src/lib/store/categoryActions.ts:7-36 | the call never throws; without a user nothing is sent and nothing changes; the store changes only when a row comes back, which is appended to the categories |
| CategoryActions.CreateSubCategory | src/lib/store/categoryActions.ts:38-66 | the same for subcategories |
| CategoryActions.Truthy | src/lib/store/categoryActions.ts:72-74 | a field is forwarded exactly when it is set and not empty, and then unchanged |
| CategoryActions.CategoryDbUpdates | src/lib/store/categoryActions.ts:71-75 | the update carries the truthy name, type and icon of the patch |
| CategoryActions.CategoryUpdateReadBack | src/lib/store/categoryActions.ts:71-87 | applying the update and reading the row back keeps the id and changes exactly the fields given a non-empty value; an empty name is not sent |
| CategoryActions.UpdateCategory | src/lib/store/categoryActions.ts:68-97 | the update is sent and the call never throws; without a returned row nothing changes; a returned row replaces every category with the id |
| CategoryActions.UpdateCategoryKeepsOthers | src/lib/store/categoryActions.ts:88-90 | an update keeps the number of categories and leaves every category with another id where it was |
| CategoryActions.SubcategoryDbUpdates | src/lib/store/categoryActions.ts:102-105 | the update carries the truthy name and parent of the patch |
| CategoryActions.SubcategoryUpdateReadBack | src/lib/store/categoryActions.ts:102-117 | applying the update and reading the row back keeps the id and changes exactly the fields given a non-empty value |
| CategoryActions.UpdateSubCategory | src/lib/store/categoryActions.ts:99-127 | the update is sent and the call never throws; without a returned row nothing changes; a returned row replaces every subcategory with the id |
| CategoryActions.AppliedAppend | src/lib/store/categoryActions.ts:129-183 | applying two runs of delete requests one after the other is applying them together |
| CategoryActions.StopsAppend | src/lib/store/categoryActions.ts:129-183 | accepted requests followed by a run that stopped at its first error stop at that error |
| CategoryActions.AcceptedSnoc | src/lib/store/categoryActions.ts:129-183 | one more accepted request keeps every request accepted |
| CategoryActions.AcceptedAppend | src/lib/store/categoryActions.ts:129-183 | a run that ended in a return after accepted requests leaves every request accepted |
| CategoryActions.RemoveOneMore | src/lib/store/categoryActions.ts:139-141 | deleting one more expense by id takes out one more id |
| CategoryActions.AppliedSnoc | src/lib/store/categoryActions.ts:129-183 | one more request acts on the store the earlier ones left |
| CategoryActions.RemoveNextExpense | src/lib/store/categoryActions.ts:164-166 | deleting the next expense takes out the ids deleted so far and its own |
| CategoryActions.AppliedExpenses | src/lib/store/categoryActions.ts:164-166 | expense deletes that were all accepted take exactly their ids out of the list |
| CategoryActions.AcceptedInit | src/lib/store/categoryActions.ts:164-166 | requests all accepted stay so without their last one, which was accepted too |
| CategoryActions.NextRequest | src/lib/store/categoryActions.ts:164-166 | the requests for one more expense are the earlier ones and its delete |
| CategoryActions.DeleteStep | src/lib/store/categoryActions.ts:164-166 | after accepted requests, one more either stops the run at its error or is accepted |
| CategoryActions.DeleteEach | src/lib/store/categoryActions.ts:163-166 | the loop sends one delete per expense in order and stops at the first error; when none fails, exactly those expenses leave the list |
| CategoryActions.DeleteEachStep | src/lib/store/categoryActions.ts:164-166 | one turn of the loop sends the next delete and either stops at its error or takes the expense out |
| CategoryActions.DeleteOwner | src/lib/store/categoryActions.ts:160-183 | the owner's expenses are deleted one by one, then the owner; the run stops at the first error; when none fails, the owner and its expenses are gone |
| CategoryActions.OwnerLast | src/lib/store/categoryActions.ts:169-176 | after the owner's expenses are deleted, its own delete completes the plan, and takes it out when accepted |
| CategoryActions.DeleteSubCategory | src/lib/store/categoryActions.ts:160-183 | the subcategory's expenses one by one, then the subcategory; the run stops at the first error |
| CategoryActions.SubcategoryCascadeClears | src/lib/store/categoryActions.ts:160-183 | after a successful delete no expense is in the subcategory, the subcategory is gone, every other expense stays, and categories and budgets are untouched |
| CategoryActions.IdsUnder | src/lib/store/categoryActions.ts:132-163 | the ids of the expenses in one of the given subcategories |
| CategoryActions.AfterSubcategoriesStep | src/lib/store/categoryActions.ts:133-135 | deleting one more subcategory after the others |
| CategoryActions.ExpensesUnderOneMore | src/lib/store/categoryActions.ts:133-166 | taking out the expenses of one more subcategory takes out those under all of them |
| CategoryActions.IdsUnderOneMore | src/lib/store/categoryActions.ts:133-163 | the expenses under one more subcategory are those under the others and its own |
| CategoryActions.PrefixExtends | src/lib/store/categoryActions.ts:133-135 | a prefix of the requests stays a prefix when more follow |
| CategoryActions.SubcategoryPhasePrefix | src/lib/store/categoryActions.ts:133-135 | the requests for the first subcategories are a prefix of those for all of them |
| CategoryActions.CategoryPhaseClose | src/lib/store/categoryActions.ts:138-151 | the last two phases of a successful category delete bring the store to the cascade's result |
| CategoryActions.PrefixAfter | src/lib/store/categoryActions.ts:133-144 | a prefix after the same start stays a prefix when more follow |
| CategoryActions.AfterSubcategoriesNext | src/lib/store/categoryActions.ts:133-135 | one more subcategory deleted in full moves the phase on |
| CategoryActions.SubcategoryPhaseNext | src/lib/store/categoryActions.ts:133-135 | the requests for one more subcategory follow those for the earlier ones |
| CategoryActions.SubcategoryPhaseStop | src/lib/store/categoryActions.ts:133-135 | requests that stop inside a subcategory's delete are a prefix of the whole phase |
| CategoryActions.DeleteSubcategories | src/lib/store/categoryActions.ts:132-135 | the loop deletes each subcategory with its expenses in turn and stops at the first error; when none fails, all of them and their expenses are gone |
| CategoryActions.DeleteCategory | src/lib/store/categoryActions.ts:129-158 | the subcategories with their expenses, then the category's own expenses, then the category; the run stops at the first error; when none fails, the store is the cascade's result |
| CategoryActions.CategoryCascadeClears | src/lib/store/categoryActions.ts:129-158 | after a successful delete no subcategory belongs to the category, no expense is in it or in one of its subcategories, the category is gone, and budgets and savings goals are untouched |
| CategoryActions.CategoryCascadeKeeps | src/lib/store/categoryActions.ts:129-158 | every expense, subcategory and category outside the cascade stays |
| CategoryActions.CategoryPlanEndsWithCategory | src/lib/store/categoryActions.ts:144 | the last request of a category delete is the category's own |
| CategoryActions.Accepted | src/lib/store/categoryActions.ts:204-210 | the rows the replies returned number at most the replies |
| CategoryActions.CreateCategories | src/lib/store/categoryActions.ts:204-210 | one insert per default category, in order, and every returned row is appended |
| CategoryActions.FetchCategories | src/lib/store/categoryActions.ts:185-233 | a failed or empty query changes nothing; fetched rows replace the categories; an empty list with a user sends the five default inserts, then the refetched rows replace the list |
| CategoryActions.SeedingCreatesDefaults | src/lib/store/categoryActions.ts:200-210 | when every default is created and echoed back, the categories are the five defaults under their new ids |
| CategoryActions.AcceptedEchoPrefix | src/lib/store/categoryActions.ts:204-210 | echoed inserts are collected in order |
| CategoryActions.SubcategoryNames | src/lib/store/categoryActions.ts:259-282 | food, home and car get three default subcategories, any other type one |
| CategoryActions.DefaultsSpelled | src/lib/store/categoryActions.ts:259-282 | the default names of each type, spelled out |
| CategoryActions.PlanStep | src/lib/store/categoryActions.ts:259-283 | one more category adds its defaults at the end |
| CategoryActions.SeedSubcategoryDrafts | src/lib/store/categoryActions.ts:257-283 | the loop collects the defaults of every category, category by category |
| CategoryActions.SeedPlanMembers | src/lib/store/categoryActions.ts:257-283 | a draft is collected exactly when it is a default of one of the categories |
| CategoryActions.SomeCategorySplit | src/lib/store/categoryActions.ts:259 | a category with the draft as a default is among the first ones or is the last |
| CategoryActions.SomeSplit | src/lib/store/categoryActions.ts:259 | an element with a property is among the first ones or is the last |
| CategoryActions.DefaultsForMembers | src/lib/store/categoryActions.ts:259-282 | a draft is a default of a category exactly when it names the category and one of its type's default names |
| CategoryActions.SeedPlanSize | src/lib/store/categoryActions.ts:257-283 | each category gets between one and three defaults |
| CategoryActions.CreateSubcategories | src/lib/store/categoryActions.ts:285 | one insert per default subcategory, in order, and every returned row is appended |
| CategoryActions.FetchSubCategories | src/lib/store/categoryActions.ts:235-308 | a failed or empty query changes nothing; fetched rows replace the subcategories; with no subcategories, some categories and a user, the defaults are inserted in order, then the refetched rows replace the list |
| SavingsGoals.AddReadBack | src/lib/store/savingsGoalActions.ts:14-22 | the row the insert stores (a due date sent as an ISO string) converts back to exactly the goal that was entered, with the new id |
| SavingsGoals.AddSavingsGoal | src/lib/store/savingsGoalActions.ts:7-39 | no user: nothing sent and nothing changed; otherwise one insert with the goal's columns; the list grows by the converted row only when a row came back; a failure never throws (the error handler returns null) |
| SavingsGoals.GoalDbUpdates | src/lib/store/savingsGoalActions.ts:43-50 | the update carries exactly the fields the patch sets, each in its column |
| SavingsGoals.UpdateReadBack | src/lib/store/savingsGoalActions.ts:43-64 | reading back an updated row gives each patched field its new value and keeps every other field and the id |
| SavingsGoals.UpdateSavingsGoal | src/lib/store/savingsGoalActions.ts:41-72 | one update request carrying the patch; with a row back the goal with the id is replaced by it, otherwise the list is unchanged and null is returned |
| SavingsGoals.UpdateKeepsOthers | src/lib/store/savingsGoalActions.ts:64 | the map keeps the length and every goal with another id |
| SavingsGoals.DeleteSavingsGoal | src/lib/store/savingsGoalActions.ts:74-89 | one delete request; an error is re-thrown with the list unchanged; otherwise the goals with the id are filtered out |
| SavingsGoals.DeleteRemovesOnlyId | src/lib/store/savingsGoalActions.ts:81 | after the delete no goal has the id and every other goal is there as often as before |
| Validation.LengthIssues | src/lib/validation.ts:7 | a `.min(lo).max(hi)` string check reports nothing exactly when the length is within bounds, and every issue is about that field |
| Validation.EnumIssues | src/lib/validation.ts:4-24 | an enum check reports nothing exactly when the value is one of the options |
| Validation.ValidateCategory | src/lib/validation.ts:4-10 | a category passes exactly when its name has 1 to 50 characters and its type is one of the five; every issue is about the name or the type |
| Validation.ValidateSubcategory | src/lib/validation.ts:12-15 | a subcategory passes exactly when its name has 1 to 50 characters and the category id is a UUID |
| Validation.ValidateExpense | src/lib/validation.ts:17-28 | an expense passes exactly when the amount is positive, the description has 1 to 200 characters, the category id and any subcategory id are UUIDs, and any recurrence has one of the four frequencies |
| Validation.ValidateBudget | src/lib/validation.ts:30-34 | a budget passes exactly when the amount is positive, the month has the shape four digits, dash, two digits, and the category id is a UUID |
| Validation.BudgetAcceptsMonthThirteen | src/lib/validation.ts:32 | the month pattern lets "2024-13" through although it names no month |
| Validation.ValidateBudgetMonth | src/lib/validation.ts:30-34 | the intended budget check: it passes exactly when the amount is positive, the month text parses to a month 01..12 and the category id is a UUID |
| Validation.BudgetMonthMeaning | src/lib/validation.ts:32 | the intended check accepts every month of years 1 to 9999 in its `yyyy-MM` text, and any text it accepts is its month's own text |
| Validation.ValidateGoal | src/lib/validation.ts:36-41 | a savings goal passes exactly when its name has 1 to 50 characters, the target is positive and the current amount is not negative |
| GetItems.SemicolonFrom | supabase/functions/get_items/index.ts:42 | the first `;` at or after the start position, or the end; none in between |
| GetItems.FirstMatch | supabase/functions/get_items/index.ts:42 | the leftmost position from which `data:` followed by a non-empty run without `;` and then `;` matches, or none when no position matches |
| GetItems.MimeMatch | supabase/functions/get_items/index.ts:42-43 | no group exactly when the pattern matches nowhere; a group is non-empty, has no `;`, and occurs between `data:` and `;` |
| GetItems.MatchSpelled | supabase/functions/get_items/index.ts:42 | a match spells `data:`, its group and `;` at its position |
| GetItems.MimeOfDataPrefix | supabase/functions/get_items/index.ts:42-43 | a prefix `data:<mime>;…` yields exactly that mime type |
| GetItems.NoTagNoMime | supabase/functions/get_items/index.ts:42-43 | without `data:` anywhere there is no mime type, so `image/jpeg` stays |
| GetItems.ParseImage | supabase/functions/get_items/index.ts:36-44 | without a comma the whole image is the payload under `image/jpeg`; with one, the second comma field is the payload and the mime type is the first field's match, or `image/jpeg` |
| GetItems.PayloadBetweenCommas | supabase/functions/get_items/index.ts:39-43 | with a comma the payload is exactly the text between the first and the second comma (or the end), and the mime type comes from the text before the first comma |
| GetItems.NoFenceLeft | supabase/functions/get_items/index.ts:72 | after removing every "```" none remains anywhere |
| GetItems.CleanedHasNoFence | supabase/functions/get_items/index.ts:72 | the cleaned text contains no code fence |
| GetItems.CleanWithoutBackticks | supabase/functions/get_items/index.ts:72 | a text without backticks is only trimmed |
| GetItems.UnwrapsJsonBlock | supabase/functions/get_items/index.ts:72 | a reply wrapped in a "```json … ```" block is unwrapped to its trimmed content |
| GetItems.CleanTrimsIdeographicSpace | supabase/functions/get_items/index.ts:72 | a reply framed by ideographic spaces (U+3000) reaches `JSON.parse` without them |
| GetItems.Handle | supabase/functions/get_items/index.ts:6-84 | OPTIONS gets 200 "ok"; no key: 500; body not JSON: 400; no image: 400, and nothing is sent in these cases; otherwise exactly one request with the parsed payload; a failed or not-ok reply gives 500 with the error text; an ok reply gives 200 with the re-printed JSON of the cleaned text, or 500 with the parse error |
| LegacyStore.DeleteCategory | src/lib/store.ts:219-231 | one delete request; it never throws; on success the categories with the id leave the list, on error nothing changes |
| LegacyStore.DeleteCategoryLeavesChildren | src/lib/store.ts:225-227 | unlike the newer store's cascade, the category's subcategories and expenses stay after its delete |
| LegacyStore.DeleteSubCategory | src/lib/store.ts:233-245 | one delete request; it never throws; on success the subcategories with the id leave the list, on error nothing changes |
| LegacyStore.DeleteExpense | src/lib/store.ts:476-489 | one delete request; it never throws; on success the list is the newer store's delete result, on error unchanged |
| LegacyStore.ToLegacyExpense | src/lib/store.ts:49-56 | a row converts like the newer store's, without a recurrence |
| LegacyStore.FetchExpenses | src/lib/store.ts:380-404 | the newer store's fetch, with every expense's recurrence dropped; the store takes the list only when rows came back |
| LegacyStore.FetchRoundTrip | src/lib/store.ts:380-404 | fetching back the rows of expenses without a recurrence gives the same expenses in the same order |
| LegacyStore.LegacyInsertOf | src/lib/store.ts:412-421 | the insert is the newer store's with no recurrence column |
| LegacyStore.AddExpense | src/lib/store.ts:406-439 | no user: throws before any request; otherwise one insert; an error is re-thrown with the store unchanged; a returned row is converted and put first; no row returns null |
| LegacyStore.AddThenDelete | src/lib/store.ts:482-484 | adding an expense with a fresh id and then deleting that id gives back the store |
| LegacyStore.UpdateDbUpdates | src/lib/store.ts:443-450 | the update carries exactly the patch's amount, description, date, category and subcategory, and no recurrence |
| LegacyStore.UpdateReadBack | src/lib/store.ts:443-463 | the updated row reads back as the patched expense without a recurrence |
| LegacyStore.UpdateExpense | src/lib/store.ts:441-474 | one update request; an error is re-thrown with the store unchanged; no row returns null; a row replaces every expense with the id |
| LegacyStore.MonthlyExpenses | src/lib/store.ts:492-509 | the kept expenses are exactly those of the list whose UTC date starts with the month text |
| LegacyStore.InUtcMonthIff | src/lib/store.ts:502-503 | for years 1 to 9999 the UTC prefix equals the text exactly when the text parses to the UTC month |
| LegacyStore.AtUtcSameAsLocal | src/lib/store.ts:492-509 | with the browser on UTC this filter agrees with the newer store's local-month filter |
| LegacyStore.NearMidnightInPreviousMonth | src/lib/store.ts:502-503 | an expense at 00:30 local time on 1 March, one hour ahead of UTC, is left out of March and counted in February, while the local-month filter puts it in March |
| LegacyStore.MonthlyStatisticsSorted | src/lib/store.ts:511-539 | the total is the sum of the breakdown's totals and the breakdown is sorted by total, largest first |
| LegacyStore.MonthlyStatisticsTotals | src/lib/store.ts:516-523 | each breakdown entry's total is the sum of the month's expenses of its category |
| LegacyStore.MonthlyStatisticsAtUtc | src/lib/store.ts:511-539 | with the browser on UTC the statistics are the newer store's |
| LegacyStore.Persist | src/lib/store.ts:543-547 | only the initialized flag is saved |
| LegacyStore.ReloadKeepsOnlyFlag | src/lib/store.ts:543-547 | a reload keeps the flag and starts with empty lists |

## Left out

- The network, Supabase, Gemini and Splitwise are not called: their answers are parameters of the functions and methods that use them, and each action returns the request it would send.
- `getSplitwiseApiKey` (`supabase/functions/_shared/auth.ts:8-28`) reads a table through the Supabase client; only its outcome (a key or an error message) enters the model, as a parameter.
- Time zones are a fixed offset from UTC: daylight-saving changes within one run are not modelled.
- Floating-point money is modelled as integer cents in the stores and as reals in the validation schemas and the pollers; rounding of JavaScript and Python floats is not modelled.
- The `Invalid Date` branch of `new Date(...)` and years outside 0000..9999 (expanded ISO years) are left out; dates are valid calendar date-times.
- Timers, `setTimeout`, toasts and `console` logging are not modelled; where a toast or timer changes what happens next, it appears as an event in the returned value.
- `initializeStore` and the `Promise.all` of several creates are modelled as the same creates run in order; interleaving of concurrent requests is not modelled.
- In `get_items`, an image value that is not a string, a request body that is JSON `null`, and the CORS headers are not modelled.
- `z.string().uuid()` is modelled as the 8-4-4-4-12 hexadecimal shape; zod's version and variant digit rules and its type-mismatch issues are left out.
- String lengths count characters, not UTF-16 code units; `NaN` amounts are not modelled.
- Database replies are taken as given sequences: `.order('name')` and `.order('date')` are assumed to have been applied by the database.
- `formatCurrency`, `formatDate`, `getCurrentMonth`, `exportToExcel` and `cn` in `src/lib/utils.ts`, and the form's `handleSubmit` in the add-expense component, are presentation code and are not part of this model.
- The poller's conversion of dates to US/Pacific is not modelled (the date text is kept as Splitwise gives it), and its `uuid4` row ids are serial numbers; its insert failures are only printed by the source and are left out.
- The store refresh at the end of a Splitwise sync is not modelled.
- JSON key order in request bodies is not modelled: requests are records.
- `Object.entries` visiting integer-like keys first is not modelled: keyed totals keep first-insertion order for every key.

## Findings

| source | as written | input that shows it | evidently intended | confidence | as-written member | corrected member |
|---|---|---|---|---|---|---|
| src/integrations/splitwise/client.ts:311 | when no misc category exists, the created row's id is assigned to a property of the `null` lookup result, which throws | a sync for a user with no "Splitwise" misc category whose insert succeeds | the created category's id is used for the synced expenses | high, not executed | SplitwiseClient.ResolveAsWritten, SplitwiseClient.CreatedCategoryIsLost, SplitwiseClient.Sync | SplitwiseClient.Resolve, SplitwiseClient.SyncIntended |
| src/integrations/splitwise/client.ts:336 | when the misc category exists but has no subcategory, the created subcategory's id is assigned to a property of the `null` lookup result, which throws | a sync for a user whose misc category has no subcategory and whose subcategory insert succeeds | the created subcategory's id is used for the synced expenses | high, not executed | SplitwiseClient.Destination, SplitwiseClient.CreatedSubcategoryIsLost, SplitwiseClient.Sync | SplitwiseClient.Resolve, SplitwiseClient.SyncIntended |
| src/lib/validation.ts:32 | the budget month is checked against the pattern of four digits, a dash and two digits only | the month "2024-13" (or "2024-00") passes | only months 01 to 12 are accepted | medium, not executed | Validation.BudgetAcceptsMonthThirteen | Validation.ValidateBudgetMonth, Validation.BudgetMonthMeaning |
| src/lib/store.ts:502-503 | the older store files an expense under the UTC month of its date | an expense at 00:30 local time on 1 March 2024 in a zone one hour ahead of UTC is filed under February | the expense is filed under its local month, as the month picker and the newer store do | medium, not executed | LegacyStore.NearMidnightInPreviousMonth | Statistics.MonthlyExpenses, Statistics.InMonthIff |
