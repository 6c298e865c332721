# Budget: a Dafny model of the dashboard rules and server actions

Budget is a personal finance web application. Signed-in users record income,
expenses and savings goals, and see a dashboard that summarises them.
Administrators manage an email whitelist and a list of admin users. Storage,
authentication and the `is_admin` check belong to a hosted backend. The
application's own logic consists of:

- the dashboard summary arithmetic;
- the merged transaction ledger and its newest-first order;
- the recent-transactions card and the filterable transactions list;
- the savings-goal progress bands;
- the server actions: form checks, then the sign-in and admin gates, then one backend write;
- the route guard.

This project models that logic and proves what it promises.

How the system is modelled:

- **Server actions** are pure functions. Each takes the submitted form and the backend's answers as parameters: the signed-in user, whether it is an admin, and each call's failure. It returns a `Run`, made of the reply and the ordered list of backend calls the action makes (`Backend.Call`). "Validation happens before authentication" then has a precise meaning: a refused form gives an empty call list.
- **Client components that keep state** are classes. Their fields are the component's state, and their methods are the event handlers, with `modifies this`. These are `RecentTransactionsView`, `TransactionsListView`, `SavingsGoalsListView` and `WhitelistManagerView`.
- **Numbers** are modelled by kind:
  - Money is `real`.
  - Dates of stored rows are day numbers (`Records.Day`), so "newest first" and "yesterday" are integer order.
  - `parseFloat` is a parameter, `Parser`, that returns `None` for NaN.
  - Percentages that can divide by zero use `JsNumber.Num`, which keeps IEEE 754's Infinity and NaN.
- **Text** follows ECMAScript: `JsText` gives `\s`, `trim`, `startsWith`, `includes` and `split('@')[0]`. `EmailRule` states the regex `^[^\s@]+@[^\s@]+\.[^\s@]+$` and proves it equal to a direct character-level check.

The income and expense actions are the same code over different names. `Entries` writes them once, over a `Table` that carries the table name, the text column, the messages and the page to revalidate.

The overview chart aggregates nothing. `src/app/dashboard/components/overview-chart.tsx:31-76` picks one of four fixed demo arrays by period, so there is nothing to model there.

## Model

| member | source | states |
|---|---|---|
| Dashboard.TotalsAreSums | src/app/dashboard/page.tsx:26-28 | A missing list totals 0, a one-entry list totals that entry's amount, and totals add over concatenation, so each total is the sum of the amounts. Non-negative amounts give a non-negative total. Net savings is additive in the same way. |
| Dashboard.SumOfAppend | src/app/dashboard/page.tsx:26-27 | The `reduce` sum of a concatenation is the sum of the two parts. |
| Dashboard.SumOfNonNegative | src/app/dashboard/page.tsx:26-27 | A sum of non-negative amounts is non-negative. |
| Dashboard.CashFlowLabel | src/app/dashboard/page.tsx:136 | The label is "Positive" exactly when savings are above 0, and "Negative" otherwise, zero included. |
| Dashboard.OverallProgress | src/app/dashboard/page.tsx:31-37 | Progress is 0 when the summed target is at most 0, and never above 100. It is 100 exactly when current reaches target, and below that it is the exact percentage. Non-negative savings never give negative progress. |
| Dashboard.RatioVersusHundred | src/app/dashboard/page.tsx:36 | For a positive target, `c / t * 100 >= 100` holds exactly when `c >= t`. |
| Dashboard.Incomplete | src/app/dashboard/page.tsx:40-42 | The candidates are exactly the goals of the list with current below target. |
| Dashboard.Completed | src/app/dashboard/page.tsx:247 | It keeps every goal with current at least target, only such goals, and only goals of the input. |
| Dashboard.FiltersKeepMultiplicity | src/app/dashboard/page.tsx:247 | Both lists are filters: a complete goal occurs in the completed list exactly as often as in the input and never among the candidates, and the other way round for an incomplete goal. |
| Dashboard.CompletedPlusIncomplete | src/app/dashboard/page.tsx:40-42 | The completed count plus the number of candidates equals the number of goals. |
| Dashboard.IncompletePercentIsOrdered | src/app/dashboard/page.tsx:48 | A candidate's percentage is a number or -Infinity, never NaN or +Infinity, so the loop's comparisons are a total order. |
| Dashboard.FindClosestGoal | src/app/dashboard/page.tsx:44-53 | The loop returns null exactly when no candidate is above 0%. Otherwise it returns a candidate above 0%: strictly above every earlier candidate (ties go to the first) and not exceeded by any later one. |
| Dashboard.FoldCappedBounds | src/app/dashboard/page.tsx:254-255 | For goals with a positive target and non-negative amounts, each step of the `reduce` adds between 0 and 100. |
| Dashboard.AverageWithinBounds | src/app/dashboard/page.tsx:253-257 | For such goals the average progress is a number between 0 and 100. |
| Dashboard.FoldKeepsNaN | src/app/dashboard/page.tsx:254-255 | Once the running sum is NaN it stays NaN. |
| Dashboard.FoldMeetsNaN | src/app/dashboard/page.tsx:254-255 | A single NaN share makes the whole sum NaN. |
| Dashboard.ZeroOverZeroMakesAverageNaN | src/app/dashboard/page.tsx:253-257 | One goal with target 0 and current 0 makes the average NaN. |
| Dashboard.DisplayName | src/app/dashboard/page.tsx:18 | The name is the full name when that is non-empty. Otherwise it is the email's text before the first '@' when that is non-empty, and "User" exactly when there is no such text. It is never empty. |
| Ledger.MapIncomes | src/app/dashboard/transactions/actions/transactions.ts:54-62 | There is one transaction per income row, in order, of kind income, with the source as its description. |
| Ledger.MapExpenses | src/app/dashboard/transactions/actions/transactions.ts:63-71 | There is one transaction per expense row, in order, of kind expense, with the description kept. |
| Ledger.MergeShape | src/app/dashboard/transactions/actions/transactions.ts:54-74 | The merge has as many entries as both row lists together. Income entries come first, each with its id, amount, date and creation time copied. |
| Ledger.InsertNewestFirst | src/app/dashboard/transactions/actions/transactions.ts:74-75 | Insertion into a newest-first list keeps it newest first and adds exactly one element. |
| Ledger.SortNewestFirst | src/app/dashboard/transactions/actions/transactions.ts:74-75 | The sort's output is ordered by date, newest first, and is a permutation of its input. |
| Ledger.SortIsStable | src/app/dashboard/transactions/actions/transactions.ts:74-75 | Entries with the same date keep their input order, as a stable `sort` keeps them. |
| Ledger.InsertKeepsDayOrder | src/app/dashboard/transactions/actions/transactions.ts:74-75 | One insertion keeps the relative order of same-day entries. |
| Ledger.AllTransactions | src/app/dashboard/transactions/actions/transactions.ts:74-75 | The result has as many entries as both lists together, is newest first, and is a permutation of the mapped rows. |
| Ledger.GetTransactions | src/app/dashboard/transactions/actions/transactions.ts:28-83 | Without a user the result is null data with 'Unauthorized'. An error from either table gives null data with that error, never a partial list. Data and error exclude each other. |
| Ledger.GetTransactionsIsComplete | src/app/dashboard/transactions/actions/transactions.ts:54-75 | With both queries answered, the data is the sorted merge of all rows. |
| Ledger.SignedSumSort | src/app/dashboard/transactions/actions/transactions.ts:74-75 | Sorting changes no balance: income minus expenses is the same after the sort. |
| Ledger.LedgerBalance | src/app/dashboard/transactions/actions/transactions.ts:54-75 | The ledger's signed total equals the dashboard's net savings over the same rows. |
| RecentTransactions.Recent | src/app/dashboard/components/recent-transactions.tsx:64-66 | The card keeps min(6, n) entries, and they are a prefix of the newest-first ledger. |
| RecentTransactions.RecentAreNewest | src/app/dashboard/components/recent-transactions.tsx:64-66 | The kept entries are newest first, and no dropped entry is newer than a kept one. |
| RecentTransactions.RecentComeFromRows | src/app/dashboard/components/recent-transactions.tsx:46-61 | Every shown entry is the mapping of a fetched income or expense row. |
| RecentTransactions.DateLabel | src/app/dashboard/components/recent-transactions.tsx:111-131 | The label is "Today" exactly for the current day and "Yesterday" exactly for the day before. Every other date gets a month/day label for that date. |
| RecentTransactions.ShowAmount | src/app/dashboard/components/recent-transactions.tsx:187-188 | The sign is '+' exactly for income and '-' exactly for expenses. The digits are the absolute amount. |
| RecentTransactions.ShownAmountIsSigned | src/app/dashboard/components/recent-transactions.tsx:187-188 | For a non-negative amount, the displayed text reads back as the entry's signed value. |
| RecentTransactions.NegativeIncomeReadsPositive | src/app/dashboard/components/recent-transactions.tsx:187-188 | A negative income shows with '+', so its display reads back as the opposite of its value. |
| RecentTransactions.ViewAllRoute | src/app/dashboard/components/recent-transactions.tsx:196-202 | "View All" goes to the income page exactly when the first entry is income. Otherwise, the empty list included, it goes to expenses. |
| RecentTransactions.ViewAllFollowsNewest | src/app/dashboard/components/recent-transactions.tsx:196-202 | With any rows at all, the route follows the kind of the newest entry. |
| RecentTransactions.RecentTransactionsView.FetchTransactions | src/app/dashboard/components/recent-transactions.tsx:27-73 | Loading always ends. Without a user, or when a read throws, the list is left as it was. Otherwise it becomes the six newest entries of the fetched rows. |
| RecentTransactions.RecentTransactionsView.Render | src/app/dashboard/components/recent-transactions.tsx:79-154 | The card shows the skeleton exactly while loading and the empty message exactly when loading has ended with no entries. Otherwise it lists the state's entries. |
| TransactionsList.Keep | src/app/dashboard/transactions/components/transactions-list.tsx:50-65 | A `filter` keeps exactly the elements that pass, and never more than it was given. |
| TransactionsList.KeepEmbeds | src/app/dashboard/transactions/components/transactions-list.tsx:50-65 | A `filter`'s result sits in its input at strictly increasing positions. |
| TransactionsList.KeepKeep | src/app/dashboard/transactions/components/transactions-list.tsx:50-62 | Two filters in a row are one filter on both tests. |
| TransactionsList.AllAndBlankShowEverything | src/app/dashboard/transactions/components/transactions-list.tsx:50-65 | With filter 'all' and a blank search term the visible list is the input list. |
| TransactionsList.KindFilterIsExact | src/app/dashboard/transactions/components/transactions-list.tsx:53-62 | Every visible row passes the type filter and comes from the input. Every input row passing both the type and the text test is visible. |
| TransactionsList.VisibleIsSubsequence | src/app/dashboard/transactions/components/transactions-list.tsx:50-65 | The visible list is an order-preserving subsequence of the input. |
| TransactionsList.WhitespaceTermIsNoSearch | src/app/dashboard/transactions/components/transactions-list.tsx:58 | A whitespace-only term applies no text filter. |
| TransactionsList.SearchIgnoresTermCase | src/app/dashboard/transactions/components/transactions-list.tsx:59-62 | The search does not depend on the case of the term. |
| TransactionsList.SearchTermIsUntrimmed | src/app/dashboard/transactions/components/transactions-list.tsx:58-62 | The term is lowered but not trimmed: " rent" does not find "rent". |
| TransactionsList.EditRoute | src/app/dashboard/transactions/components/transactions-list.tsx:70-76 | Editing goes to `/dashboard/income?edit=<id>` for income and to `/dashboard/expenses?edit=<id>` for expenses. |
| TransactionsList.RowKeyInjective | src/app/dashboard/transactions/components/transactions-list.tsx:175 | Two rows with the same expansion key have the same kind and id. |
| TransactionsList.Toggled | src/app/dashboard/transactions/components/transactions-list.tsx:78-83 | `toggleRow` flips the given key (absent counts as collapsed) and leaves every other key as it was. |
| TransactionsList.ToggleTwice | src/app/dashboard/transactions/components/transactions-list.tsx:78-83 | Toggling the same key twice restores every row's expansion. |
| TransactionsList.TransactionsListView.ApplyFilters | src/app/dashboard/transactions/components/transactions-list.tsx:49-66 | The step-by-step filter effect leaves exactly the rows `Visible` describes, and changes no other state. |
| TransactionsList.TransactionsListView.SetSearchTerm | src/app/dashboard/transactions/components/transactions-list.tsx:104-108 | Typing stores the term and re-runs the filter effect, so the table shows exactly the rows `Visible` selects for the current filter and the new term. The filter and the expanded rows are unchanged. |
| TransactionsList.TransactionsListView.SetFilterType | src/app/dashboard/transactions/components/transactions-list.tsx:127-145 | A filter button stores its filter and re-runs the filter effect, so the table shows exactly the rows `Visible` selects for the new filter and the current term. The term and the expanded rows are unchanged. |
| TransactionsList.TransactionsListView.ToggleRow | src/app/dashboard/transactions/components/transactions-list.tsx:78-83 | The expanded-rows map becomes the toggled map. The list, the term and the filter are unchanged, so the table still shows what the filter selects. |
| SavingsGoalsList.ProgressIsCapped | src/app/dashboard/savings/components/savings-goals-list.tsx:96-99 | Progress is never +Infinity, and when it is a number it is at most 100. With a positive target it is min(100, current/target·100). |
| SavingsGoalsList.CompletedIff | src/app/dashboard/savings/components/savings-goals-list.tsx:101 | "Completed" holds, for a positive target, exactly when current reaches target. For a zero target it holds exactly when something is saved. For a negative target it holds when current is at or below it. |
| SavingsGoalsList.CloseIff | src/app/dashboard/savings/components/savings-goals-list.tsx:102 | "Close to target" holds, for a positive target, exactly when 80% of the target is at most current and current is below target. A zero target is never close. |
| SavingsGoalsList.BandsAreExclusive | src/app/dashboard/savings/components/savings-goals-list.tsx:101-102 | No goal is both completed and close to target. |
| SavingsGoalsList.ListAgreesWithDashboard | src/app/dashboard/savings/components/savings-goals-list.tsx:101 | For a positive target, the list's "completed" is the dashboard's `current >= target`. |
| SavingsGoalsList.EmptyGoalDisagrees | src/app/dashboard/savings/components/savings-goals-list.tsx:96-101 | A goal with target 0 and current 0 has NaN progress and is neither completed nor close, while the dashboard counts it as completed. |
| SavingsGoalsList.FormatDate | src/app/dashboard/savings/components/savings-goals-list.tsx:64-72 | A missing date is "No target date". Any other date gets its own long form. |
| SavingsGoalsList.DateLine | src/app/dashboard/savings/components/savings-goals-list.tsx:129-134 | A card has a date line exactly when the goal has a target date, so "No target date" never appears on a card. |
| SavingsGoalsList.SavingsGoalsListView.Render | src/app/dashboard/savings/components/savings-goals-list.tsx:74-102 | An empty list renders the empty-state message. Otherwise there is one card per goal, in order, with its capped progress, its bands (never both), its date line, and the buttons disabled while loading. |
| SavingsGoalsList.SavingsGoalsListView.BeginDelete | src/app/dashboard/savings/components/savings-goals-list.tsx:34-40 | Deleting sets loading and sends a form holding just the id. |
| SavingsGoalsList.SavingsGoalsListView.FinishDelete | src/app/dashboard/savings/components/savings-goals-list.tsx:42-51 | After any reply, success or not, the page is refreshed. After an exception it is not. Loading is reset in every case. |
| SavingsGoalsList.SavingsGoalsListView.HandleDelete | src/app/dashboard/savings/components/savings-goals-list.tsx:34-52 | The whole handler sends one delete form and refreshes unless the call threw. Loading ends false. |
| SavingsGoalsList.SavingsGoalsListView.StartEditing | src/app/dashboard/savings/components/savings-goals-list.tsx:138-147 | The edit button opens the dialog on its goal, and does nothing while disabled. |
| SavingsGoalsList.SavingsGoalsListView.EditorOpenChange | src/app/dashboard/savings/components/savings-goals-list.tsx:84-92 | Closing the dialog forgets the goal being edited, and opening it changes nothing. |
| SavingsGoalsList.DeleteFormReachesServer | src/app/dashboard/savings/components/savings-goals-list.tsx:37-40 | The list's delete form passes the server's id check. The server deletes only the caller's row with that id, and succeeds exactly when the delete does not fail. |
| SavingsGoalActions.ReadGoalForm | src/app/dashboard/savings/actions/savings-goals.ts:56-59 | The goal is read from its fields. A missing or empty current amount is parsed from "0". A missing or empty target date is null. |
| SavingsGoalActions.GoalValues | src/app/dashboard/savings/actions/savings-goals.ts:77-85 | The stored columns are the name, the target, the current amount (0 when it is NaN) and the date or null. |
| SavingsGoalActions.AddSucceedsExactly | src/app/dashboard/savings/actions/savings-goals.ts:51-102 | Adding succeeds exactly with a name, a parseable target, a user and a write that does not fail. The calls are then get-user, the caller's insert, and revalidation. |
| SavingsGoalActions.AddChecksBeforeAuth | src/app/dashboard/savings/actions/savings-goals.ts:61-74 | A form with no name or a target that does not parse gets 'Name and target amount are required' with no backend call, whoever is signed in. A complete form with no user gets 'Unauthorized'. |
| SavingsGoalActions.StoredDefaults | src/app/dashboard/savings/actions/savings-goals.ts:58-59 | A missing, empty or unparseable current amount is stored as 0, and a missing or empty date as null. |
| SavingsGoalActions.MissingTargetIsRefused | src/app/dashboard/savings/actions/savings-goals.ts:57-66 | A form without a target amount is refused with 'Name and target amount are required'. |
| SavingsGoalActions.ChangesAreScopedToCaller | src/app/dashboard/savings/actions/savings-goals.ts:134-189 | Update and delete write only through the filter on the given id and the caller's user id, after fetching the user. The update writes exactly the form's goal values. |
| SavingsGoalActions.UpdateSucceedsExactly | src/app/dashboard/savings/actions/savings-goals.ts:107-206 | Update succeeds exactly with an id, a complete form, a user and a write that does not fail. Delete succeeds exactly with an id, a user and a write that does not fail. |
| SavingsGoalActions.UpdateAndDeleteCheckBeforeAuth | src/app/dashboard/savings/actions/savings-goals.ts:118-181 | Update and delete check their fields before fetching the user. |
| SavingsGoalActions.UpdateNeedsId | src/app/dashboard/savings/actions/savings-goals.ts:118-174 | Without an id, update answers 'ID, name, and target amount are required' and delete answers 'Savings goal ID is required'. |
| Entries.ReadEntryForm | src/app/dashboard/expenses/actions/expenses.ts:56-58 | The text, amount and date are read from the table's own field names. |
| Entries.EntryValues | src/app/dashboard/expenses/actions/expenses.ts:76-83 | The stored row is the text, amount and date exactly as submitted. |
| Entries.AddSucceedsExactly | src/app/dashboard/income/actions/income.ts:51-102 | Adding succeeds exactly with text, a parseable amount, a date, a user and a write that does not fail. The inserted row carries the caller's id and the fields unchanged, and both pages are revalidated. |
| Entries.ChecksBeforeAuth | src/app/dashboard/expenses/actions/expenses.ts:60-182 | An incomplete add form gets the add message, and an update with no id or an incomplete form gets the update message, both with no calls. A delete with no id gets the id message. Only then does a missing user give 'Unauthorized', for add, update and delete. |
| Entries.ChangesAreScopedToCaller | src/app/dashboard/income/actions/income.ts:140-189 | Update and delete are filtered by the id and the caller's user id. |
| Entries.UpdateNeedsMoreThanAdd | src/app/dashboard/expenses/actions/expenses.ts:112-122 | A successful update implies an id and a form that add would accept. |
| Entries.FailedWriteIsReported | src/app/dashboard/expenses/actions/expenses.ts:165-208 | A failing delete is answered with its message, and nothing is revalidated. |
| Entries.IncomeNames | src/app/dashboard/income/actions/income.ts:60-173 | The income actions use table `income`, field `source`, the income add, update and id messages and the income page. |
| Entries.ExpenseNames | src/app/dashboard/expenses/actions/expenses.ts:60-173 | The expense actions use table `expenses`, field `description`, the expense add, update and id messages and the expenses page. |
| EmailRule.ValidIffRegex | src/app/dashboard/admin/actions/whitelist.ts:71-74 | The character-level check accepts exactly the strings that `^[^\s@]+@[^\s@]+\.[^\s@]+$` matches. |
| EmailRule.EmailExamples | src/app/dashboard/admin/actions/whitelist.ts:71 | Sample addresses: "a@b.c" is accepted. "a@b.", "a@.c", "@b.c" and "a@b@c.d" are refused. |
| Whitelist.GetWhitelistedEmails | src/app/dashboard/admin/actions/whitelist.ts:17-53 | No user, or a non-admin, gets 'Unauthorized'. A query error gives its message. Otherwise the rows are returned as the query gave them. |
| Whitelist.WhitelistRow | src/app/dashboard/admin/actions/whitelist.ts:93-99 | The added row has the email, the status 'active', and null notes when the notes are empty. |
| Whitelist.EmailProblem | src/app/dashboard/admin/actions/whitelist.ts:66-74 | A missing or empty email is 'Email is required', and one failing the pattern is 'Please enter a valid email address'. |
| Whitelist.StatusProblem | src/app/dashboard/admin/actions/whitelist.ts:182-189 | A missing id or status is 'ID and status are required'. A status other than active or inactive is 'Invalid status value'. |
| Whitelist.AddSucceedsExactly | src/app/dashboard/admin/actions/whitelist.ts:58-116 | Adding succeeds exactly for a present email matching the pattern, an admin caller and an insert that does not fail. The calls are then fixed. |
| Whitelist.ValidationBeforeAuth | src/app/dashboard/admin/actions/whitelist.ts:62-90 | A refused form gets the same reply with no backend call, whoever is signed in, in every action. |
| Whitelist.NonAdminsAreRefused | src/app/dashboard/admin/actions/whitelist.ts:79-90 | No user or a non-admin gets 'Unauthorized' from every action, and nothing is written. |
| Whitelist.UnknownStatusIsRefused | src/app/dashboard/admin/actions/whitelist.ts:186-189 | A status other than 'active' or 'inactive' is refused before the admin gate. |
| Whitelist.StatusUpdateWritesStatus | src/app/dashboard/admin/actions/whitelist.ts:208-211 | An admin's status change writes exactly the new status to the entry with the given id. |
| AdminUsers.AdminListingShape | src/app/dashboard/admin/actions/admin-users.ts:50-61 | An admin gets one row per admin row, in order, each with the placeholder "admin user", and their own id. Anyone else gets 'Unauthorized'. |
| AdminUsers.FindUserByEmail | src/app/dashboard/admin/actions/admin-users.ts:134-141 | The lookup returns the first user whose email is exactly the input, or nothing when there is none. |
| AdminUsers.AddChecksEmailFirst | src/app/dashboard/admin/actions/admin-users.ts:82-90 | The email checks are the whitelist's and come before any backend call. |
| AdminUsers.NotWhitelistedSkipsLookup | src/app/dashboard/admin/actions/admin-users.ts:109-124 | An email missing from the whitelist is refused, and the user list is never fetched. |
| AdminUsers.AddTargetsFirstMatch | src/app/dashboard/admin/actions/admin-users.ts:128-149 | Success holds exactly when some user has the email and the insert does not fail. The row then names the first such user, created by the caller. With no such user the answer is 'User not found…'. |
| AdminUsers.NoSelfRemoval | src/app/dashboard/admin/actions/admin-users.ts:185-201 | An admin removing themself is refused after the admin gate and nothing is deleted. A non-admin trying it gets 'Unauthorized'. |
| AdminUsers.RemoveSucceedsExactly | src/app/dashboard/admin/actions/admin-users.ts:171-224 | Removal succeeds exactly for an admin removing someone else with a delete that does not fail. A missing id is 'User ID is required'. |
| WhitelistManager.Toggle | src/app/dashboard/admin/components/email-whitelist-manager-client.tsx:88 | The new status always differs from the current one. |
| WhitelistManager.ToggleTwice | src/app/dashboard/admin/components/email-whitelist-manager-client.tsx:88 | Toggling twice restores the status. |
| WhitelistManager.ToggleForm | src/app/dashboard/admin/components/email-whitelist-manager-client.tsx:90-92 | The toggle sends exactly the same id and the toggled status. |
| WhitelistManager.ToggleFormIsAccepted | src/app/dashboard/admin/components/email-whitelist-manager-client.tsx:87-94 | With an id, the toggle's form passes the server's checks, and an admin's write stores the toggled status. |
| WhitelistManager.ShownError | src/app/dashboard/admin/components/email-whitelist-manager-client.tsx:70 | The shown error is the server's message, or 'Failed to add email' when that message is empty. It is never empty. |
| WhitelistManager.WhitelistManagerView.HandleAddEmail | src/app/dashboard/admin/components/email-whitelist-manager-client.tsx:51-77 | An empty or malformed email sets its error and sends nothing. Otherwise the form is sent. On success the dialog closes and the page refreshes. On failure the dialog stays open and shows the message. |
| WhitelistManager.WhitelistManagerView.HandleRemoveEmail | src/app/dashboard/admin/components/email-whitelist-manager-client.tsx:79-85 | Remove sends a form with just the id and refreshes, whatever the reply. |
| WhitelistManager.WhitelistManagerView.HandleToggleStatus | src/app/dashboard/admin/components/email-whitelist-manager-client.tsx:87-96 | Toggle sends the toggle form and refreshes, whatever the reply. |
| WhitelistManager.DialogChecksMatchServer | src/app/dashboard/admin/components/email-whitelist-manager-client.tsx:56-68 | A form the dialog sends passes the server's email checks, so the server goes on to its admin gate. |
| Settings.ProfileChecksNameFirst | src/app/dashboard/settings/actions/settings.ts:16-31 | A missing or whitespace-only name gets 'Display name is required' with no backend call. Only then does a missing user give 'Unauthorized'. |
| Settings.ProfileStoresNameAsGiven | src/app/dashboard/settings/actions/settings.ts:34-52 | The stored `full_name` is the submitted text, untrimmed. A failing update is reported with its message and nothing is revalidated. |
| Settings.PaddedNameIsStoredPadded | src/app/dashboard/settings/actions/settings.ts:34-36 | " Ada " is stored with its spaces. |
| Settings.DeletionNeedsUser | src/app/dashboard/settings/actions/settings.ts:66-69 | Without a user, marking for deletion gets 'Unauthorized' and writes nothing. |
| Settings.SignOutComesLast | src/app/dashboard/settings/actions/settings.ts:72-97 | Sign-out happens exactly when both writes succeed, and only after the insert and then the metadata update. Success is exactly that case. |
| Backend.AdminGate | src/app/dashboard/admin/actions/whitelist.ts:79-90 | The admin gate lets an admin through to the action's own calls. Anyone else gets 'Unauthorized' with no write. |
| Backend.SignedInWrite | src/app/dashboard/savings/actions/savings-goals.ts:71-101 | The user is fetched first, and no user gives 'Unauthorized'. The write is the caller's, revalidation follows only when it succeeds, and success is exactly a user plus a write that does not fail. |
| Backend.CaughtMessage | src/app/dashboard/savings/actions/savings-goals.ts:95-101 | A caught error's message is its own for an `Error`, and 'Unknown error' otherwise. |
| Middleware.DecideIsExact | src/middleware.ts:61-75 | A signed-out visitor to a path starting with '/dashboard' is sent to /login. A signed-in visitor to exactly '/login' is sent to /dashboard. The two never both apply, and every other pair passes through. |
| Middleware.NoRedirectLoop | src/middleware.ts:65-73 | A redirect's target never redirects the same visitor again. |
| Middleware.TestsArePlainText | src/middleware.ts:65-71 | '/dashboardX' redirects when signed out, while '/login/x' does not redirect a signed-in user. |
| Middleware.Guard | src/middleware.ts:79 | The guard acts exactly on the paths the matcher accepts, and there it gives the redirect decision. |
| Middleware.GuardCoversItsPages | src/middleware.ts:65-79 | The matcher accepts every single-line path under '/dashboard' and '/login', so the guard always runs where it redirects. |
| Middleware.MatcherSkipsAssets | src/middleware.ts:79 | Static files, images, the favicon and the sign-in callback are skipped, names that merely begin with an excluded one included. |
| Middleware.MatcherQuirks | src/middleware.ts:79 | The '.' in `favicon.ico` matches any character, so '/faviconXico' is skipped. An excluded name later in the path does not stop the guard. |

## Left out

- Backend calls are not executed. The Supabase queries, the `is_admin` RPC, `auth.admin.listUsers`, `revalidatePath`, `router.refresh` and `router.push` appear only as recorded calls, and their outcomes are parameters. Row-level security is the backend's and is not modelled.
- The `getIncomes`, `getExpenses` and `getSavingsGoals` reads are not modelled. Each is one query returning its rows.
- The middleware's cookie handling (src/middleware.ts:13-59) is framework session plumbing and is not modelled. The matcher is read as an anchored regex over the pathname, without the suffixes the framework adds to matchers.
- The overview chart, `src/contexts/WhitelistContext.tsx`, the dialogs, the forms that repeat the server checks, the demo placeholder lists and the rendering-only pages are not part of this model.
- Locale and number formatting (`Intl.NumberFormat`, `toFixed`, `toLocaleDateString`) are left out. Captions are datatypes (`MonthDay`, `LongDate`) rather than text.
- Date parsing is left out. Stored dates are day numbers, and form dates stay strings.
- RecentTransactions.DateLabel: compares day numbers, so it does not capture a time-zone effect of the source. `new Date("YYYY-MM-DD")` reads the date as UTC midnight while `toDateString()` and `getDate()` use local time (src/app/dashboard/components/recent-transactions.tsx:111-131). West of UTC every label is therefore one day early: today's entry reads "Yesterday".
- Floating-point rounding is left out. Money is `real`, and only Infinity and NaN from division are kept.
- `parseFloat` is an arbitrary parameter. It can return NaN but not Infinity.
- SavingsGoalActions.StoredDefaults: assumes that the parser reads "0" as 0, because real parsing is not modelled.
- `toLowerCase` lowers ASCII letters only. Unicode case folding is not modelled.
- The recent-transactions item keeps the creation time, because the model reuses the ledger's transaction type. The `order` clauses of the queries are not modelled, since the code re-sorts the rows.
- Exceptions thrown by `getUser` itself are not modelled, and neither is console logging.
- The window width and `isMobile` layout switch are not modelled.
- WhitelistManager.WhitelistManagerView.HandleRemoveEmail: records the request without the server's reply, because the handler ignores it. A call that throws would skip `router.refresh()` (src/app/dashboard/admin/components/email-whitelist-manager-client.tsx:83-84); the model always counts the refresh.
- WhitelistManager.WhitelistManagerView.HandleToggleStatus: records the request without the server's reply, because the handler ignores it. A call that throws would skip `router.refresh()` (src/app/dashboard/admin/components/email-whitelist-manager-client.tsx:94-95); the model always counts the refresh.
