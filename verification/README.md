# FinancialFreedom in Dafny

A model of the behaviour underneath FinancialFreedom, a personal-finance
web application built from Streamlit forms over PostgreSQL. The database is
replaced by sequences of rows and each form handler becomes a pure
transition on those rows. The model covers:

- the calculators of `utils.py`: monthly savings, goal progress, budget
  progress with its monthly and weekly date windows, and the debt-payoff
  loop (`Utils`, `Payoff`, with calendar arithmetic in `Calendar`);
- sign-in and the session (`Auth`) and the password-change form
  (`Components`);
- seeding of the default categories (`Database`);
- the budget upsert (`Budget`), goals (`Goals`), payment sources
  (`PaymentSources`), user administration (`UserManagement`) and the
  analytics page (`Analytics`);
- the progress colour and bar thresholds shared by the goal and budget
  pages (`Display`);
- SQL `WHERE`, `SUM`, `ORDER BY` and pandas `groupby(...).sum()` as
  sequence functions (`Collections`).

Amounts are exact `real`s. "Now" and "today" are inputs. The hashing
functions `User.hash_password` and `User.verify_password` are not defined
in the code, so they are an uninterpreted pair of functions (`Auth.Crypto`).
Database exceptions are a `fault` input, after which nothing is committed.
Python dates follow the proleptic Gregorian calendar over years 1 to 9999.
A `timedelta` step that leaves that range raises `OverflowError`, which the
model gives as `None`.

The model follows the code. Where the code appears to be wrong, the
corrected behaviour is modelled separately (see "## Findings"). Behaviour a
reader might not expect:

- The debt-payoff loop tests `months > 360` after counting the month, so a
  plan that never converges reports 361 months, not 360.
- The analytics queries, the payment-source insert and the budget upsert do
  not filter by or record the signed-in user.
- Budget rows inserted by the budget page carry no `user_id`. The model
  assumes a nullable `budgets.user_id` column, as the delete by `user_id` in
  pages/user_management.py:39-42 implies; the table definition in
  database.py:56-62 does not list it. The budget
  query of `calculate_budget_progress` filters on `user_id`, so it never
  finds those rows and reports the "no budget" answer (0, 0). See
  `Budget.PageBudgetsShowNoProgress`.
- "No budget" gives progress 0 and remaining 0, which is not an error value.
- Goal progress is clamped only from above. It is non-negative only for
  non-negative inputs.
- The pages compute a progress colour but never pass it to the progress bar.

## Model

| member | source | states |
|---|---|---|
| Utils.MonthlySavings | utils.py:8-9 | savings plus expenses equal income; the result is negative exactly when expenses exceed income |
| Utils.GoalProgress | utils.py:47-50 | 0 for a zero target; never above 100; the exact percentage when current ≤ target; 100 once current reaches target; non-negative for non-negative inputs |
| Utils.ProgressOf | utils.py:102-105 | a zero budget raises; otherwise remaining + spent = budget and progress × budget = spent × 100 |
| Utils.CalculateBudgetProgress | utils.py:61-105 | no budget row gives (0, 0); otherwise a date overflow raises, or the answer is the budget's progress against the user's expenses of the category dated from the window's first counted day through the period's last day, with the window exactly as written: the whole month, or for a week Monday through Sunday but from Tuesday once the clock is past midnight, even by a microsecond (the clock is `datetime.now()` with microseconds) |
| Utils.CalculateBudgetProgressIntended | utils.py:61-105 | the same calculator with the corrected weekly window: a week counts every expense from Monday through Sunday |
| Utils.Spent | utils.py:86-97 | the `SUM ... BETWEEN` query adds exactly the amounts of the category's and user's expenses dated from the window's first counted day through its end's day (the day-range reference sum `RangeSpent`) |
| Utils.InWindowDays | utils.py:92 | a date compared as its midnight lies between the bounds exactly when its day number runs from the first counted day (the start's day, or the next day when the start is past midnight) through the end's day |
| Utils.CountedSumInDays | utils.py:87-97 | the filtered sum of amounts equals the day-range reference sum |
| Utils.MonthWindowDays | utils.py:79-81 | `MonthWindow` is missing exactly in December 9999; otherwise its midnight bounds count the 1st through the last day of the current month |
| Utils.WeekWindowAsWrittenDays | utils.py:82-84 | `WeekWindowAsWritten` is missing exactly when the Sunday would pass 9999-12-31; otherwise it ends on the Sunday and counts from the Monday, or from the Tuesday once the clock reads any time after 00:00:00.000000 |
| Utils.WeekWindowDays | utils.py:82-84 | the corrected `WeekWindow` is missing exactly when the Sunday would pass 9999-12-31; otherwise it counts Monday through Sunday |
| Utils.PeriodWindowAsWrittenDays | utils.py:79-84 | `PeriodWindowAsWritten` takes the month for 'monthly' and the week as written for anything else, and counts that period's days as above |
| Utils.PeriodWindowDays | utils.py:79-84 | `PeriodWindow` takes the month for 'monthly' and the corrected week otherwise, and counts all that period's days |
| Utils.ProgressInDays | utils.py:97-105 | over any window that counts days `first` through `last` the answer is the progress against those days' expenses, and an overflow when the window is missing |
| Utils.NoBudgetIsDistinguishable | utils.py:72-73 | the (0, 0) "no budget" answer never equals the answer for a real positive budget |
| Utils.MonthWindowSpansMonth | utils.py:79-81 | the "+32 days, day 1, −1 day" window runs from the 1st to the last day of the current month; it overflows only in December 9999 |
| Utils.WeekStartIsMonday | utils.py:83 | subtracting `weekday()` days always lands on a valid Monday, `weekday()` days back |
| Utils.WeekWindowSpansWeek | utils.py:82-84 | the corrected weekly window runs from Monday to Sunday at midnight and contains today; it overflows only in the last days of 9999 |
| Utils.CountedIffWithinDays | utils.py:87-95 | with midnight bounds, an expense is summed exactly when its category and user match and its date lies in the window's days |
| Utils.WeekWindowAsWrittenSkipsMonday | utils.py:83-95 | with the window as written, a Monday-dated expense adds nothing whenever the clock is past midnight by any number of microseconds; the corrected window counts it in full |
| Utils.WeeklyBudgetMondayExample | utils.py:61-105 | a weekly budget of 100 with a Monday expense of 40, asked at 10:00 on Wednesday 3 January 2024: as written the answer is progress 0 and remaining 100; with the corrected window, progress 40 and remaining 60 |
| Utils.WeeklyBudgetJustPastMidnight | utils.py:78-95 | the same weekly budget asked at 00:00:00.5 on the Wednesday answers progress 0 and remaining 100: half a second past midnight already leaves the Monday out |
| Utils.WeekWindowsShareDays | utils.py:82-84 | the window as written and the corrected one have the same Monday and Sunday |
| Calendar.NextDaySpec | utils.py:81 | the next day of a valid date is valid and one ordinal later, and exists unless the date is 9999-12-31 |
| Calendar.PrevDaySpec | utils.py:81 | the previous day of a valid date is valid and one ordinal earlier, and exists unless the date is 0001-01-01 |
| Calendar.AddDaysSpec | utils.py:81 | `AddDays`, the model of `date + timedelta(days=n)`, succeeds exactly when the target ordinal is in range, and moves the ordinal by n |
| Calendar.AddDaysForward | utils.py:81 | adding n ≥ 0 days one day at a time reaches ordinal + n, and fails exactly past 9999-12-31 |
| Calendar.AddDaysBackward | utils.py:83 | subtracting n ≥ 0 days one day at a time reaches ordinal − n, and fails exactly before 0001-01-01 |
| Calendar.AddDaysWithinMonth | utils.py:81 | adding days without leaving the month only changes the day |
| Calendar.AddDaysIntoNextMonth | utils.py:81 | adding days that pass the end of the month but not the end of the next lands in the next month, on the day that overflows |
| Calendar.OrdinalRange | utils.py:83 | every valid date has an ordinal between 1 and 3652059 |
| Payoff.CalculateDebtPayoff | utils.py:19-42 | the loop computes the month-by-month reference; at most 361 months; at least 1 for a positive principal; none for a non-positive one; total payment = principal + total interest |
| Payoff.Step | utils.py:25-33 | one pass of the loop body: interest on the balance, the payment clamped to balance plus interest, the balance lowered by payment minus interest; its properties are stated by `Payoff.StepFacts` |
| Payoff.StepFacts | utils.py:25-33 | one month adds one to the count and the month's interest to the total; the balance stays non-negative and reaches 0 exactly when the payment covers balance plus interest; balance + paid − interest is preserved |
| Payoff.PlanBounds | utils.py:35-42 | the reported months are at most 361, at least 1 for a positive principal, and a non-positive principal reports 0 months, 0 interest and the principal as total payment |
| Payoff.RunBounds | utils.py:24-36 | `Run`, the loop from a state to its exit, always stops within the cap, runs at least one month for a positive balance and none otherwise |
| Payoff.RunExit | utils.py:28-36 | the exit balance is never negative, and a positive balance remains only at the cap |
| Payoff.RunConserves | utils.py:25-33 | balance plus payments made minus interest charged is the same at exit as at entry |
| Payoff.PaidOffBeforeCap | utils.py:28-42 | an exit before the cap leaves the balance at exactly 0, and the reported total payment is what was actually paid |
| Payoff.StepStuck | utils.py:25-32 | when the payment covers no more than the interest, a month never lowers the balance |
| Payoff.RunStuck | utils.py:24-36 | from such a state the loop runs to the cap without lowering the balance |
| Payoff.NonConvergentHitsCap | utils.py:24-36 | a payment at most the first month's interest (rate ≥ 0) ends at 361 months, still owing at least the principal |
| Payoff.NonConvergentExample | utils.py:35-36 | 1000 at 24% paying 10 a month reports 361 months |
| Database.DefaultCategories | database.py:81-96 | the nine default rows, in order, with consecutive ids and none custom |
| Database.InitDb | database.py:77-102 | an error rolls back; otherwise an empty table gets the defaults and a non-empty one is unchanged; after success the table is non-empty |
| Database.SeedContents | database.py:81-96 | seeding an empty table gives 9 categories: 3 income, 6 expense, none custom |
| Database.InitDbIdempotent | database.py:77-98 | a second run changes nothing |
| Database.InitDbAtomic | database.py:98-102 | the table afterwards is either the table before or the fully seeded one |
| Auth.FindByUsername | auth.py:13-17 | finds a row with that username, and finds none only when no row has it |
| Auth.UsernameIdentifiesRow | auth.py:13-17 | with unique usernames a username names one row |
| Auth.InitAuth | auth.py:5-7 | creates an empty session entry only when none exists and keeps an existing one |
| Auth.Login | auth.py:9-30 | success stores that user in the session, and happens exactly when the username exists and the password verifies; any failure changes nothing |
| Auth.Register | auth.py:32-61 | succeeds exactly when there is no error and the username is new; success appends one non-admin row with the hashed password and signs it in; failure changes nothing |
| Auth.RegisterKeepsUnique | auth.py:37-47 | registration keeps usernames and ids unique |
| Auth.RegisterThenLogin | auth.py:41-55 | after registering, the same credentials log in |
| Auth.Logout | auth.py:63-64 | the session user becomes None and the users are untouched |
| Auth.RequireAuth | auth.py:66-71 | grants exactly when a user is in the session, and initialises the session entry |
| Auth.RequireAdmin | auth.py:73-78 | grants exactly an admin session user; halts for login when there is no user, and for admin rights otherwise |
| Components.FindById | components.py:30-34 | finds a row with that id, and finds none only when no row has it |
| Components.SetHash | components.py:39-42 | rewrites the hash of the rows with that id and nothing else |
| Components.ChangePassword | components.py:20-48 | mismatch is checked first, then a missing current password; the hash is rewritten exactly when the current password verifies against the session user's stored hash and nothing fails; otherwise nothing changes |
| Components.ChangeTouchesOnlySessionUser | components.py:38-43 | a successful change alters only the session user's hash |
| Components.ChangeThenLogin | components.py:36-44 | after a successful change the account logs in with the new password |
| Display.ProgressColour | pages/goals.py:121-125 | "off" exactly from 90%, "warning" exactly from 75% below 90%, "normal" below 75% |
| Display.BarFraction | pages/goals.py:127 | never above 1; progress/100 up to 100%; full from 100%; non-negative for non-negative progress |
| Budget.PeriodName | pages/budget.py:29-32 | a period is stored as "weekly" or "monthly" |
| Budget.ParsePeriod | pages/budget.py:29-32 | exactly the two period strings are recognised |
| Budget.PeriodNameRoundTrip | pages/budget.py:29-32 | parsing a period's name gives the period back, and naming a parsed string gives the string back |
| Budget.ValidForm | pages/budget.py:15-32 | what the form can submit: a category from the expense-category selectbox and an amount of at least 0.01; the invariant `Budget.ApplyAllInvariant` assumes of every submission |
| Budget.SetBudget | pages/budget.py:39-48 | a new key appends an owner-less row; an existing key has its amount and start date overwritten in place, and no other row changes |
| Budget.Lookup | pages/budget.py:43 | finds a row with the key, and none only when no row has it |
| Budget.SetBudgetKeepsUnique | pages/budget.py:41-47 | an upsert keeps at most one row per (category, period) |
| Budget.LookupAfterSet | pages/budget.py:43-47 | after an upsert the key's row has the submitted amount and start date |
| Budget.SetBudgetOthersUnchanged | pages/budget.py:43-47 | an upsert leaves every other key's row as it was |
| Budget.SetBudgetTwice | pages/budget.py:43-47 | setting a key twice equals setting it once with the later values |
| Budget.ApplyAllInvariant | pages/budget.py:17-47 | any sequence of form submissions keeps keys unique and every budget on an expense category with amount ≥ 0.01 |
| Budget.UserBudgetAmount | utils.py:66-70 | finds an amount exactly when a row matches category, period and user, and returns that row's amount |
| Budget.PageBudgetsShowNoProgress | utils.py:66-73 | budgets created through the page never reach the progress calculator, which reports (0, 0) |
| Goals.StatusFor | pages/goals.py:143-146 | completed exactly when the amount reaches the target |
| Goals.ValidForm | pages/goals.py:22-24 | what the form can submit: a target of at least 0.01 and a deadline no earlier than today; assumed by `Goals.NewGoalConsistent` |
| Goals.NewGoal | pages/goals.py:53-62 | a new goal has nothing saved, is in progress, and belongs to the session user |
| Goals.AddGoal | pages/goals.py:51-69 | an error leaves the table unchanged; otherwise the existing rows stay as they are and one goal is appended, owned by the user, with nothing saved and in progress |
| Goals.NewGoalConsistent | pages/goals.py:53-62 | a goal created from the form has a status that agrees with its amounts |
| Goals.UpdateProgress | pages/goals.py:139-150 | only the row with that id and user changes: its amount is set and it is completed exactly when the amount reaches the target |
| Goals.UpdateKeepsConsistent | pages/goals.py:139-149 | updates keep every status in agreement with its amounts |
| Goals.LoweringReopens | pages/goals.py:143-146 | lowering a completed goal below its target reopens it |
| Goals.UpdateIsUserScoped | pages/goals.py:147 | another user's goals are unchanged by any update |
| Goals.ListGoals | pages/goals.py:75-81 | exactly the user's goals, as a permutation of them, ordered by deadline |
| Goals.OverallProgress | pages/goals.py:86-88 | total saved over total target as a percentage when the target total is positive, 0 otherwise |
| Goals.OverallProgressBounded | pages/goals.py:86-88 | when no goal is over target, overall progress is between 0 and 100 |
| Goals.OverallProgressUncapped | pages/goals.py:88 | overall progress is not capped: a goal saved to twice its target shows 200% |
| PaymentSources.TypeLabel | pages/payment_sources.py:15 | "Credit Card" exactly for 'credit_card', "Bank Account" for anything else |
| PaymentSources.IsDigitString | pages/payment_sources.py:25 | true exactly for non-empty strings of digits |
| PaymentSources.Validate | pages/payment_sources.py:23-27 | accepted exactly when both names are non-empty and the last four are four digits; the incomplete error comes before the digits error |
| PaymentSources.AddSource | pages/payment_sources.py:22-46 | a rejected or failed submission inserts nothing; an accepted one appends one active row with the chosen type |
| PaymentSources.AddSourceKeepsInvariant | pages/payment_sources.py:23-39 | every stored source is active and has four digits as its last four |
| PaymentSources.IncompleteTakesPrecedence | pages/payment_sources.py:23-26 | a three-character last four gets the incomplete error, a four-character non-digit one the digits error |
| UserManagement.Purge | pages/user_management.py:42-43 | keeps exactly the rows not owned by the target |
| UserManagement.DeleteOwned | pages/user_management.py:39-43 | every listed table loses the target's rows, the others are untouched |
| UserManagement.DeleteUser | pages/user_management.py:37-47 | all six tables lose the target's rows and the users table loses the target |
| UserManagement.ToggleAdmin | pages/user_management.py:59-62 | flips the admin flag of exactly the target |
| UserManagement.ToggleTwice | pages/user_management.py:58-63 | toggling twice restores the users table |
| UserManagement.Handle | pages/user_management.py:8-69 | changes happen exactly for an admin session acting on someone else without error; the change is the delete or the toggle |
| UserManagement.NonAdminChangesNothing | pages/user_management.py:8 | a session without an admin user is refused and changes nothing |
| UserManagement.DeleteIsComplete | pages/user_management.py:37-47 | after a delete nothing of the target remains and everything of everyone else does |
| UserManagement.AdminSurvives | pages/user_management.py:35 | the acting admin's own row survives any button press unchanged |
| UserManagement.ListUsers | pages/user_management.py:16-20 | all users, as a permutation, newest first |
| Analytics.Select | pages/analytics.py:24-45 | exactly the rows dated within the inclusive range whose category exists, joined with the category name |
| Analytics.SelectTotal | pages/analytics.py:52-53 | the total is the sum of the included rows' amounts |
| Analytics.NothingSelectedTotalsZero | pages/analytics.py:52-53 | with nothing in range the total is 0 |
| Analytics.Total | pages/analytics.py:52-53 | 0 for an empty frame; never negative when no amount is |
| Analytics.SavingsRate | pages/analytics.py:54 | net savings as a percentage of positive income, 0 without positive income |
| Analytics.SavingsRateBounds | pages/analytics.py:54 | at most 100% for non-negative expenses, negative exactly when expenses exceed income |
| Analytics.ByCategory | pages/analytics.py:70 | exactly one group per category present, no key repeated, and each group's amount is the total of exactly that category's rows |
| Analytics.ByCategoryPartitions | pages/analytics.py:70 | one group per category present, each the total of exactly that category's rows, and the groups add up to the overall total |
| Analytics.ByDate | pages/analytics.py:80 | exactly one group per date present, no key repeated, each group's amount the total of exactly that date's rows, and the groups add up to the overall total |
| Analytics.CombinedTrend | pages/analytics.py:112-117 | income points first, one per distinct income date, each carrying the total of that date's income rows; then the expense points likewise |
| Analytics.CombinedTrendShape | pages/analytics.py:112-117 | one income point per distinct income date then one expense point per distinct expense date, no date repeated within a type, each point the total of its date's rows of its type, and each type's points adding up to its total |
| Collections.Filter | pages/goals.py:79 | keeps exactly the rows satisfying the condition, as a sub-multiset |
| Collections.SumBy | utils.py:89 | SQL `COALESCE(SUM(..), 0)` and pandas `.sum()`: 0 for no rows, the row values added in order; its properties are `Collections.SumByFilter` and `Collections.GroupByPartitions` |
| Collections.SumByFilter | utils.py:89-93 | a sum over a filter adds exactly the kept rows' values |
| Collections.SortBy | pages/goals.py:80 | a permutation sorted by the key |
| Collections.GroupBy | pages/analytics.py:70 | `groupby(key)[amount].sum()`: no key repeated among the groups; each key's total is given by `Collections.GroupByTotalFor` |
| Collections.GroupByTotalFor | pages/analytics.py:70 | the total the grouping records for any key is the sum over exactly the rows with that key (0 for an absent key) |
| Collections.GroupByPartitions | pages/analytics.py:70 | exactly one group per distinct key; each group's total is the sum over exactly its key's rows; group totals add up to the overall sum |

## Left out

- The Streamlit rendering: forms, widgets, messages, `st.stop`, `st.rerun`, tabs and layout. A guard's halt is a result value.
- Charts (plotly) and CSV export. These are library calls.
- The connection handling and the table definitions in `init_db`. Tables are sequences of rows with only the columns the queries use.
- `User.hash_password` and `User.verify_password` are not part of this model. They are uninterpreted functions.
- Floating point: amounts are exact reals. "Balance exactly 0 on early exit" holds only in exact arithmetic. Display rounding and formatting are not modelled.
- Auth.Login: a database exception during login propagates to the caller; the model has no fault input there.
- PaymentSources.IsDigitString: only ASCII digits count. Python's `str.isdigit` also accepts other Unicode digits.
- Analytics.ByCategory: pandas sorts the groups by key; the model keeps first-appearance order.
- Analytics.ByDate: pandas sorts the groups by date; the model keeps first-appearance order. Chart order is display only.
- The expenses-by-necessity chart is the same `groupby(...).sum()` as `Analytics.ByCategory`, keyed on `necessity_level`; it is not modelled separately.
- The payment-source list (newest first) and the goal rows' days-left display.
- pages/budget.py:76 calls `calculate_budget_progress` with two arguments where it takes three. The model covers the function itself, not this call.
- pages/goals.py:98 calls `calculate_goal_progress` without importing it. The model covers the function itself, not this call.
- Goals.ListGoals: the order among goals with the same deadline is not specified by the query; the model only promises the deadline order.
- pages/income_expenses.py, pages/debt.py and main.py are forms and sums already covered by `Collections` and `Utils`. models.py gives only the shape of the records.
- Payoff.CalculateDebtPayoff: the input floor of 0.01 on the debt page is not required; the properties hold for all inputs that satisfy each lemma's own conditions.
- An exception during the budget upsert is shown and nothing is committed; the model has no separate member for this, as `Budget.SetBudget` is the committed effect.
- Concurrency and last-write-wins between sessions.

## Findings

| source | as written | input that shows it | evidently intended | confidence | as-written member | corrected member |
|---|---|---|---|---|---|---|
| utils.py:83 | the weekly start is `today - timedelta(days=today.weekday())`, which keeps the current time of day, and the `date BETWEEN start AND end` query compares each expense date as its midnight | a Monday-dated expense with the clock at 10:00 on any day of that week: its midnight is before the window start, so it is not summed | the week runs from Monday 00:00, so Monday's expenses count | not executed | Utils.CalculateBudgetProgress (exhibited by Utils.WeeklyBudgetMondayExample: a Monday expense of 40 against a weekly budget of 100, asked at 10:00 on the Wednesday, gives progress 0 and remaining 100; in general by Utils.WeekWindowAsWrittenSkipsMonday) | Utils.CalculateBudgetProgressIntended (with Utils.WeekWindowSpansWeek) |
