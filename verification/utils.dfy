/** The calculators of utils.py: monthly savings, goal progress and budget
    progress with its period window. The debt-payoff calculator is in the
    module `Payoff`. "Now" is an input; the budget lookup and the spent
    query are modelled over rows passed in. */
module Utils {
  import opened Options
  import opened Calendar
  import opened Records
  import Collections

  /** `calculate_monthly_savings`: what is left of income after expenses;
      negative when expenses exceed income. */
  function MonthlySavings(incomeTotal: real, expenseTotal: real): (r: real)
    ensures r + expenseTotal == incomeTotal
    ensures r < 0.0 <==> incomeTotal < expenseTotal
  {
    incomeTotal - expenseTotal
  }

  function Min(a: real, b: real): (r: real)
    ensures r <= a && r <= b
    ensures r == a || r == b
  {
    if a <= b then a else b
  }

  /** `calculate_goal_progress`: the percentage of the target reached,
      capped at 100; 0 for a zero target. */
  function GoalProgress(current: real, target: real): (r: real)
    ensures target == 0.0 ==> r == 0.0
    ensures r <= 100.0
    ensures target > 0.0 && current <= target ==> r * target == current * 100.0
    ensures target > 0.0 && current >= target ==> r == 100.0
    ensures target > 0.0 && current >= 0.0 ==> r >= 0.0
  {
    if target == 0.0 then 0.0
    else
      PercentageFacts(current, target);
      Min(current / target * 100.0, 100.0)
  }

  /** The uncapped percentage `current / target * 100` scales back to
      `current`, and compares with 100 and 0 as `current` compares with
      `target` and 0. */
  lemma PercentageFacts(current: real, target: real)
    requires target != 0.0
    ensures (current / target * 100.0) * target == current * 100.0
    ensures target > 0.0 && current <= target ==> current / target * 100.0 <= 100.0
    ensures target > 0.0 && current >= target ==> current / target * 100.0 >= 100.0
    ensures target > 0.0 && current >= 0.0 ==> current / target * 100.0 >= 0.0
  {
    var q := current / target;
    assert q * target == current;
    if target > 0.0 {
      if q > 1.0 {
        MultiplyPositive(q - 1.0, target);
      }
      if q < 1.0 {
        MultiplyPositive(1.0 - q, target);
      }
      if q < 0.0 {
        MultiplyPositive(-q, target);
      }
    }
  }

  lemma MultiplyPositive(a: real, b: real)
    requires a > 0.0 && b > 0.0
    ensures a * b > 0.0
  {
  }


  /* ---------------- Budget progress ---------------- */

  /** The closed interval of time a budget period covers. */
  datatype Window = Window(start: Timestamp, end: Timestamp)

  /** `date BETWEEN start AND end` for a DATE column: the date is compared
      as its midnight. */
  predicate InWindow(w: Window, d: Date) {
    TimestampLe(w.start, Midnight(d)) && TimestampLe(Midnight(d), w.end)
  }

  /** The monthly window: `datetime(y, m, 1)` through
      `(start + 32 days).replace(day=1) - 1 day`, both at midnight.
      `None` when the date arithmetic overflows. */
  function MonthWindow(today: Date): (r: Option<Window>) {
    var first := Date(today.year, today.month, 1);
    match AddDays(first, 32)
    case None => None
    case Some(later) =>
      match AddDays(Date(later.year, later.month, 1), -1)
      case None => None
      case Some(last) => Some(Window(Midnight(first), Midnight(last)))
  }

  /** The Monday of the week of `today`: `today - timedelta(days=today.weekday())`. */
  function WeekStart(today: Date): (r: Option<Date>) {
    AddDays(today, -Weekday(today))
  }

  /** The weekly window exactly as utils.py builds it: the start keeps the
      current time of day, and so does the end six days later. */
  function WeekWindowAsWritten(now: Timestamp): (r: Option<Window>) {
    match WeekStart(now.date)
    case None => None
    case Some(monday) =>
      match AddDays(monday, 6)
      case None => None
      case Some(sunday) => Some(Window(Timestamp(monday, now.micros), Timestamp(sunday, now.micros)))
  }

  /** The weekly window as intended: Monday through Sunday of the current
      week, whole days. */
  function WeekWindow(now: Timestamp): (r: Option<Window>) {
    match WeekStart(now.date)
    case None => None
    case Some(monday) =>
      match AddDays(monday, 6)
      case None => None
      case Some(sunday) => Some(Window(Midnight(monday), Midnight(sunday)))
  }

  /** The window for a period: 'monthly' is the calendar month, anything
      else is treated as weekly. */
  function PeriodWindowAsWritten(period: string, now: Timestamp): (r: Option<Window>) {
    if period == "monthly" then MonthWindow(now.date) else WeekWindowAsWritten(now)
  }

  /** The window for a period with the corrected weekly window. */
  function PeriodWindow(period: string, now: Timestamp): (r: Option<Window>) {
    if period == "monthly" then MonthWindow(now.date) else WeekWindow(now)
  }

  /** Whether an expense row is counted by the spent query. */
  predicate Counted(e: Expense, categoryId: int, userId: UserId, w: Window) {
    e.categoryId == categoryId && e.userId == userId && InWindow(w, e.date)
  }

  /** The spent query's `WHERE` clause as a row filter. */
  function CountedBy(categoryId: int, userId: UserId, w: Window): Expense -> bool {
    e => Counted(e, categoryId, userId, w)
  }

  function ExpenseAmount(e: Expense): real {
    e.amount
  }

  /** The sum the spent query computes, with its window given instead as the
      day numbers it covers: the amounts of the category's and user's
      expenses dated from day `first` through day `last`. */
  function RangeSpent(expenses: seq<Expense>, categoryId: int, userId: UserId, first: int, last: int): real {
    if |expenses| == 0 then 0.0
    else
      var e := expenses[|expenses| - 1];
      RangeSpent(expenses[..|expenses| - 1], categoryId, userId, first, last)
        + (if e.categoryId == categoryId && e.userId == userId && first <= Ordinal(e.date) <= last then e.amount else 0.0)
  }

  /** The first day whose midnight a window contains: the start's own day
      when the start is at midnight, the day after otherwise. */
  function FirstCountedDay(w: Window): int {
    Ordinal(w.start.date) + (if w.start.micros > 0 then 1 else 0)
  }

  /** A date lies in a window exactly when its day number runs from the
      first counted day through the end's day. */
  lemma InWindowDays(w: Window, d: Date)
    requires 0 <= w.start.micros && 0 <= w.end.micros
    ensures InWindow(w, d) <==> FirstCountedDay(w) <= Ordinal(d) <= Ordinal(w.end.date)
  {
  }

  lemma {:induction false} CountedSumInDays(expenses: seq<Expense>, categoryId: int, userId: UserId, w: Window)
    requires 0 <= w.start.micros && 0 <= w.end.micros
    ensures Collections.SumBy(Collections.Filter(expenses, CountedBy(categoryId, userId, w)), ExpenseAmount)
         == RangeSpent(expenses, categoryId, userId, FirstCountedDay(w), Ordinal(w.end.date))
    decreases |expenses|
  {
    if |expenses| > 0 {
      var init := expenses[..|expenses| - 1];
      var e := expenses[|expenses| - 1];
      var kept := Collections.Filter(init, CountedBy(categoryId, userId, w));
      CountedSumInDays(init, categoryId, userId, w);
      InWindowDays(w, e.date);
      if Counted(e, categoryId, userId, w) {
        assert Collections.Filter(expenses, CountedBy(categoryId, userId, w)) == kept + [e];
        assert (kept + [e])[..|kept|] == kept;
      } else {
        assert Collections.Filter(expenses, CountedBy(categoryId, userId, w)) == kept;
      }
    }
  }

  /** `SELECT COALESCE(SUM(amount), 0) FROM expenses WHERE category_id = ..
      AND date BETWEEN .. AND .. AND user_id = ..`: for a window whose times
      of day are not negative, the category's and user's expenses dated from
      the first counted day through the end's day. */
  function Spent(expenses: seq<Expense>, categoryId: int, userId: UserId, w: Window): (r: real)
    ensures 0 <= w.start.micros && 0 <= w.end.micros ==>
      r == RangeSpent(expenses, categoryId, userId, FirstCountedDay(w), Ordinal(w.end.date))
  {
    if 0 <= w.start.micros && 0 <= w.end.micros then
      CountedSumInDays(expenses, categoryId, userId, w);
      Collections.SumBy(Collections.Filter(expenses, CountedBy(categoryId, userId, w)), ExpenseAmount)
    else Collections.SumBy(Collections.Filter(expenses, CountedBy(categoryId, userId, w)), ExpenseAmount)
  }

  datatype BudgetProgress = BudgetProgress(progress: real, remaining: real)

  /** Why the calculator raises: the date arithmetic overflowed, or the
      budget amount is zero (a float division by zero). */
  datatype BudgetError = DateOverflow | ZeroBudget

  datatype ProgressResult = Ok(value: BudgetProgress) | Err(error: BudgetError)

  /** The returned dictionary for a budget amount and the amount spent. */
  function ProgressOf(amount: real, spent: real): (r: ProgressResult)
    ensures amount == 0.0 <==> r == Err(ZeroBudget)
    ensures r.Ok? ==> r.value.remaining + spent == amount
    ensures r.Ok? ==> r.value.progress * amount == spent * 100.0
  {
    if amount == 0.0 then Err(ZeroBudget)
    else Ok(BudgetProgress(spent / amount * 100.0, amount - spent))
  }

  /** The day numbers of the first and last day of the month of `d`. */
  function MonthFirstDay(d: Date): int {
    Ordinal(Date(d.year, d.month, 1))
  }

  function MonthLastDay(d: Date): int {
    Ordinal(Date(d.year, d.month, DaysInMonth(d.year, d.month)))
  }

  /** The day number of the Monday of the week of `d`. */
  function MondayOf(d: Date): int {
    Ordinal(d) - Weekday(d)
  }

  /** Whether the period's window cannot be built: December 9999 for a
      month, a week running past 31 December 9999 otherwise. */
  predicate WindowOverflows(period: string, today: Date) {
    if period == "monthly" then today.year == MaxYear && today.month == 12
    else MondayOf(today) + 6 > MaxOrdinal
  }

  /** The first day the spent query counts as utils.py builds its window:
      the 1st of the month; for a week the Monday, or the Tuesday once the
      clock is past midnight. */
  function FirstDayAsWritten(period: string, now: Timestamp): int {
    if period == "monthly" then MonthFirstDay(now.date)
    else WeekFirstDayAsWritten(now)
  }

  /** The first day the weekly window of utils.py counts: the Monday when
      the clock reads midnight, the Tuesday otherwise. */
  function WeekFirstDayAsWritten(now: Timestamp): int {
    MondayOf(now.date) + (if now.micros > 0 then 1 else 0)
  }

  /** The first day of the period: the 1st of the month, or the Monday. */
  function FirstDay(period: string, today: Date): int {
    if period == "monthly" then MonthFirstDay(today) else MondayOf(today)
  }

  /** The last day of the period: the month's last day, or the Sunday. */
  function LastDay(period: string, today: Date): int {
    if period == "monthly" then MonthLastDay(today) else MondayOf(today) + 6
  }

  /** The monthly window counts the days of the current month. */
  lemma MonthWindowDays(today: Date)
    requires Valid(today)
    ensures MonthWindow(today).None? <==> today.year == MaxYear && today.month == 12
    ensures MonthWindow(today).Some? ==>
      var w := MonthWindow(today).value;
      && w.start.micros == 0 && w.end.micros == 0
      && FirstCountedDay(w) == MonthFirstDay(today) && Ordinal(w.end.date) == MonthLastDay(today)
  {
    MonthWindowSpansMonth(today);
  }

  /** The weekly window as written counts Monday through Sunday, without the
      Monday once the clock is past midnight. */
  lemma WeekWindowAsWrittenDays(now: Timestamp)
    requires ValidTimestamp(now)
    ensures WeekWindowAsWritten(now).None? <==> MondayOf(now.date) + 6 > MaxOrdinal
    ensures WeekWindowAsWritten(now).Some? ==>
      var w := WeekWindowAsWritten(now).value;
      && 0 <= w.start.micros && 0 <= w.end.micros
      && FirstCountedDay(w) == WeekFirstDayAsWritten(now)
      && Ordinal(w.end.date) == MondayOf(now.date) + 6
  {
    WeekWindowSpansWeek(now);
    WeekStartIsMonday(now.date);
    if WeekWindow(now).Some? {
      assert WeekWindowAsWritten(now).Some?;
      WeekWindowsShareDays(now);
    }
  }

  /** The corrected weekly window counts Monday through Sunday. */
  lemma WeekWindowDays(now: Timestamp)
    requires Valid(now.date)
    ensures WeekWindow(now).None? <==> MondayOf(now.date) + 6 > MaxOrdinal
    ensures WeekWindow(now).Some? ==>
      var w := WeekWindow(now).value;
      && w.start.micros == 0 && w.end.micros == 0
      && FirstCountedDay(w) == MondayOf(now.date) && Ordinal(w.end.date) == MondayOf(now.date) + 6
  {
    WeekWindowSpansWeek(now);
    WeekStartIsMonday(now.date);
  }

  /** Either window for a period of utils.py counts the days from its first
      day through the period's last day, and is missing exactly when it
      would overflow. */
  predicate CountsDays(window: Option<Window>, overflows: bool, first: int, last: int) {
    && (window.None? <==> overflows)
    && (window.Some? ==>
          && 0 <= window.value.start.micros && 0 <= window.value.end.micros
          && FirstCountedDay(window.value) == first && Ordinal(window.value.end.date) == last)
  }

  /** The answer for a known budget over a window that counts the days from
      `first` through `last`. */
  lemma ProgressInDays(amount: real, expenses: seq<Expense>, categoryId: int, userId: UserId,
                       window: Option<Window>, overflows: bool, first: int, last: int)
    requires CountsDays(window, overflows, first, last)
    ensures ProgressWithin(amount, expenses, categoryId, userId, window)
         == if overflows then Err(DateOverflow)
            else ProgressOf(amount, RangeSpent(expenses, categoryId, userId, first, last))
  {
  }

  /** The window of utils.py counts the month's days, or for a week the
      days from Monday (Tuesday past midnight) through Sunday. */
  lemma PeriodWindowAsWrittenDays(period: string, now: Timestamp)
    requires ValidTimestamp(now)
    ensures CountsDays(PeriodWindowAsWritten(period, now), WindowOverflows(period, now.date),
                       FirstDayAsWritten(period, now), LastDay(period, now.date))
  {
    if period == "monthly" {
      MonthWindowDays(now.date);
      assert PeriodWindowAsWritten(period, now) == MonthWindow(now.date);
      assert CountsDays(MonthWindow(now.date), now.date.year == MaxYear && now.date.month == 12,
                        MonthFirstDay(now.date), MonthLastDay(now.date));
    } else {
      WeekWindowAsWrittenDays(now);
      assert PeriodWindowAsWritten(period, now) == WeekWindowAsWritten(now);
      assert CountsDays(WeekWindowAsWritten(now), MondayOf(now.date) + 6 > MaxOrdinal,
                        WeekFirstDayAsWritten(now), MondayOf(now.date) + 6);
    }
  }

  /** The corrected window counts all the days of the month or the week. */
  lemma PeriodWindowDays(period: string, now: Timestamp)
    requires Valid(now.date)
    ensures CountsDays(PeriodWindow(period, now), WindowOverflows(period, now.date),
                       FirstDay(period, now.date), LastDay(period, now.date))
  {
    if period == "monthly" {
      MonthWindowDays(now.date);
      assert PeriodWindow(period, now) == MonthWindow(now.date);
      assert CountsDays(MonthWindow(now.date), now.date.year == MaxYear && now.date.month == 12,
                        MonthFirstDay(now.date), MonthLastDay(now.date));
    } else {
      WeekWindowDays(now);
      assert PeriodWindow(period, now) == WeekWindow(now);
      assert CountsDays(WeekWindow(now), MondayOf(now.date) + 6 > MaxOrdinal,
                        MondayOf(now.date), MondayOf(now.date) + 6);
    }
  }

  /** `calculate_budget_progress`, given the budget amount its first query
      returns (`None` when no budget row matches). The window is computed
      only once a budget exists, exactly as utils.py builds it: a weekly
      window keeps the current time of day, so past midnight it leaves out
      the Monday. */
  function CalculateBudgetProgress(budget: Option<real>, expenses: seq<Expense>, categoryId: int,
                                   period: string, userId: UserId, now: Timestamp): (r: ProgressResult)
    ensures budget.None? ==> r == Ok(BudgetProgress(0.0, 0.0))
    ensures budget.Some? && ValidTimestamp(now) ==>
      r == if WindowOverflows(period, now.date) then Err(DateOverflow)
           else ProgressOf(budget.value, RangeSpent(expenses, categoryId, userId, FirstDayAsWritten(period, now), LastDay(period, now.date)))
  {
    match budget
    case None => Ok(BudgetProgress(0.0, 0.0))
    case Some(amount) =>
      if ValidTimestamp(now) then
        PeriodWindowAsWrittenDays(period, now);
        ProgressInDays(amount, expenses, categoryId, userId, PeriodWindowAsWritten(period, now),
                       WindowOverflows(period, now.date), FirstDayAsWritten(period, now), LastDay(period, now.date));
        ProgressWithin(amount, expenses, categoryId, userId, PeriodWindowAsWritten(period, now))
      else ProgressWithin(amount, expenses, categoryId, userId, PeriodWindowAsWritten(period, now))
  }

  /** The calculator with the corrected weekly window, from Monday 00:00:
      a weekly budget counts every expense of the week. */
  function CalculateBudgetProgressIntended(budget: Option<real>, expenses: seq<Expense>, categoryId: int,
                                           period: string, userId: UserId, now: Timestamp): (r: ProgressResult)
    ensures budget.None? ==> r == Ok(BudgetProgress(0.0, 0.0))
    ensures budget.Some? && Valid(now.date) ==>
      r == if WindowOverflows(period, now.date) then Err(DateOverflow)
           else ProgressOf(budget.value, RangeSpent(expenses, categoryId, userId, FirstDay(period, now.date), LastDay(period, now.date)))
  {
    match budget
    case None => Ok(BudgetProgress(0.0, 0.0))
    case Some(amount) =>
      if Valid(now.date) then
        PeriodWindowDays(period, now);
        ProgressInDays(amount, expenses, categoryId, userId, PeriodWindow(period, now),
                       WindowOverflows(period, now.date), FirstDay(period, now.date), LastDay(period, now.date));
        ProgressWithin(amount, expenses, categoryId, userId, PeriodWindow(period, now))
      else ProgressWithin(amount, expenses, categoryId, userId, PeriodWindow(period, now))
  }

  /** The calculator's answer once the budget is known: an overflow, or the
      progress against what was spent in the window. */
  function ProgressWithin(amount: real, expenses: seq<Expense>, categoryId: int, userId: UserId, window: Option<Window>): ProgressResult {
    match window
    case None => Err(DateOverflow)
    case Some(w) => ProgressOf(amount, Spent(expenses, categoryId, userId, w))
  }

  /** An expense dated day `m` is outside days `m + 1` through `m + 6` and
      inside days `m` through `m + 6`. */
  lemma MondayRowSpent(e: Expense, m: int)
    requires Ordinal(e.date) == m
    ensures RangeSpent([e], e.categoryId, e.userId, m + 1, m + 6) == 0.0
    ensures RangeSpent([e], e.categoryId, e.userId, m, m + 6) == e.amount
  {
    assert [e][..0] == [];
  }

  /** The "no budget" answer (0, 0) never coincides with the answer for an
      actual positive budget: such a budget reports either some progress or
      some remaining amount. */
  lemma NoBudgetIsDistinguishable(amount: real, spent: real)
    requires amount > 0.0
    ensures ProgressOf(amount, spent) != Ok(BudgetProgress(0.0, 0.0))
  {
    if spent == 0.0 {
      assert ProgressOf(amount, spent).value.remaining == amount;
    } else {
      assert ProgressOf(amount, spent).value.progress * amount != 0.0;
    }
  }

  /** The monthly window runs from the first to the last day of the current
      month; it overflows only in December 9999. */
  lemma MonthWindowSpansMonth(today: Date)
    requires Valid(today)
    ensures MonthWindow(today).Some? <==> !(today.year == MaxYear && today.month == 12)
    ensures MonthWindow(today).Some? ==>
      && MonthWindow(today).value.start == Midnight(Date(today.year, today.month, 1))
      && MonthWindow(today).value.end == Midnight(Date(today.year, today.month, DaysInMonth(today.year, today.month)))
  {
    var y, m := today.year, today.month;
    var first := Date(y, m, 1);
    var dim := DaysInMonth(y, m);
    if y == MaxYear && m == 12 {
      AddDaysSpec(first, 32);
      assert Ordinal(first) == MaxOrdinal - 30;
    } else {
      var (ny, nm) := NextMonth(y, m);
      AddDaysIntoNextMonth(first, 32);
      assert AddDays(first, 32) == Some(Date(ny, nm, 33 - dim));
      var next := Date(ny, nm, 1);
      var last := Date(y, m, dim);
      assert PrevDay(next) == Some(last);
      assert AddDays(next, -1) == AddDays(last, 0);
    }
  }

  /** The week starts on the Monday on or before `today`, which always exists. */
  lemma WeekStartIsMonday(today: Date)
    requires Valid(today)
    ensures WeekStart(today).Some?
    ensures Valid(WeekStart(today).value)
    ensures Weekday(WeekStart(today).value) == 0
    ensures Ordinal(WeekStart(today).value) == Ordinal(today) - Weekday(today)
  {
    OrdinalRange(today);
    var o := Ordinal(today);
    var wd := Weekday(today);
    BackToMonday(o, wd);
    AddDaysSpec(today, -wd);
    assert WeekStart(today) == AddDays(today, -wd);
    var monday := AddDays(today, -wd).value;
    assert Valid(monday);
    var m := Ordinal(monday);
    assert m == o - wd;
    MondayNumber(o, wd, m);
    assert Weekday(monday) == (m + 6) % 7 == 0;
  }

  lemma MondayNumber(o: int, wd: int, m: int)
    requires (o - wd + 6) % 7 == 0 && m == o - wd
    ensures (m + 6) % 7 == 0
  {
  }

  /** Stepping back `wd = (o + 6) % 7` days from day number `o` reaches a
      day number whose weekday is 0, and stays at or after day 1. */
  lemma BackToMonday(o: int, wd: int)
    requires o >= 1 && wd == (o + 6) % 7
    ensures 0 <= wd < 7
    ensures o - wd >= 1
    ensures (o - wd + 6) % 7 == 0
  {
    var q := (o + 6) / 7;
    assert o + 6 == 7 * q + wd;
    assert o - wd + 6 == 7 * q;
  }

  /** The intended weekly window is Monday through the following Sunday and
      contains today; it overflows only in the last days of 9999. */
  lemma WeekWindowSpansWeek(now: Timestamp)
    requires Valid(now.date)
    ensures WeekWindow(now).Some? <==> Ordinal(now.date) - Weekday(now.date) + 6 <= MaxOrdinal
    ensures WeekWindow(now).Some? ==>
      var w := WeekWindow(now).value;
      && w.start.micros == 0 && w.end.micros == 0
      && Weekday(w.start.date) == 0
      && Ordinal(w.end.date) == Ordinal(w.start.date) + 6
      && InWindow(w, now.date)
  {
    WeekStartIsMonday(now.date);
    var monday := WeekStart(now.date).value;
    AddDaysSpec(monday, 6);
  }

  /** With the intended window, an expense of the right category and user is
      counted exactly when its date lies within the window's days. */
  lemma CountedIffWithinDays(e: Expense, categoryId: int, userId: UserId, w: Window)
    requires w.start.micros == 0 && w.end.micros == 0
    ensures Counted(e, categoryId, userId, w) <==>
      && e.categoryId == categoryId && e.userId == userId
      && Ordinal(w.start.date) <= Ordinal(e.date) <= Ordinal(w.end.date)
  {
  }

  /** As written, whenever the clock is past midnight the weekly window
      starts after Monday's midnight, so an expense dated that Monday is not
      counted: one such expense gives spent 0 instead of its amount. */
  lemma WeekWindowAsWrittenSkipsMonday(now: Timestamp, userId: UserId, categoryId: int, amount: real)
    requires ValidTimestamp(now) && now.micros > 0
    requires WeekWindowAsWritten(now).Some?
    ensures var w := WeekWindowAsWritten(now).value;
      var mondayExpense := [Expense(userId, amount, categoryId, w.start.date, "")];
      && !InWindow(w, w.start.date)
      && Spent(mondayExpense, categoryId, userId, w) == 0.0
      && WeekWindow(now).Some?
      && Spent(mondayExpense, categoryId, userId, WeekWindow(now).value) == amount
  {
    var w := WeekWindowAsWritten(now).value;
    var e := Expense(userId, amount, categoryId, w.start.date, "");
    WeekWindowAsWrittenDays(now);
    WeekWindowDays(now);
    InWindowDays(w, w.start.date);
    MondayRowSpent(e, MondayOf(now.date));
  }


  /** A weekly budget of 100 with one expense of 40 dated Monday 1 January
      2024, asked about at 10:00 on Wednesday 3 January: as written the
      Monday is not counted, so nothing is spent; the corrected window
      counts it. */
  lemma WeeklyBudgetMondayExample(userId: UserId, categoryId: int)
    ensures var monday := Expense(userId, 40.0, categoryId, Date(2024, 1, 1), "");
      var now := Timestamp(Date(2024, 1, 3), 36_000_000_000);
      && CalculateBudgetProgress(Some(100.0), [monday], categoryId, "weekly", userId, now) == Ok(BudgetProgress(0.0, 100.0))
      && CalculateBudgetProgressIntended(Some(100.0), [monday], categoryId, "weekly", userId, now) == Ok(BudgetProgress(40.0, 60.0))
  {
    var e := Expense(userId, 40.0, categoryId, Date(2024, 1, 1), "");
    var now := Timestamp(Date(2024, 1, 3), 36_000_000_000);
    assert "weekly"[0] != "monthly"[0];
    assert Ordinal(now.date) == 738888 && Weekday(now.date) == 2;
    var m := MondayOf(now.date);
    assert m == 738886 == Ordinal(e.date);
    assert ValidTimestamp(now) && !WindowOverflows("weekly", now.date);
    assert FirstDayAsWritten("weekly", now) == m + 1;
    assert FirstDay("weekly", now.date) == m && LastDay("weekly", now.date) == m + 6;
    MondayRowSpent(e, m);
    assert ProgressOf(100.0, 0.0) == Ok(BudgetProgress(0.0, 100.0));
    assert ProgressOf(100.0, 40.0) == Ok(BudgetProgress(40.0, 60.0));
  }

  /** Half a second past midnight is already past midnight: the same
      weekly budget asked at 00:00:00.5 on Wednesday 3 January 2024 still
      leaves the Monday out. */
  lemma WeeklyBudgetJustPastMidnight(userId: UserId, categoryId: int)
    ensures var monday := Expense(userId, 40.0, categoryId, Date(2024, 1, 1), "");
      var now := Timestamp(Date(2024, 1, 3), 500_000);
      CalculateBudgetProgress(Some(100.0), [monday], categoryId, "weekly", userId, now) == Ok(BudgetProgress(0.0, 100.0))
  {
    var e := Expense(userId, 40.0, categoryId, Date(2024, 1, 1), "");
    var now := Timestamp(Date(2024, 1, 3), 500_000);
    assert "weekly"[0] != "monthly"[0];
    assert Ordinal(now.date) == 738888 && Weekday(now.date) == 2;
    var m := MondayOf(now.date);
    assert m == 738886 == Ordinal(e.date);
    assert ValidTimestamp(now) && !WindowOverflows("weekly", now.date);
    assert FirstDayAsWritten("weekly", now) == m + 1;
    assert LastDay("weekly", now.date) == m + 6;
    MondayRowSpent(e, m);
    assert ProgressOf(100.0, 0.0) == Ok(BudgetProgress(0.0, 100.0));
  }

  /** The two weekly windows cover the same Monday and Sunday. */
  lemma WeekWindowsShareDays(now: Timestamp)
    requires WeekWindowAsWritten(now).Some?
    ensures WeekWindow(now).Some?
    ensures WeekWindow(now).value.start == Midnight(WeekWindowAsWritten(now).value.start.date)
    ensures WeekWindow(now).value.end == Midnight(WeekWindowAsWritten(now).value.end.date)
  {
  }
}
