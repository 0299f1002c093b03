/** The analytics page (pages/analytics.py): the inclusive date-range
    selection joined with category names, the summary totals and savings
    rate, the per-category groups and the combined income/expense trend. */
module Analytics {
  import opened Options
  import opened Calendar
  import opened Records
  import Collections
  import Utils

  /** An income or expense row as the page's queries read it. */
  datatype Entry = Entry(date: Date, amount: real, categoryId: int, necessity: Option<string>)

  function IncomeEntries(s: seq<Income>): (r: seq<Entry>)
    ensures |r| == |s|
    ensures forall i :: 0 <= i < |s| ==> r[i] == Entry(s[i].date, s[i].amount, s[i].categoryId, None)
  {
    seq(|s|, i requires 0 <= i < |s| => Entry(s[i].date, s[i].amount, s[i].categoryId, None))
  }

  function ExpenseEntries(s: seq<Expense>): (r: seq<Entry>)
    ensures |r| == |s|
    ensures forall i :: 0 <= i < |s| ==> r[i] == Entry(s[i].date, s[i].amount, s[i].categoryId, Some(s[i].necessity))
  {
    seq(|s|, i requires 0 <= i < |s| => Entry(s[i].date, s[i].amount, s[i].categoryId, Some(s[i].necessity)))
  }

  /** A row of the DataFrame: the entry with its category's name. */
  datatype Joined = Joined(date: Date, amount: real, category: string, necessity: Option<string>)

  /** `date BETWEEN start AND end` on dates: inclusive at both ends. */
  predicate InRange(start: Date, end: Date, d: Date) {
    DateLe(start, d) && DateLe(d, end)
  }

  /** Whether a row comes out of the query: in range, and its category
      exists (the inner JOIN drops rows whose category id has no name). */
  predicate Included(e: Entry, names: map<int, string>, start: Date, end: Date) {
    InRange(start, end, e.date) && e.categoryId in names
  }

  function JoinOf(e: Entry, names: map<int, string>): Joined
    requires e.categoryId in names
  {
    Joined(e.date, e.amount, names[e.categoryId], e.necessity)
  }

  /** The income or expense query, keeping table order. `names` is the
      categories table as a map from id to name. */
  function Select(entries: seq<Entry>, names: map<int, string>, start: Date, end: Date): (r: seq<Joined>)
    ensures |r| <= |entries|
    ensures forall j :: j in r ==> InRange(start, end, j.date)
    ensures forall e :: e in entries && Included(e, names, start, end) ==> JoinOf(e, names) in r
    ensures forall j :: j in r ==> exists e :: e in entries && Included(e, names, start, end) && j == JoinOf(e, names)
  {
    if |entries| == 0 then []
    else
      var init := entries[..|entries| - 1];
      var last := entries[|entries| - 1];
      var rest := Select(init, names, start, end);
      assert entries == init + [last];
      if Included(last, names, start, end) then rest + [JoinOf(last, names)] else rest
  }

  function Amount(j: Joined): real {
    j.amount
  }

  /** `df['amount'].sum()`: 0 for an empty frame. */
  function Total(rows: seq<Joined>): (r: real)
    ensures |rows| == 0 ==> r == 0.0
    ensures (forall i :: 0 <= i < |rows| ==> rows[i].amount >= 0.0) ==> r >= 0.0
  {
    if forall i :: 0 <= i < |rows| ==> rows[i].amount >= 0.0 then
      Collections.SumByNonNegative(rows, Amount);
      Collections.SumBy(rows, Amount)
    else Collections.SumBy(rows, Amount)
  }

  /** The total is the sum of the amounts of exactly the included rows. */
  lemma {:induction false} SelectTotal(entries: seq<Entry>, names: map<int, string>, start: Date, end: Date)
    ensures Total(Select(entries, names, start, end))
         == Collections.SumBy(entries, (e: Entry) => if Included(e, names, start, end) then e.amount else 0.0)
    decreases |entries|
  {
    if |entries| > 0 {
      var init := entries[..|entries| - 1];
      var last := entries[|entries| - 1];
      SelectTotal(init, names, start, end);
      if Included(last, names, start, end) {
        Collections.SumByAppend(Select(init, names, start, end), [JoinOf(last, names)], Amount);
        assert [JoinOf(last, names)][..0] == [];
      }
    }
  }

  /** With nothing in range the totals are 0. */
  lemma NothingSelectedTotalsZero(entries: seq<Entry>, names: map<int, string>, start: Date, end: Date)
    requires forall e :: e in entries ==> !InRange(start, end, e.date)
    ensures Total(Select(entries, names, start, end)) == 0.0
  {
    if |Select(entries, names, start, end)| > 0 {
      assert Select(entries, names, start, end)[0] in Select(entries, names, start, end);
    }
  }

  /** The savings rate: net savings as a percentage of income, or 0 when
      there is no positive income. */
  function SavingsRate(totalIncome: real, totalExpenses: real): (r: real)
    ensures totalIncome > 0.0 ==> r * totalIncome == Utils.MonthlySavings(totalIncome, totalExpenses) * 100.0
    ensures totalIncome <= 0.0 ==> r == 0.0
  {
    if totalIncome > 0.0 then (totalIncome - totalExpenses) / totalIncome * 100.0 else 0.0
  }

  /** With positive income the rate is at most 100% when expenses are not
      negative, and negative exactly when expenses exceed income. */
  lemma SavingsRateBounds(totalIncome: real, totalExpenses: real)
    requires totalIncome > 0.0
    ensures totalExpenses >= 0.0 ==> SavingsRate(totalIncome, totalExpenses) <= 100.0
    ensures SavingsRate(totalIncome, totalExpenses) < 0.0 <==> totalExpenses > totalIncome
  {
    var r := SavingsRate(totalIncome, totalExpenses);
    assert r * totalIncome == (totalIncome - totalExpenses) * 100.0;
    if r > 100.0 {
      assert r * totalIncome > 100.0 * totalIncome;
    }
    if r < 0.0 {
      assert r * totalIncome < 0.0;
    }
    if totalExpenses > totalIncome {
      assert r * totalIncome < 0.0;
    }
  }

  /* ---------------- Groupings ---------------- */

  function Category(j: Joined): string {
    j.category
  }

  /** `groupby('category')['amount'].sum()`: one group per category
      present, whose amount is the total of that category's rows. */
  function ByCategory(rows: seq<Joined>): (r: seq<Collections.Group<string>>)
    ensures Collections.DistinctKeys(r)
    ensures Collections.KeySet(r) == Collections.RowKeys(rows, Category)
    ensures forall i :: 0 <= i < |r| ==> r[i].total == Total(Collections.Filter(rows, Collections.WithKey(Category, r[i].key)))
  {
    Collections.GroupByPartitions(rows, Category, Amount);
    Collections.GroupBy(rows, Category, Amount)
  }

  /** The category groups partition the selected rows: one group per
      category present, each the total of exactly its category's rows, and
      their sums add up to the overall total. */
  lemma ByCategoryPartitions(rows: seq<Joined>)
    ensures Collections.GroupTotals(ByCategory(rows)) == Total(rows)
    ensures Collections.KeySet(ByCategory(rows)) == Collections.RowKeys(rows, Category)
    ensures |ByCategory(rows)| == |Collections.RowKeys(rows, Category)|
    ensures forall i :: 0 <= i < |ByCategory(rows)| ==>
      ByCategory(rows)[i].total == Total(Collections.Filter(rows, Collections.WithKey(Category, ByCategory(rows)[i].key)))
  {
    Collections.GroupByPartitions(rows, Category, Amount);
  }

  function Day(j: Joined): Date {
    j.date
  }

  /** `groupby('date')['amount'].sum()`: one group per date present, whose
      amount is the total of that date's rows. */
  function ByDate(rows: seq<Joined>): (r: seq<Collections.Group<Date>>)
    ensures Collections.DistinctKeys(r)
    ensures Collections.KeySet(r) == Collections.RowKeys(rows, Day)
    ensures |r| == |Collections.RowKeys(rows, Day)|
    ensures Collections.GroupTotals(r) == Total(rows)
    ensures forall i :: 0 <= i < |r| ==> r[i].total == Total(Collections.Filter(rows, Collections.WithKey(Day, r[i].key)))
  {
    Collections.GroupByPartitions(rows, Day, Amount);
    Collections.GroupBy(rows, Day, Amount)
  }

  /** The `type` column added to each trend. */
  datatype TrendKind = IncomeTrend | ExpenseTrend

  datatype TrendPoint = TrendPoint(date: Date, amount: real, kind: TrendKind)

  function Tag(groups: seq<Collections.Group<Date>>, kind: TrendKind): (r: seq<TrendPoint>)
    ensures |r| == |groups|
    ensures forall i :: 0 <= i < |groups| ==> r[i] == TrendPoint(groups[i].key, groups[i].total, kind)
  {
    seq(|groups|, i requires 0 <= i < |groups| => TrendPoint(groups[i].key, groups[i].total, kind))
  }

  /** `pd.concat([income_trend, expense_trend])`: first one income point
      per income date, then one expense point per expense date, each
      carrying the total of that date's rows of its kind. */
  function CombinedTrend(income: seq<Joined>, expenses: seq<Joined>): (r: seq<TrendPoint>)
    ensures |r| == |Collections.RowKeys(income, Day)| + |Collections.RowKeys(expenses, Day)|
    ensures forall i :: 0 <= i < |Collections.RowKeys(income, Day)| ==>
      r[i].kind == IncomeTrend && r[i].amount == Total(Collections.Filter(income, Collections.WithKey(Day, r[i].date)))
    ensures forall i :: |Collections.RowKeys(income, Day)| <= i < |r| ==>
      r[i].kind == ExpenseTrend && r[i].amount == Total(Collections.Filter(expenses, Collections.WithKey(Day, r[i].date)))
  {
    Tag(ByDate(income), IncomeTrend) + Tag(ByDate(expenses), ExpenseTrend)
  }

  function DatesOf(points: seq<TrendPoint>, kind: TrendKind): set<Date> {
    set p | p in points && p.kind == kind :: p.date
  }

  /** The combined trend has one income point per distinct income date and
      one expense point per distinct expense date, each kind's dates
      distinct, each point's amount the total of its date's rows of its
      kind, and each kind's amounts adding up to that kind's total. */
  lemma CombinedTrendShape(income: seq<Joined>, expenses: seq<Joined>)
    ensures var r := CombinedTrend(income, expenses);
      var n := |Collections.RowKeys(income, Day)|;
      && |r| == n + |Collections.RowKeys(expenses, Day)|
      && (forall i :: 0 <= i < n ==> r[i].kind == IncomeTrend)
      && (forall i :: n <= i < |r| ==> r[i].kind == ExpenseTrend)
      && (forall i, j :: 0 <= i < j < |r| && r[i].kind == r[j].kind ==> r[i].date != r[j].date)
      && DatesOf(r, IncomeTrend) == Collections.RowKeys(income, Day)
      && DatesOf(r, ExpenseTrend) == Collections.RowKeys(expenses, Day)
      && (forall i :: 0 <= i < n ==> r[i].amount == Total(Collections.Filter(income, Collections.WithKey(Day, r[i].date))))
      && (forall i :: n <= i < |r| ==> r[i].amount == Total(Collections.Filter(expenses, Collections.WithKey(Day, r[i].date))))
      && Collections.GroupTotals(ByDate(income)) == Total(income)
      && Collections.GroupTotals(ByDate(expenses)) == Total(expenses)
  {
    var gi, ge := ByDate(income), ByDate(expenses);
    TrendDistinct(gi, ge);
    DatesOfAppend(Tag(gi, IncomeTrend), Tag(ge, ExpenseTrend));
    DatesOfTag(gi, IncomeTrend);
    DatesOfTag(gi, ExpenseTrend);
    DatesOfTag(ge, IncomeTrend);
    DatesOfTag(ge, ExpenseTrend);
  }

  /** Within each kind, the concatenated trend repeats no date. */
  lemma TrendDistinct(gi: seq<Collections.Group<Date>>, ge: seq<Collections.Group<Date>>)
    requires Collections.DistinctKeys(gi) && Collections.DistinctKeys(ge)
    ensures var r := Tag(gi, IncomeTrend) + Tag(ge, ExpenseTrend);
      forall i, j :: 0 <= i < j < |r| && r[i].kind == r[j].kind ==> r[i].date != r[j].date
  {
    var ti, te := Tag(gi, IncomeTrend), Tag(ge, ExpenseTrend);
    var r := ti + te;
    forall i, j | 0 <= i < j < |r| && r[i].kind == r[j].kind ensures r[i].date != r[j].date {
      if j < |ti| {
        assert r[i].date == gi[i].key && r[j].date == gi[j].key;
      } else {
        assert i >= |ti|;
        assert r[i].date == ge[i - |ti|].key && r[j].date == ge[j - |ti|].key;
      }
    }
  }

  lemma DatesOfAppend(a: seq<TrendPoint>, b: seq<TrendPoint>)
    ensures forall k :: DatesOf(a + b, k) == DatesOf(a, k) + DatesOf(b, k)
  {
    assert forall p :: p in a + b <==> p in a || p in b;
  }

  /** Tagging groups with a kind gives that kind exactly the group keys,
      and the other kind nothing. */
  lemma DatesOfTag(g: seq<Collections.Group<Date>>, kind: TrendKind)
    ensures forall k :: DatesOf(Tag(g, kind), k) == if k == kind then Collections.KeySet(g) else {}
  {
    var t := Tag(g, kind);
    forall d | d in Collections.KeySet(g) ensures d in DatesOf(t, kind) {
      Collections.KeySetMember(g, d);
      var i :| 0 <= i < |g| && g[i].key == d;
      assert t[i] == TrendPoint(d, g[i].total, kind);
    }
    forall d | d in DatesOf(t, kind) ensures d in Collections.KeySet(g) {
      var p :| p in t && p.kind == kind && p.date == d;
      var i :| 0 <= i < |t| && t[i] == p;
      Collections.KeySetMember(g, d);
    }
  }
}
