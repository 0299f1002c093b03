/** The budget page (pages/budget.py): the form's input domain and the
    `INSERT ... ON CONFLICT (category_id, period) DO UPDATE` upsert, as a
    transition on the budgets table. */
module Budget {
  import opened Options
  import opened Calendar
  import opened Records
  import Utils

  datatype Period = Weekly | Monthly

  /** The strings the period selectbox offers and the table stores. */
  function PeriodName(p: Period): (s: string)
    ensures s == "weekly" || s == "monthly"
  {
    match p
    case Weekly => "weekly"
    case Monthly => "monthly"
  }

  function ParsePeriod(s: string): (r: Option<Period>)
    ensures r.Some? <==> s == "weekly" || s == "monthly"
  {
    if s == "weekly" then Some(Weekly) else if s == "monthly" then Some(Monthly) else None
  }

  lemma PeriodNameRoundTrip(p: Period, s: string)
    ensures ParsePeriod(PeriodName(p)) == Some(p)
    ensures ParsePeriod(s).Some? ==> PeriodName(ParsePeriod(s).value) == s
  {
  }

  /** A budgets row. The page's INSERT does not set `user_id`, so `owner`
      is None (SQL NULL) for every row it creates. */
  datatype BudgetRow = BudgetRow(categoryId: int, amount: real, period: Period, startDate: Date, owner: Option<UserId>)

  /** What the form submits. */
  datatype BudgetForm = BudgetForm(categoryId: int, amount: real, period: Period, startDate: Date)

  function Key(b: BudgetRow): (int, Period) {
    (b.categoryId, b.period)
  }

  /** The unique constraint the upsert's ON CONFLICT clause relies on. */
  predicate UniqueKeys(rows: seq<BudgetRow>) {
    forall i, j :: 0 <= i < j < |rows| ==> Key(rows[i]) != Key(rows[j])
  }

  predicate HasKey(rows: seq<BudgetRow>, k: (int, Period)) {
    exists i :: 0 <= i < |rows| && Key(rows[i]) == k
  }

  /** The upsert: a new row when no row has the form's key, otherwise the
      conflicting row's amount and start date are overwritten. */
  function SetBudget(rows: seq<BudgetRow>, f: BudgetForm): (r: seq<BudgetRow>)
    ensures HasKey(rows, (f.categoryId, f.period)) ==> |r| == |rows|
    ensures !HasKey(rows, (f.categoryId, f.period)) ==>
      r == rows + [BudgetRow(f.categoryId, f.amount, f.period, f.startDate, None)]
    ensures HasKey(rows, (f.categoryId, f.period)) ==> forall i :: 0 <= i < |rows| ==>
      r[i] == if Key(rows[i]) == (f.categoryId, f.period) then rows[i].(amount := f.amount, startDate := f.startDate) else rows[i]
  {
    var k := (f.categoryId, f.period);
    if HasKey(rows, k) then
      seq(|rows|, i requires 0 <= i < |rows| =>
        if Key(rows[i]) == k then rows[i].(amount := f.amount, startDate := f.startDate) else rows[i])
    else
      rows + [BudgetRow(f.categoryId, f.amount, f.period, f.startDate, None)]
  }

  /** The row for a key, as a `fetchone()` of a query on that key. */
  function Lookup(rows: seq<BudgetRow>, k: (int, Period)): (r: Option<BudgetRow>)
    ensures r.Some? ==> r.value in rows && Key(r.value) == k
    ensures r.None? <==> !HasKey(rows, k)
  {
    if |rows| == 0 then None
    else if Key(rows[0]) == k then Some(rows[0])
    else
      var r := Lookup(rows[1..], k);
      assert HasKey(rows, k) ==> HasKey(rows[1..], k) by {
        if HasKey(rows, k) {
          var i :| 0 <= i < |rows| && Key(rows[i]) == k;
          assert Key(rows[1..][i - 1]) == k;
        }
      }
      assert r.Some? ==> HasKey(rows, k) by {
        if r.Some? {
          var i :| 0 <= i < |rows[1..]| && rows[1..][i] == r.value;
          assert Key(rows[i + 1]) == k;
        }
      }
      r
  }

  /** An upsert keeps at most one row per (category, period). */
  lemma SetBudgetKeepsUnique(rows: seq<BudgetRow>, f: BudgetForm)
    requires UniqueKeys(rows)
    ensures UniqueKeys(SetBudget(rows, f))
  {
    var r := SetBudget(rows, f);
    if !HasKey(rows, (f.categoryId, f.period)) {
      forall i, j | 0 <= i < j < |r| ensures Key(r[i]) != Key(r[j]) {
        if j == |rows| {
          assert Key(r[i]) == Key(rows[i]);
        }
      }
    } else {
      forall i, j | 0 <= i < j < |r| ensures Key(r[i]) != Key(r[j]) {
        assert Key(r[i]) == Key(rows[i]) && Key(r[j]) == Key(rows[j]);
      }
    }
  }

  /** After an upsert, the key's row carries the form's amount and date. */
  lemma LookupAfterSet(rows: seq<BudgetRow>, f: BudgetForm)
    requires UniqueKeys(rows)
    ensures var b := Lookup(SetBudget(rows, f), (f.categoryId, f.period));
      b.Some? && b.value.amount == f.amount && b.value.startDate == f.startDate
  {
    var k := (f.categoryId, f.period);
    var r := SetBudget(rows, f);
    if HasKey(rows, k) {
      var i :| 0 <= i < |rows| && Key(rows[i]) == k;
      assert Key(r[i]) == k;
    } else {
      assert Key(r[|rows|]) == k;
    }
    assert HasKey(r, k);
    SetBudgetKeepsUnique(rows, f);
    var b := Lookup(r, k).value;
    var j :| 0 <= j < |r| && r[j] == b;
    if HasKey(rows, k) {
      assert r[j] == rows[j].(amount := f.amount, startDate := f.startDate);
    }
  }

  /** An upsert leaves every other key's row as it was. */
  lemma SetBudgetOthersUnchanged(rows: seq<BudgetRow>, f: BudgetForm, k: (int, Period))
    requires k != (f.categoryId, f.period)
    ensures Lookup(SetBudget(rows, f), k) == Lookup(rows, k)
  {
    var r := SetBudget(rows, f);
    if HasKey(rows, (f.categoryId, f.period)) {
      LookupPointwise(rows, r, f, k);
    } else {
      LookupSnoc(rows, BudgetRow(f.categoryId, f.amount, f.period, f.startDate, None), k);
    }
  }

  lemma {:induction false} LookupSnoc(rows: seq<BudgetRow>, b: BudgetRow, k: (int, Period))
    requires Key(b) != k
    ensures Lookup(rows + [b], k) == Lookup(rows, k)
    decreases |rows|
  {
    if |rows| == 0 {
      assert Lookup([b][1..], k) == None;
    } else {
      assert (rows + [b])[1..] == rows[1..] + [b];
      LookupSnoc(rows[1..], b, k);
    }
  }

  /** Rewriting only rows of another key does not change a lookup of `k`. */
  lemma {:induction false} LookupPointwise(rows: seq<BudgetRow>, r: seq<BudgetRow>, f: BudgetForm, k: (int, Period))
    requires k != (f.categoryId, f.period)
    requires |r| == |rows|
    requires forall i :: 0 <= i < |rows| ==>
      r[i] == if Key(rows[i]) == (f.categoryId, f.period) then rows[i].(amount := f.amount, startDate := f.startDate) else rows[i]
    ensures Lookup(r, k) == Lookup(rows, k)
    decreases |rows|
  {
    if |rows| > 0 {
      assert Key(r[0]) == Key(rows[0]);
      LookupPointwise(rows[1..], r[1..], f, k);
    }
  }

  /** Setting the same key twice is the same as setting it once to the
      later values. */
  lemma SetBudgetTwice(rows: seq<BudgetRow>, f: BudgetForm, g: BudgetForm)
    requires (f.categoryId, f.period) == (g.categoryId, g.period)
    ensures SetBudget(SetBudget(rows, f), g) == SetBudget(rows, g)
  {
    var k := (f.categoryId, f.period);
    var once := SetBudget(rows, f);
    if HasKey(rows, k) {
      var i :| 0 <= i < |rows| && Key(rows[i]) == k;
      assert Key(once[i]) == k;
    } else {
      assert Key(once[|rows|]) == k;
    }
  }

  /* ---------------- The form's domain ---------------- */

  /** What the form can submit: an expense category offered by the
      selectbox, an amount of at least 0.01 (`min_value`). The period is
      one of the two selectbox strings by construction of `Period`. */
  predicate ValidForm(categories: seq<Category>, f: BudgetForm) {
    && (exists c :: c in categories && c.id == f.categoryId && c.kind == ExpenseKind)
    && f.amount >= 0.01
  }

  predicate ValidRow(categories: seq<Category>, b: BudgetRow) {
    && (exists c :: c in categories && c.id == b.categoryId && c.kind == ExpenseKind)
    && b.amount >= 0.01
    && b.owner.None?
  }

  /** A sequence of successful submissions, in order. */
  function ApplyAll(rows: seq<BudgetRow>, forms: seq<BudgetForm>): seq<BudgetRow>
    decreases |forms|
  {
    if |forms| == 0 then rows else ApplyAll(SetBudget(rows, forms[0]), forms[1..])
  }

  /** From an empty table, any sequence of form submissions leaves at most
      one budget per (category, period), every one of them on an expense
      category, at least 0.01, and without an owner. */
  lemma {:induction false} ApplyAllInvariant(categories: seq<Category>, rows: seq<BudgetRow>, forms: seq<BudgetForm>)
    requires UniqueKeys(rows)
    requires forall b :: b in rows ==> ValidRow(categories, b)
    requires forall f :: f in forms ==> ValidForm(categories, f)
    ensures UniqueKeys(ApplyAll(rows, forms))
    ensures forall b :: b in ApplyAll(rows, forms) ==> ValidRow(categories, b)
    decreases |forms|
  {
    if |forms| > 0 {
      var f := forms[0];
      var next := SetBudget(rows, f);
      SetBudgetKeepsUnique(rows, f);
      assert f in forms;
      forall b | b in next ensures ValidRow(categories, b) {
        var i :| 0 <= i < |next| && next[i] == b;
        if i < |rows| {
          assert rows[i] in rows;
        }
      }
      assert forall g :: g in forms[1..] ==> g in forms;
      ApplyAllInvariant(categories, next, forms[1..]);
    }
  }

  /* ---------------- Reading a budget back ---------------- */

  /** The budget query of `calculate_budget_progress`: the amount of the
      first row for the category, period and user. A NULL `user_id` matches
      no user. */
  function UserBudgetAmount(rows: seq<BudgetRow>, categoryId: int, period: Period, userId: UserId): (r: Option<real>)
    ensures r.Some? <==> exists b :: b in rows && Key(b) == (categoryId, period) && b.owner == Some(userId)
    ensures r.Some? ==> exists b :: b in rows && Key(b) == (categoryId, period) && b.owner == Some(userId) && b.amount == r.value
  {
    if |rows| == 0 then None
    else if Key(rows[0]) == (categoryId, period) && rows[0].owner == Some(userId) then Some(rows[0].amount)
    else
      assert rows == [rows[0]] + rows[1..];
      UserBudgetAmount(rows[1..], categoryId, period, userId)
  }

  /** Budgets created only through this page carry no user, so the progress
      calculator finds none of them and reports the "no budget" (0, 0). */
  lemma PageBudgetsShowNoProgress(categories: seq<Category>, forms: seq<BudgetForm>,
                                  expenses: seq<Expense>, categoryId: int, period: Period,
                                  userId: UserId, now: Timestamp)
    requires forall f :: f in forms ==> ValidForm(categories, f)
    ensures var rows := ApplyAll([], forms);
      Utils.CalculateBudgetProgress(UserBudgetAmount(rows, categoryId, period, userId), expenses,
                                    categoryId, PeriodName(period), userId, now)
      == Utils.Ok(Utils.BudgetProgress(0.0, 0.0))
  {
    ApplyAllInvariant(categories, [], forms);
  }
}
