/** The seeding step of `init_db` in database.py, as a transition on the
    categories table: the nine default categories are inserted only into an
    empty table, inside one transaction that an error rolls back. */
module Database {
  import opened Records

  /** The defaults as (name, type) pairs, in insertion order; none is custom. */
  const DefaultNames: seq<(string, CategoryKind)> := [
    ("Salary", IncomeKind), ("Bonus", IncomeKind), ("Freelance", IncomeKind),
    ("Housing", ExpenseKind), ("Transportation", ExpenseKind), ("Groceries", ExpenseKind),
    ("Healthcare", ExpenseKind), ("Entertainment", ExpenseKind), ("Education", ExpenseKind)
  ]

  /** The rows `executemany` inserts, numbered by the serial from `firstId`. */
  function DefaultCategories(firstId: int): (r: seq<Category>)
    ensures |r| == |DefaultNames|
    ensures forall i :: 0 <= i < |r| ==>
      r[i] == Category(firstId + i, DefaultNames[i].0, DefaultNames[i].1, false)
  {
    seq(|DefaultNames|, i requires 0 <= i < |DefaultNames| => Category(firstId + i, DefaultNames[i].0, DefaultNames[i].1, false))
  }

  /** How `init_db` ends: committed with the resulting table, or with the
      exception re-raised after a rollback. */
  datatype InitResult = Committed(categories: seq<Category>) | RolledBack

  /** `init_db`'s effect on the categories table. `fault` stands for an
      exception anywhere in the transaction; `firstId` is the next serial
      value. */
  function InitDb(categories: seq<Category>, firstId: int, fault: bool): (r: InitResult)
    ensures fault <==> r == RolledBack
    ensures r.Committed? && |categories| > 0 ==> r.categories == categories
    ensures r.Committed? && |categories| == 0 ==> r.categories == DefaultCategories(firstId)
    ensures r.Committed? ==> |r.categories| > 0
  {
    if fault then RolledBack
    else if |categories| == 0 then Committed(DefaultCategories(firstId))
    else Committed(categories)
  }

  /** The table left behind: the committed one, or the old one after a
      rollback. */
  function TableAfter(categories: seq<Category>, r: InitResult): seq<Category> {
    match r
    case Committed(t) => t
    case RolledBack => categories
  }

  function CountKind(cs: seq<Category>, kind: CategoryKind): nat {
    if |cs| == 0 then 0 else CountKind(cs[..|cs| - 1], kind) + (if cs[|cs| - 1].kind == kind then 1 else 0)
  }

  /** Seeding an empty table yields nine categories: three income and six
      expense, none custom. */
  lemma SeedContents(firstId: int)
    ensures var t := TableAfter([], InitDb([], firstId, false));
      && |t| == 9
      && CountKind(t, IncomeKind) == 3
      && CountKind(t, ExpenseKind) == 6
      && forall c :: c in t ==> !c.isCustom
  {
    var t := DefaultCategories(firstId);
    assert t == t[..3] + t[3..];
    CountKindAppend(t[..3], t[3..]);
    CountKindUniform(t[..3], IncomeKind);
    CountKindUniform(t[3..], ExpenseKind);
  }

  lemma {:induction false} CountKindAppend(a: seq<Category>, b: seq<Category>)
    ensures forall k :: CountKind(a + b, k) == CountKind(a, k) + CountKind(b, k)
    decreases |b|
  {
    if |b| == 0 {
      assert a + b == a;
    } else {
      assert (a + b)[..|a + b| - 1] == a + b[..|b| - 1];
      CountKindAppend(a, b[..|b| - 1]);
    }
  }

  /** In a run of categories all of one kind, that kind counts every row
      and the other kind none. */
  lemma {:induction false} CountKindUniform(cs: seq<Category>, kind: CategoryKind)
    requires forall i :: 0 <= i < |cs| ==> cs[i].kind == kind
    ensures forall k :: CountKind(cs, k) == if k == kind then |cs| else 0
    decreases |cs|
  {
    if |cs| > 0 {
      CountKindUniform(cs[..|cs| - 1], kind);
    }
  }

  /** Running `init_db` a second time changes nothing. */
  lemma InitDbIdempotent(categories: seq<Category>, firstId: int, secondId: int)
    ensures var once := TableAfter(categories, InitDb(categories, firstId, false));
      InitDb(once, secondId, false) == Committed(once)
  {
  }

  /** All or nothing: the table afterwards is either the table before or the
      fully committed result. */
  lemma InitDbAtomic(categories: seq<Category>, firstId: int, fault: bool)
    ensures var t := TableAfter(categories, InitDb(categories, firstId, fault));
      t == categories || t == DefaultCategories(firstId)
  {
  }
}
