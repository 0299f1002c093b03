/** The administration page (pages/user_management.py): the admin gate, the
    self-protection rule, the cascading delete of a user and the admin
    toggle, over the users table and the six tables rows of which belong
    to a user. */
module UserManagement {
  import opened Options
  import opened Records
  import opened Auth
  import Collections

  /** A row of a user-owned table, reduced to what the DELETE looks at.
      `owner` is the `user_id` column; None is SQL NULL. */
  datatype OwnedRow = OwnedRow(id: int, owner: Option<UserId>)

  /** The tables the delete clears, in the order it clears them. */
  datatype TableName = IncomeTable | ExpensesTable | BudgetsTable | DebtsTable | PaymentSourcesTable | GoalsTable

  const OwnedTables: seq<TableName> :=
    [IncomeTable, ExpensesTable, BudgetsTable, DebtsTable, PaymentSourcesTable, GoalsTable]

  datatype Db = Db(users: seq<UserRow>, income: seq<OwnedRow>, expenses: seq<OwnedRow>, budgets: seq<OwnedRow>,
                   debts: seq<OwnedRow>, paymentSources: seq<OwnedRow>, goals: seq<OwnedRow>)

  function Table(db: Db, t: TableName): seq<OwnedRow> {
    match t
    case IncomeTable => db.income
    case ExpensesTable => db.expenses
    case BudgetsTable => db.budgets
    case DebtsTable => db.debts
    case PaymentSourcesTable => db.paymentSources
    case GoalsTable => db.goals
  }

  function WithTable(db: Db, t: TableName, rows: seq<OwnedRow>): (r: Db)
    ensures Table(r, t) == rows
    ensures r.users == db.users
    ensures forall t' :: t' != t ==> Table(r, t') == Table(db, t')
  {
    match t
    case IncomeTable => db.(income := rows)
    case ExpensesTable => db.(expenses := rows)
    case BudgetsTable => db.(budgets := rows)
    case DebtsTable => db.(debts := rows)
    case PaymentSourcesTable => db.(paymentSources := rows)
    case GoalsTable => db.(goals := rows)
  }

  /** Whether a row survives `DELETE ... WHERE user_id = target`. */
  predicate Keeps(target: UserId, row: OwnedRow) {
    row.owner != Some(target)
  }

  /** The loop `for table in tables: DELETE FROM table WHERE user_id = %s`. */
  function DeleteOwned(db: Db, tables: seq<TableName>, target: UserId): (r: Db)
    ensures r.users == db.users
    ensures forall t :: Table(r, t) == if t in tables then Purge(Table(db, t), target) else Table(db, t)
    decreases |tables|
  {
    if |tables| == 0 then db
    else
      var t := tables[0];
      var once := WithTable(db, t, Purge(Table(db, t), target));
      var r := DeleteOwned(once, tables[1..], target);
      assert forall u :: u in tables <==> u == t || u in tables[1..];
      PurgeIdempotent(Table(db, t), target);
      r
  }

  /** `DELETE FROM table WHERE user_id = target` on one table. */
  function Purge(rows: seq<OwnedRow>, target: UserId): (r: seq<OwnedRow>)
    ensures forall row :: row in r <==> row in rows && row.owner != Some(target)
  {
    Collections.Filter(rows, row => Keeps(target, row))
  }

  lemma {:induction false} PurgeIdempotent(rows: seq<OwnedRow>, target: UserId)
    ensures Purge(Purge(rows, target), target) == Purge(rows, target)
    decreases |rows|
  {
    var keep := row => Keeps(target, row);
    if |rows| > 0 {
      var init := rows[..|rows| - 1];
      var f := Collections.Filter(init, keep);
      PurgeIdempotent(init, target);
      if keep(rows[|rows| - 1]) {
        assert (f + [rows[|rows| - 1]])[..|f|] == f;
      }
    }
  }

  /** `UPDATE users SET is_admin = NOT is_admin WHERE id = %s`. */
  function ToggleAdmin(users: seq<UserRow>, target: UserId): (r: seq<UserRow>)
    ensures |r| == |users|
    ensures forall i :: 0 <= i < |users| ==>
      r[i] == if users[i].id == target then users[i].(isAdmin := !users[i].isAdmin) else users[i]
  {
    seq(|users|, i requires 0 <= i < |users| =>
      if users[i].id == target then users[i].(isAdmin := !users[i].isAdmin) else users[i])
  }

  /** Toggling twice restores the table. */
  lemma ToggleTwice(users: seq<UserRow>, target: UserId)
    ensures ToggleAdmin(ToggleAdmin(users, target), target) == users
  {
    var r := ToggleAdmin(ToggleAdmin(users, target), target);
    assert forall i :: 0 <= i < |users| ==> r[i] == users[i];
  }

  /** The two buttons. */
  datatype Action = Delete(target: UserId) | Toggle(target: UserId)

  function Target(a: Action): UserId {
    match a
    case Delete(t) => t
    case Toggle(t) => t
  }

  /** How a button press ends. `Protected` is the "Cannot modify your own
      account" case, where no button is offered. */
  datatype Outcome = Refused(reason: Halt) | Protected | Failed | Done

  /** The committed effect of a delete: the owned rows first, then the
      user row. */
  function DeleteUser(db: Db, target: UserId): (r: Db)
    ensures forall t :: Table(r, t) == Purge(Table(db, t), target)
    ensures forall u :: u in r.users <==> u in db.users && u.id != target
  {
    var cleared := DeleteOwned(db, OwnedTables, target);
    AllTablesOwned();
    var users := Collections.Filter(db.users, (u: UserRow) => u.id != target);
    TableIgnoresUsers(cleared, users);
    cleared.(users := users)
  }

  lemma TableIgnoresUsers(db: Db, users: seq<UserRow>)
    ensures forall t :: Table(db.(users := users), t) == Table(db, t)
  {
  }

  lemma AllTablesOwned()
    ensures forall t :: t in OwnedTables
  {
    forall t ensures t in OwnedTables {
      match t
      case IncomeTable => assert OwnedTables[0] == t;
      case ExpensesTable => assert OwnedTables[1] == t;
      case BudgetsTable => assert OwnedTables[2] == t;
      case DebtsTable => assert OwnedTables[3] == t;
      case PaymentSourcesTable => assert OwnedTables[4] == t;
      case GoalsTable => assert OwnedTables[5] == t;
    }
  }

  /** A button press on the page. The session passes `require_admin`
      first; the acting admin's own row offers no button; `fault` stands
      for an exception, after which nothing is committed. */
  function Handle(session: SessionEntry, db: Db, action: Action, fault: bool): (r: (Outcome, Db))
    ensures r.0 != Done ==> r.1 == db
    ensures r.0 == Done <==> RequireAdmin(session).1.Granted? && Target(action) != RequireAdmin(session).1.user.id && !fault
    ensures r.0.Refused? <==> RequireAdmin(session).1.Halted?
    ensures r.0 == Done && action.Delete? ==> r.1 == DeleteUser(db, action.target)
    ensures r.0 == Done && action.Toggle? ==> r.1 == db.(users := ToggleAdmin(db.users, action.target))
  {
    match RequireAdmin(session).1
    case Halted(reason) => (Refused(reason), db)
    case Granted(admin) =>
      if Target(action) == admin.id then (Protected, db)
      else if fault then (Failed, db)
      else match action
        case Delete(t) => (Done, DeleteUser(db, t))
        case Toggle(t) => (Done, db.(users := ToggleAdmin(db.users, t)))
  }

  /** Only an administrator's session changes anything. */
  lemma NonAdminChangesNothing(session: SessionEntry, db: Db, action: Action, fault: bool)
    requires !(session.Set? && session.user.Some? && session.user.value.isAdmin)
    ensures Handle(session, db, action, fault) == (Handle(session, db, action, fault).0, db)
    ensures Handle(session, db, action, fault).0.Refused?
  {
  }

  /** After a delete nothing of the deleted user remains, and every other
      row, in every table, is still there. */
  lemma DeleteIsComplete(db: Db, target: UserId)
    ensures forall t, row :: row in Table(DeleteUser(db, target), t) ==> row.owner != Some(target)
    ensures forall u :: u in DeleteUser(db, target).users ==> u.id != target
    ensures forall t, row :: row in Table(db, t) && row.owner != Some(target) ==> row in Table(DeleteUser(db, target), t)
    ensures forall u :: u in db.users && u.id != target ==> u in DeleteUser(db, target).users
  {
  }

  /** The acting administrator can never remove themselves nor lose their
      own admin flag: their row is in the table, unchanged, after any press. */
  lemma AdminSurvives(session: SessionEntry, db: Db, action: Action, fault: bool, me: UserRow)
    requires session.Set? && session.user.Some? && session.user.value.id == me.id
    requires me in db.users
    ensures me in Handle(session, db, action, fault).1.users
  {
    var r := Handle(session, db, action, fault);
    if r.0 == Done && action.Toggle? {
      var i :| 0 <= i < |db.users| && db.users[i] == me;
      assert r.1.users[i] == me;
    }
  }

  /** `ORDER BY created_at DESC`: all users, newest first. */
  function ListUsers(users: seq<UserRow>): (r: seq<UserRow>)
    ensures multiset(r) == multiset(users)
    ensures forall i, j :: 0 <= i < j < |r| ==> r[i].createdAt >= r[j].createdAt
  {
    var r := Collections.SortBy(users, (u: UserRow) => -u.createdAt);
    assert forall i, j :: 0 <= i < j < |r| ==> -r[i].createdAt <= -r[j].createdAt;
    r
  }
}
