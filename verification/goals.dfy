/** The goals page (pages/goals.py): creating a goal, updating its progress
    with the completed/in-progress rule, listing the user's goals by
    deadline, and the overall-progress summary. */
module Goals {
  import opened Options
  import opened Calendar
  import opened Records
  import Collections

  /** The `status` column: 'in_progress' or 'completed'. */
  datatype GoalStatus = InProgress | Completed

  datatype Priority = High | Medium | Low

  datatype GoalRow = GoalRow(id: int, userId: UserId, name: string, target: real, current: real,
                             deadline: Date, categoryId: Option<int>, priority: Priority,
                             status: GoalStatus, createdAt: Date)

  /** What the "Set Goals" form submits; `categoryId` is None for the
      "None" option. */
  datatype GoalForm = GoalForm(name: string, target: real, deadline: Date, categoryId: Option<int>, priority: Priority)

  /** The form's domain: a target of at least 0.01 and a deadline no earlier
      than today. */
  predicate ValidForm(f: GoalForm, today: Date) {
    f.target >= 0.01 && Ordinal(f.deadline) >= Ordinal(today)
  }

  /** The status the UPDATE's CASE expression assigns. */
  function StatusFor(amount: real, target: real): (s: GoalStatus)
    ensures s == Completed <==> amount >= target
  {
    if amount >= target then Completed else InProgress
  }

  /** A row whose status agrees with its amounts. */
  predicate Consistent(g: GoalRow) {
    g.status == StatusFor(g.current, g.target)
  }

  /** The row the INSERT creates: nothing saved yet, in progress, owned by
      the session user, created today. `id` is the fresh serial value. */
  function NewGoal(f: GoalForm, id: int, userId: UserId, today: Date): (g: GoalRow)
    ensures g.current == 0.0 && g.status == InProgress && g.userId == userId
    ensures g.id == id && g.createdAt == today
    ensures (g.name, g.target, g.deadline, g.categoryId, g.priority) == (f.name, f.target, f.deadline, f.categoryId, f.priority)
  {
    GoalRow(id, userId, f.name, f.target, 0.0, f.deadline, f.categoryId, f.priority, InProgress, today)
  }

  /** The submit handler: the row is appended, or on an exception nothing
      changes. */
  function AddGoal(goals: seq<GoalRow>, f: GoalForm, id: int, userId: UserId, today: Date, fault: bool): (r: seq<GoalRow>)
    ensures fault ==> r == goals
    ensures !fault ==> |r| == |goals| + 1 && r[..|goals|] == goals
    ensures !fault ==> var g := r[|goals|];
      g.id == id && g.userId == userId && g.current == 0.0 && g.status == InProgress && g.target == f.target
  {
    if fault then goals else goals + [NewGoal(f, id, userId, today)]
  }

  /** A goal created through the form starts out consistent. */
  lemma NewGoalConsistent(f: GoalForm, id: int, userId: UserId, today: Date)
    requires ValidForm(f, today)
    ensures Consistent(NewGoal(f, id, userId, today))
  {
  }

  /** `UPDATE financial_goals SET current_amount = .., status = CASE ..
      WHERE id = .. AND user_id = ..`. */
  function UpdateProgress(goals: seq<GoalRow>, goalId: int, userId: UserId, amount: real): (r: seq<GoalRow>)
    ensures |r| == |goals|
    ensures forall i :: 0 <= i < |goals| && (goals[i].id != goalId || goals[i].userId != userId) ==> r[i] == goals[i]
    ensures forall i :: 0 <= i < |goals| && goals[i].id == goalId && goals[i].userId == userId ==>
      && r[i].current == amount
      && (r[i].status == Completed <==> amount >= goals[i].target)
      && r[i].(current := goals[i].current, status := goals[i].status) == goals[i]
  {
    seq(|goals|, i requires 0 <= i < |goals| =>
      if goals[i].id == goalId && goals[i].userId == userId
      then goals[i].(current := amount, status := StatusFor(amount, goals[i].target))
      else goals[i])
  }

  /** Every update keeps every row's status in agreement with its amounts. */
  lemma UpdateKeepsConsistent(goals: seq<GoalRow>, goalId: int, userId: UserId, amount: real)
    requires forall g :: g in goals ==> Consistent(g)
    ensures forall g :: g in UpdateProgress(goals, goalId, userId, amount) ==> Consistent(g)
  {
    var r := UpdateProgress(goals, goalId, userId, amount);
    forall g | g in r ensures Consistent(g) {
      var i :| 0 <= i < |r| && r[i] == g;
      assert goals[i] in goals;
    }
  }

  /** Lowering a completed goal's amount below its target reopens it. */
  lemma LoweringReopens(goals: seq<GoalRow>, i: nat, amount: real)
    requires i < |goals| && goals[i].status == Completed
    requires amount < goals[i].target
    ensures UpdateProgress(goals, goals[i].id, goals[i].userId, amount)[i].status == InProgress
  {
  }

  /** Another user's goals never change, whatever id is submitted. */
  lemma UpdateIsUserScoped(goals: seq<GoalRow>, goalId: int, userId: UserId, amount: real, other: UserId)
    requires other != userId
    ensures Collections.Filter(UpdateProgress(goals, goalId, userId, amount), (g: GoalRow) => g.userId == other)
         == Collections.Filter(goals, (g: GoalRow) => g.userId == other)
  {
    var r := UpdateProgress(goals, goalId, userId, amount);
    FilterOwnerPointwise(goals, r, goalId, userId, amount, other);
  }

  lemma {:induction false} FilterOwnerPointwise(goals: seq<GoalRow>, r: seq<GoalRow>, goalId: int, userId: UserId, amount: real, other: UserId)
    requires other != userId
    requires |r| == |goals|
    requires forall i :: 0 <= i < |goals| ==> r[i] == if goals[i].id == goalId && goals[i].userId == userId
      then goals[i].(current := amount, status := StatusFor(amount, goals[i].target)) else goals[i]
    ensures Collections.Filter(r, (g: GoalRow) => g.userId == other) == Collections.Filter(goals, (g: GoalRow) => g.userId == other)
    decreases |goals|
  {
    if |goals| > 0 {
      var n := |goals| - 1;
      FilterOwnerPointwise(goals[..n], r[..n], goalId, userId, amount, other);
      assert r[n].userId == goals[n].userId;
      if goals[n].userId == other {
        assert r[n] == goals[n];
      }
    }
  }

  /* ---------------- Listing and summary ---------------- */

  /** `... WHERE g.user_id = %s ORDER BY g.deadline`: the user's goals, and
      only them, earliest deadline first. */
  function ListGoals(goals: seq<GoalRow>, userId: UserId): (r: seq<GoalRow>)
    ensures forall g :: g in r <==> g in goals && g.userId == userId
    ensures multiset(r) == multiset(Collections.Filter(goals, (g: GoalRow) => g.userId == userId))
    ensures forall i, j :: 0 <= i < j < |r| ==> Ordinal(r[i].deadline) <= Ordinal(r[j].deadline)
  {
    var mine := Collections.Filter(goals, (g: GoalRow) => g.userId == userId);
    var r := Collections.SortBy(mine, (g: GoalRow) => Ordinal(g.deadline));
    assert forall g :: g in r <==> g in mine by {
      forall g ensures g in r <==> g in mine {
        assert g in r <==> g in multiset(r);
        assert g in mine <==> g in multiset(mine);
      }
    }
    r
  }

  function TotalTarget(goals: seq<GoalRow>): real {
    Collections.SumBy(goals, (g: GoalRow) => g.target)
  }

  function TotalCurrent(goals: seq<GoalRow>): real {
    Collections.SumBy(goals, (g: GoalRow) => g.current)
  }

  /** The "Overall Progress" metric: total saved over total target, as a
      percentage, with no cap; 0 when the targets sum to zero or less. */
  function OverallProgress(goals: seq<GoalRow>): (r: real)
    ensures TotalTarget(goals) > 0.0 ==> r * TotalTarget(goals) == TotalCurrent(goals) * 100.0
    ensures TotalTarget(goals) <= 0.0 ==> r == 0.0
  {
    var tt := TotalTarget(goals);
    if tt > 0.0 then TotalCurrent(goals) / tt * 100.0 else 0.0
  }

  /** When no goal has more saved than its target, overall progress is at
      most 100%. */
  lemma OverallProgressBounded(goals: seq<GoalRow>)
    requires forall i :: 0 <= i < |goals| ==> 0.0 <= goals[i].current <= goals[i].target
    ensures 0.0 <= OverallProgress(goals) <= 100.0
  {
    Collections.SumByMonotone(goals, (g: GoalRow) => g.current, (g: GoalRow) => g.target);
    Collections.SumByNonNegative(goals, (g: GoalRow) => g.current);
    var tt, tc := TotalTarget(goals), TotalCurrent(goals);
    if tt > 0.0 {
      assert OverallProgress(goals) * tt == tc * 100.0;
      assert tc * 100.0 <= tt * 100.0;
    }
  }

  /** Unlike a single goal's progress, the overall figure is not capped: one
      goal saved to twice its target shows 200%. */
  lemma OverallProgressUncapped(g: GoalRow)
    requires g.target > 0.0 && g.current == 2.0 * g.target
    ensures OverallProgress([g]) == 200.0
  {
    var one := [g];
    assert one[..|one| - 1] == [];
    assert TotalTarget(one) == Collections.SumBy([], (x: GoalRow) => x.target) + g.target;
    assert TotalCurrent(one) == Collections.SumBy([], (x: GoalRow) => x.current) + g.current;
    assert g.current / g.target == 2.0;
  }
}
