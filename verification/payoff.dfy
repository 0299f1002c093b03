/** `calculate_debt_payoff` from utils.py: month by month, interest accrues
    on the balance, the payment (clamped on the last month to what is owed)
    reduces it, and the loop gives up after the 30-year cap. Amounts are
    exact reals. `Run` is the month-by-month reference definition;
    `CalculateDebtPayoff` is the loop, proved to compute it. */
module Payoff {

  /** The cap test `months > 360` runs after the month is counted, so a plan
      that never pays off reports `MaxMonths + 1` months. */
  const MaxMonths := 360

  /** The share of the balance charged as interest each month, for an annual
      percentage rate: `interest_rate / 12 / 100`. */
  function MonthlyRate(annualRate: real): real {
    annualRate / 12.0 / 100.0
  }

  /** The loop's variables. `paid` is not in the source: it accumulates the
      payments made, so that what `total_payment` reports can be compared
      with what was actually paid. */
  datatype LoopState = LoopState(months: nat, balance: real, totalInterest: real, payment: real, paid: real)

  /** The dictionary the calculator returns. */
  datatype PayoffPlan = PayoffPlan(months: nat, totalInterest: real, totalPayment: real)

  function Initial(principal: real, monthlyPayment: real): LoopState {
    LoopState(0, principal, 0.0, monthlyPayment, 0.0)
  }

  /** One pass of the loop body, before the cap test. */
  function Step(s: LoopState, rate: real): (t: LoopState) {
    var interest := s.balance * MonthlyRate(rate);
    var payment := if s.payment > s.balance + interest then s.balance + interest else s.payment;
    var principalPayment := payment - interest;
    LoopState(s.months + 1, s.balance - principalPayment, s.totalInterest + interest, payment, s.paid + payment)
  }

  /** A month counts one more month and adds its interest; the clamped
      payment never takes the balance below 0, and reaches 0 exactly when it
      covers balance plus interest; balance plus payments less interest is
      unchanged. */
  lemma StepFacts(s: LoopState, rate: real)
    ensures Step(s, rate).months == s.months + 1
    ensures Step(s, rate).totalInterest == s.totalInterest + s.balance * MonthlyRate(rate)
    ensures Step(s, rate).balance >= 0.0
    ensures Step(s, rate).balance == 0.0 <==> s.payment >= s.balance + s.balance * MonthlyRate(rate)
    ensures Step(s, rate).balance + Step(s, rate).paid - Step(s, rate).totalInterest == s.balance + s.paid - s.totalInterest
  {
  }

  /** The loop from state `s` to its exit: the balance is no longer positive,
      or the month count has passed the cap. */
  function Run(s: LoopState, rate: real): (t: LoopState)
    requires s.months <= MaxMonths
    decreases MaxMonths - s.months
  {
    if s.balance > 0.0 then
      var t := Step(s, rate);
      if t.months > MaxMonths then t else Run(t, rate)
    else s
  }

  /** The loop's exit state for the calculator's inputs. */
  function Final(principal: real, rate: real, monthlyPayment: real): LoopState {
    Run(Initial(principal, monthlyPayment), rate)
  }

  function Plan(principal: real, rate: real, monthlyPayment: real): PayoffPlan {
    var f := Final(principal, rate, monthlyPayment);
    PayoffPlan(f.months, f.totalInterest, principal + f.totalInterest)
  }

  /** `calculate_debt_payoff(principal, interest_rate, monthly_payment)`. */
  method CalculateDebtPayoff(principal: real, rate: real, monthlyPayment: real) returns (plan: PayoffPlan)
    ensures plan == Plan(principal, rate, monthlyPayment)
    ensures plan.months <= MaxMonths + 1
    ensures principal > 0.0 ==> plan.months >= 1
    ensures principal <= 0.0 ==> plan == PayoffPlan(0, 0.0, principal)
    ensures plan.totalPayment == principal + plan.totalInterest
  {
    var months: nat := 0;
    var balance := principal;
    var totalInterest := 0.0;
    var payment := monthlyPayment;
    ghost var paid := 0.0;
    while balance > 0.0
      invariant months <= MaxMonths
      invariant Run(LoopState(months, balance, totalInterest, payment, paid), rate) == Final(principal, rate, monthlyPayment)
      decreases MaxMonths - months
    {
      ghost var before := LoopState(months, balance, totalInterest, payment, paid);
      var interest := balance * MonthlyRate(rate);
      totalInterest := totalInterest + interest;
      if payment > balance + interest {
        payment := balance + interest;
      }
      var principalPayment := payment - interest;
      balance := balance - principalPayment;
      paid := paid + payment;
      months := months + 1;
      ghost var after := LoopState(months, balance, totalInterest, payment, paid);
      assert after == Step(before, rate);
      if months > MaxMonths {
        assert Run(before, rate) == after;
        break;
      }
      assert Run(before, rate) == Run(after, rate);
    }
    assert Final(principal, rate, monthlyPayment) == LoopState(months, balance, totalInterest, payment, paid);
    plan := PayoffPlan(months, totalInterest, principal + totalInterest);
    PlanBounds(principal, rate, monthlyPayment);
  }

  /** The plan's month count lies within the cap, is at least 1 for a
      positive principal, and a non-positive principal reports nothing. */
  lemma PlanBounds(principal: real, rate: real, monthlyPayment: real)
    ensures Plan(principal, rate, monthlyPayment).months <= MaxMonths + 1
    ensures principal > 0.0 ==> Plan(principal, rate, monthlyPayment).months >= 1
    ensures principal <= 0.0 ==> Plan(principal, rate, monthlyPayment) == PayoffPlan(0, 0.0, principal)
  {
    RunBounds(Initial(principal, monthlyPayment), rate);
  }

  /* ---------------- Properties of the loop ---------------- */

  /** The loop always stops, within the cap; it runs at least one month when
      there is a positive balance, and none otherwise. */
  lemma {:induction false} RunBounds(s: LoopState, rate: real)
    requires s.months <= MaxMonths
    ensures s.months <= Run(s, rate).months <= MaxMonths + 1
    ensures s.balance > 0.0 ==> Run(s, rate).months > s.months
    ensures s.balance <= 0.0 ==> Run(s, rate) == s
    decreases MaxMonths - s.months
  {
    if s.balance > 0.0 {
      var t := Step(s, rate);
      if t.months <= MaxMonths {
        RunBounds(t, rate);
      }
    }
  }

  /** The loop exits with a balance that is never negative (given a
      non-negative start), and a positive balance remains only when the cap
      was hit. */
  lemma {:induction false} RunExit(s: LoopState, rate: real)
    requires s.months <= MaxMonths
    requires s.balance >= 0.0
    ensures Run(s, rate).balance >= 0.0
    ensures Run(s, rate).balance > 0.0 ==> Run(s, rate).months == MaxMonths + 1
    decreases MaxMonths - s.months
  {
    if s.balance > 0.0 {
      var t := Step(s, rate);
      if t.months <= MaxMonths {
        RunExit(t, rate);
      }
    }
  }

  /** Balance plus payments made, less interest charged, never changes. */
  lemma {:induction false} RunConserves(s: LoopState, rate: real)
    requires s.months <= MaxMonths
    ensures Run(s, rate).balance + Run(s, rate).paid - Run(s, rate).totalInterest
         == s.balance + s.paid - s.totalInterest
    decreases MaxMonths - s.months
  {
    if s.balance > 0.0 {
      var t := Step(s, rate);
      if t.months <= MaxMonths {
        RunConserves(t, rate);
      }
    }
  }

  /** A plan that stops before the cap has paid the debt off exactly, and
      its `total_payment` is what was actually paid. */
  lemma PaidOffBeforeCap(principal: real, rate: real, monthlyPayment: real)
    requires principal >= 0.0
    requires Plan(principal, rate, monthlyPayment).months <= MaxMonths
    ensures Final(principal, rate, monthlyPayment).balance == 0.0
    ensures Plan(principal, rate, monthlyPayment).totalPayment == Final(principal, rate, monthlyPayment).paid
  {
    var s := Initial(principal, monthlyPayment);
    RunExit(s, rate);
    RunBounds(s, rate);
    RunConserves(s, rate);
  }

  /** A non-convergent state: the payment covers no more than the interest,
      so no month lowers the balance. */
  predicate Stuck(s: LoopState, rate: real) {
    s.balance > 0.0 && rate >= 0.0 && s.payment <= s.balance * MonthlyRate(rate)
  }

  lemma StepStuck(s: LoopState, rate: real)
    requires Stuck(s, rate)
    ensures Stuck(Step(s, rate), rate)
    ensures Step(s, rate).balance >= s.balance
  {
    var t := Step(s, rate);
    var interest := s.balance * MonthlyRate(rate);
    assert s.payment <= s.balance + interest;
    assert t.balance == s.balance + interest - s.payment;
    assert t.payment == s.payment;
    assert MonthlyRate(rate) >= 0.0;
    MultiplyMonotone(s.balance, t.balance, MonthlyRate(rate));
  }

  lemma MultiplyMonotone(a: real, b: real, c: real)
    requires a <= b && c >= 0.0
    ensures a * c <= b * c
  {
  }

  lemma {:induction false} RunStuck(s: LoopState, rate: real)
    requires s.months <= MaxMonths
    requires Stuck(s, rate)
    ensures Run(s, rate).months == MaxMonths + 1
    ensures Run(s, rate).balance >= s.balance
    decreases MaxMonths - s.months
  {
    var t := Step(s, rate);
    StepStuck(s, rate);
    if t.months <= MaxMonths {
      RunStuck(t, rate);
    }
  }

  /** When the first month's interest already uses up the payment, the
      balance never falls and the calculator reports the capped month count. */
  lemma NonConvergentHitsCap(principal: real, rate: real, monthlyPayment: real)
    requires principal > 0.0 && rate >= 0.0
    requires monthlyPayment <= principal * MonthlyRate(rate)
    ensures Plan(principal, rate, monthlyPayment).months == MaxMonths + 1
    ensures Final(principal, rate, monthlyPayment).balance >= principal
  {
    RunStuck(Initial(principal, monthlyPayment), rate);
  }

  /** A payment below the monthly interest: 1000 at 24% paying 10 a month
      reaches the cap. */
  lemma NonConvergentExample()
    ensures Plan(1000.0, 24.0, 10.0).months == MaxMonths + 1
  {
    NonConvergentHitsCap(1000.0, 24.0, 10.0);
  }
}
