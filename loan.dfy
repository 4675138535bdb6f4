/**
 * The loan calculator: a 3-point interest subsidy, the equated monthly
 * instalment (EMI) of an amortised loan and the totals derived from it,
 * over exact real arithmetic.
 */
module Loan {

  /** The annual rate in percent after the optional 3-point subsidy. */
  function EffectiveRate(rate: real, subsidy: bool): (eff: real)
    ensures !subsidy ==> eff == rate
    ensures subsidy ==> eff >= 0.0 && eff >= rate - 3.0
    ensures subsidy && rate >= 3.0 ==> eff == rate - 3.0
    ensures subsidy && rate <= 3.0 ==> eff == 0.0
    ensures rate >= 0.0 ==> 0.0 <= eff <= rate
  {
    if subsidy then (if rate - 3.0 > 0.0 then rate - 3.0 else 0.0) else rate
  }

  /** The monthly rate as a fraction: percent per year divided by 12 * 100. */
  function MonthlyRate(annualPercent: real): (r: real)
    ensures r * 1200.0 == annualPercent
    ensures r > 0.0 <==> annualPercent > 0.0
  {
    annualPercent / 1200.0
  }

  /** x raised to the power n: at least 1 for a base of at least 1, above 1 for a base above 1. */
  function Pow(x: real, n: nat): (p: real)
    ensures x >= 1.0 ==> p >= 1.0
    ensures x > 1.0 && n >= 1 ==> p > 1.0
  {
    if n == 0 then 1.0
    else
      var q := Pow(x, n - 1);
      assert x >= 1.0 ==> x * q >= q && x * q >= x by {
        if x >= 1.0 {
          MulMonotone(x, q);
        }
      }
      x * q
  }

  lemma MulMonotone(x: real, q: real)
    requires x >= 1.0 && q >= 1.0
    ensures x * q >= q && x * q >= x
  {
  }

  /**
   * The EMI for the given amount, monthly rate r and tenure of n months. It
   * solves the annuity equation e ((1 + r)^n - 1) = a r (1 + r)^n at a
   * positive rate, and e n = a (straight-line repayment) otherwise.
   */
  function Emi(amount: real, r: real, n: nat): (e: real)
    requires n >= 1
    ensures r > 0.0 ==> e * (Pow(1.0 + r, n) - 1.0) == amount * r * Pow(1.0 + r, n)
    ensures r <= 0.0 ==> e * n as real == amount
  {
    if r > 0.0 then
      DivThenMul(amount * r * Pow(1.0 + r, n), Pow(1.0 + r, n) - 1.0);
      amount * r * Pow(1.0 + r, n) / (Pow(1.0 + r, n) - 1.0)
    else
      DivThenMul(amount, n as real);
      amount / n as real
  }

  datatype Summary = Summary(emi: real, total: real, interest: real)

  /** The figures the calculator shows for a loan. */
  function ComputeLoan(amount: real, rate: real, tenure: nat, subsidy: bool): (s: Summary)
    requires tenure >= 1
    ensures s.emi == Emi(amount, MonthlyRate(EffectiveRate(rate, subsidy)), tenure)
    ensures s.total == s.emi * tenure as real
    ensures s.total == amount + s.interest
  {
    var emi := Emi(amount, MonthlyRate(EffectiveRate(rate, subsidy)), tenure);
    var total := emi * tenure as real;
    Summary(emi, total, total - amount)
  }

  /** What is still owed after k monthly payments of emi at monthly rate r. */
  function Balance(amount: real, r: real, emi: real, k: nat): real
  {
    if k == 0 then amount else Balance(amount, r, emi, k - 1) * (1.0 + r) - emi
  }

  // Facts of real arithmetic, stated over plain variables so that the
  // solver does not have to expand products of compound terms.

  lemma MulStrict(c: real, u: real, v: real)
    requires c > 0.0 && u < v
    ensures c * u < c * v
  {
  }

  lemma PositiveProduct(x: real, d: real)
    requires x > 0.0 && d > 0.0
    ensures x * d > 0.0
  {
  }

  lemma PositiveFromProduct(x: real, d: real)
    requires d > 0.0 && x * d > 0.0
    ensures x > 0.0
  {
  }

  lemma ZeroFromProduct(x: real, d: real)
    requires d != 0.0 && x * d == 0.0
    ensures x == 0.0
  {
  }

  lemma DivThenMul(a: real, d: real)
    requires d != 0.0
    ensures (a / d) * d == a
  {
  }

  /**
   * The closed form of a balance, multiplied through by r: b r = a r p - e (p - 1),
   * where p is the factor (1 + r)^k by which k months of interest grow the loan.
   */
  predicate ClosedForm(a: real, r: real, e: real, b: real, p: real)
  {
    b * r == a * r * p - e * (p - 1.0)
  }

  /** One month of the closed form carries over to the next balance. */
  lemma BalanceStep(a: real, r: real, e: real, b: real, p: real, b': real, p': real)
    requires ClosedForm(a, r, e, b, p)
    requires b' == b * (1.0 + r) - e && p' == (1.0 + r) * p
    ensures ClosedForm(a, r, e, b', p')
  {
  }

  /** One step of the growth bound p - 1 < m r p. */
  lemma GrowthStep(r: real, p: real, m: real)
    requires r > 0.0 && p >= 1.0 && m >= 0.0
    requires p - 1.0 < m * r * p
    ensures (1.0 + r) * p - 1.0 < (m + 1.0) * r * ((1.0 + r) * p)
  {
    var q := (1.0 + r) * p;
    assert q >= 1.0;
    MulStrict(1.0 + r, p - 1.0, m * r * p);
    assert q - 1.0 == (1.0 + r) * (p - 1.0) + r;
    assert r <= r * q;
    assert (1.0 + r) * (m * r * p) == m * r * q;
    assert (m + 1.0) * r * q == m * r * q + r * q;
  }

  /** From e (p - 1) = a r p and p - 1 < n r p follows e n > a. */
  lemma PaymentsExceedAmount(e: real, n: real, a: real, r: real, p: real)
    requires e * (p - 1.0) == a * r * p && p > 1.0 && a > 0.0 && p - 1.0 < n * r * p
    ensures e * n - a > 0.0
  {
    assert (e * n - a) * (p - 1.0) == n * (a * r * p) - a * (p - 1.0);
    assert n * (a * r * p) - a * (p - 1.0) == a * (n * r * p - (p - 1.0));
    PositiveProduct(n * r * p - (p - 1.0), a);
    PositiveFromProduct(e * n - a, p - 1.0);
  }

  /** The balance after k months in closed form (multiplied through by r). */
  lemma {:induction false} BalanceClosedForm(amount: real, r: real, emi: real, k: nat)
    ensures ClosedForm(amount, r, emi, Balance(amount, r, emi, k), Pow(1.0 + r, k))
  {
    if k > 0 {
      BalanceClosedForm(amount, r, emi, k - 1);
      BalanceStep(amount, r, emi, Balance(amount, r, emi, k - 1), Pow(1.0 + r, k - 1),
                  Balance(amount, r, emi, k), Pow(1.0 + r, k));
    }
  }

  lemma {:induction false} BalanceWithoutInterest(amount: real, emi: real, k: nat)
    ensures Balance(amount, 0.0, emi, k) == amount - k as real * emi
  {
    if k > 0 {
      BalanceWithoutInterest(amount, emi, k - 1);
    }
  }

  /** Compound growth outpaces simple interest: (1 + r)^n - 1 < n r (1 + r)^n. */
  lemma {:induction false} CompoundGrowthBound(r: real, n: nat)
    requires r > 0.0 && n >= 1
    ensures Pow(1.0 + r, n) - 1.0 < n as real * r * Pow(1.0 + r, n)
  {
    if n == 1 {
      assert Pow(1.0 + r, 1) == 1.0 + r;
      MulStrict(r, 1.0, 1.0 + r);
    } else {
      CompoundGrowthBound(r, n - 1);
      GrowthStep(r, Pow(1.0 + r, n - 1), (n - 1) as real);
    }
  }

  /**
   * The EMI amortises the loan: paying it every month for the whole tenure,
   * with interest charged monthly on what is owed, leaves nothing owed.
   */
  lemma EmiRepaysLoan(amount: real, rate: real, tenure: nat, subsidy: bool)
    requires tenure >= 1 && rate >= 0.0
    ensures Balance(amount, MonthlyRate(EffectiveRate(rate, subsidy)),
                    ComputeLoan(amount, rate, tenure, subsidy).emi, tenure) == 0.0
  {
    var r := MonthlyRate(EffectiveRate(rate, subsidy));
    var emi := ComputeLoan(amount, rate, tenure, subsidy).emi;
    if r > 0.0 {
      BalanceClosedForm(amount, r, emi, tenure);
      ZeroFromProduct(Balance(amount, r, emi, tenure), r);
    } else {
      BalanceWithoutInterest(amount, emi, tenure);
    }
  }

  /** At a positive monthly rate the n instalments together exceed the amount borrowed. */
  lemma InstalmentsExceedAmount(amount: real, r: real, n: nat)
    requires n >= 1 && r > 0.0 && amount > 0.0
    ensures Emi(amount, r, n) * n as real - amount > 0.0
  {
    PaymentsAtRateExceedAmount(Emi(amount, r, n), amount, r, n);
  }

  /** Any payment e with e ((1 + r)^n - 1) = a r (1 + r)^n, made n times, exceeds a. */
  lemma PaymentsAtRateExceedAmount(e: real, amount: real, r: real, n: nat)
    requires n >= 1 && r > 0.0 && amount > 0.0
    requires e * (Pow(1.0 + r, n) - 1.0) == amount * r * Pow(1.0 + r, n)
    ensures e * n as real - amount > 0.0
  {
    CompoundGrowthBound(r, n);
    PaymentsExceedAmount(e, n as real, amount, r, Pow(1.0 + r, n));
  }

  /**
   * Interest is charged exactly when the effective rate is positive: for a
   * positive amount and a non-negative rate the total interest is zero
   * when the effective rate is zero and positive otherwise.
   */
  lemma InterestIffPositiveRate(amount: real, rate: real, tenure: nat, subsidy: bool)
    requires tenure >= 1 && rate >= 0.0 && amount > 0.0
    ensures EffectiveRate(rate, subsidy) == 0.0 ==> ComputeLoan(amount, rate, tenure, subsidy).interest == 0.0
    ensures EffectiveRate(rate, subsidy) > 0.0 ==> ComputeLoan(amount, rate, tenure, subsidy).interest > 0.0
  {
    if EffectiveRate(rate, subsidy) > 0.0 {
      InstalmentsExceedAmount(amount, MonthlyRate(EffectiveRate(rate, subsidy)), tenure);
    } else {
      ZeroRateIsStraightLine(amount, rate, tenure, subsidy);
    }
  }

  /** With no interest the EMI is the straight-line share amount / tenure. */
  lemma ZeroRateIsStraightLine(amount: real, rate: real, tenure: nat, subsidy: bool)
    requires tenure >= 1 && EffectiveRate(rate, subsidy) == 0.0
    ensures ComputeLoan(amount, rate, tenure, subsidy).emi * tenure as real == amount
    ensures ComputeLoan(amount, rate, tenure, subsidy).total == amount
  {
  }

  /** With the subsidy, a nominal rate of at most 3% makes the loan interest-free. */
  lemma SubsidyUpToThreePercentIsInterestFree(amount: real, rate: real, tenure: nat)
    requires tenure >= 1 && rate <= 3.0
    ensures ComputeLoan(amount, rate, tenure, true).interest == 0.0
  {
    ZeroRateIsStraightLine(amount, rate, tenure, true);
  }
}
