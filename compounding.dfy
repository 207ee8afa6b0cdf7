/** Monthly compounding: one month credits growth at a fixed rate and then
    adds the contribution (an ordinary annuity). All amounts are `real`, an
    idealisation of the double-precision arithmetic of the calculator. */
module Compounding {

  /** The balance after one month: growth first, then the contribution. */
  function Step(balance: real, rate: real, contribution: real): real {
    balance * (1.0 + rate) + contribution
  }

  /** The balance after `n` consecutive months, starting from `balance`. */
  function Iterate(balance: real, rate: real, contribution: real, n: nat): real {
    if n == 0 then balance else Step(Iterate(balance, rate, contribution, n - 1), rate, contribution)
  }

  function Pow(x: real, n: nat): real {
    if n == 0 then 1.0 else Pow(x, n - 1) * x
  }

  /** Running `m` months and then `n` more is running `m + n` months:
      the yearly samples of the calculator can be read off one another. */
  lemma {:induction false} IterateAdd(balance: real, rate: real, contribution: real, m: nat, n: nat)
    ensures Iterate(balance, rate, contribution, m + n)
         == Iterate(Iterate(balance, rate, contribution, m), rate, contribution, n)
  {
    if n > 0 {
      IterateAdd(balance, rate, contribution, m, n - 1);
      assert m + n - 1 == m + (n - 1);
    }
  }

  /** At a zero rate the balance grows linearly: the start plus one
      contribution per month. */
  lemma {:induction false} IterateZeroRate(balance: real, contribution: real, n: nat)
    ensures Iterate(balance, 0.0, contribution, n) == balance + contribution * (n as real)
  {
    if n > 0 {
      IterateZeroRate(balance, contribution, n - 1);
    }
  }

  /** The closed form of the annuity, multiplied through by the rate so
      that it holds for every rate: r x_n = (r b + c)(1+r)^n - c. */
  lemma {:induction false} IterateScaledClosedForm(balance: real, rate: real, contribution: real, n: nat)
    ensures rate * Iterate(balance, rate, contribution, n)
         == (rate * balance + contribution) * Pow(1.0 + rate, n) - contribution
  {
    if n > 0 {
      IterateScaledClosedForm(balance, rate, contribution, n - 1);
      var x := Iterate(balance, rate, contribution, n - 1);
      var p := Pow(1.0 + rate, n - 1);
      var a := rate * balance + contribution;
      assert Iterate(balance, rate, contribution, n) == x * (1.0 + rate) + contribution;
      assert Pow(1.0 + rate, n) == p * (1.0 + rate);
      GrowthStepAlgebra(x, rate, contribution, a, p);
    }
  }

  /** One month of the scaled closed form, as plain algebra. */
  lemma GrowthStepAlgebra(x: real, r: real, c: real, a: real, p: real)
    requires r * x == a * p - c
    ensures r * (x * (1.0 + r) + c) == a * (p * (1.0 + r)) - c
  {
  }

  /** The textbook closed form for a non-zero rate:
      b(1+r)^n + c((1+r)^n - 1)/r. */
  lemma IterateClosedForm(balance: real, rate: real, contribution: real, n: nat)
    requires rate != 0.0
    ensures Iterate(balance, rate, contribution, n)
         == balance * Pow(1.0 + rate, n) + contribution * (Pow(1.0 + rate, n) - 1.0) / rate
  {
    IterateScaledClosedForm(balance, rate, contribution, n);
  }

  /** With a non-negative rate and non-negative amounts, the balance is at
      least what was paid in: the start plus all contributions. */
  lemma {:induction false} IterateAtLeastPaidIn(balance: real, rate: real, contribution: real, n: nat)
    requires rate >= 0.0 && balance >= 0.0 && contribution >= 0.0
    ensures Iterate(balance, rate, contribution, n) >= balance + contribution * (n as real)
  {
    if n > 0 {
      IterateAtLeastPaidIn(balance, rate, contribution, n - 1);
      var x := Iterate(balance, rate, contribution, n - 1);
      assert x >= 0.0;
      MulNonNegative(x, rate);
    }
  }

  /** Under the same conditions the balance never decreases from one month
      to a later one. */
  lemma {:induction false} IterateNonDecreasing(balance: real, rate: real, contribution: real, m: nat, n: nat)
    requires rate >= 0.0 && balance >= 0.0 && contribution >= 0.0
    requires m <= n
    ensures Iterate(balance, rate, contribution, m) <= Iterate(balance, rate, contribution, n)
  {
    if m < n {
      IterateNonDecreasing(balance, rate, contribution, m, n - 1);
      var x := Iterate(balance, rate, contribution, n - 1);
      IterateAtLeastPaidIn(balance, rate, contribution, n - 1);
      assert x >= 0.0;
      MulNonNegative(x, rate);
    }
  }

  /** With a rate between -100% and 0 per month and no contribution, a
      non-negative balance decays: it stays non-negative and never grows from
      one month to a later one. */
  lemma {:induction false} IterateDecays(balance: real, rate: real, m: nat, n: nat)
    requires -1.0 <= rate <= 0.0 && balance >= 0.0
    requires m <= n
    ensures 0.0 <= Iterate(balance, rate, 0.0, n) <= Iterate(balance, rate, 0.0, m)
  {
    if n > 0 {
      var x := Iterate(balance, rate, 0.0, n - 1);
      if m < n {
        IterateDecays(balance, rate, m, n - 1);
      } else {
        IterateDecays(balance, rate, 0, n - 1);
      }
      assert x >= 0.0 && 1.0 + rate >= 0.0;
      MulNonNegative(x, -rate);
      MulNonNegative(x, 1.0 + rate);
      assert Iterate(balance, rate, 0.0, n) == x * (1.0 + rate);
    }
  }

  /** With a positive rate and something invested, two or more months earn
      a strictly positive return over what was paid in. */
  lemma IterateStrictGain(balance: real, rate: real, contribution: real, n: nat)
    requires rate > 0.0 && balance >= 0.0 && contribution >= 0.0
    requires balance > 0.0 || contribution > 0.0
    requires n >= 2
    ensures Iterate(balance, rate, contribution, n) > balance + contribution * (n as real)
  {
    var x := Iterate(balance, rate, contribution, n - 1);
    IterateAtLeastPaidIn(balance, rate, contribution, n - 1);
    assert x >= balance + contribution * ((n - 1) as real);
    assert x > 0.0;
    MulPositive(x, rate);
  }

  /** With a negative rate there is one level, -c/r, at which the loss to the
      rate equals the contribution: a month lowers a balance above it and
      raises a balance below it. */
  lemma StepAgainstLevel(balance: real, rate: real, contribution: real)
    requires rate < 0.0
    ensures Step(balance, rate, contribution) < balance <==> balance > -contribution / rate
    ensures Step(balance, rate, contribution) > balance <==> balance < -contribution / rate
  {
    var level := -contribution / rate;
    assert level * rate == -contribution;
    assert Step(balance, rate, contribution) - balance == (balance - level) * rate;
    if balance > level {
      MulPositive(balance - level, -rate);
    } else if balance < level {
      MulPositive(level - balance, -rate);
    }
  }

  lemma MulNonNegative(a: real, b: real)
    requires a >= 0.0 && b >= 0.0
    ensures a * b >= 0.0
  {
  }

  lemma MulPositive(a: real, b: real)
    requires a > 0.0 && b > 0.0
    ensures a * b > 0.0
  {
  }
}
