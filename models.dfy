/**
 * Immutable validated records of the simulator (src/capstone_finance/core/models.py).
 * The records are datatypes: a value is never updated in place, so the frozen
 * configuration of the source holds by construction.
 */
module Models {
  import opened Wrappers

  /** The errors the core raises, by kind. */
  datatype Error =
    | ValueError(msg: string)
    | KeyError(key: string)
    | AttributeError(name: string)
    | ZeroDivisionError
    | ValidationError(fields: set<string>)

  /** One year of one simulation path. */
  datatype YearState = YearState(
    year: int,
    age: int,
    balance: real,
    inflation: real,
    withdrawalNominal: Option<real>)

  predicate ValidYearState(s: YearState) {
    s.age >= 0
  }

  /** Building a `YearState` validates `age >= 0`; the withdrawal is absent unless given. */
  function NewYearState(year: int, age: int, balance: real, inflation: real,
                        withdrawalNominal: Option<real> := None): (r: Result<YearState, Error>)
    ensures r.Success? <==> age >= 0
    ensures r.Success? ==>
              ValidYearState(r.value) && r.value.year == year && r.value.age == age &&
              r.value.balance == balance && r.value.inflation == inflation &&
              r.value.withdrawalNominal == withdrawalNominal
    ensures r.Failure? ==> r.error == ValidationError({"age"})
  {
    if age >= 0 then Success(YearState(year, age, balance, inflation, withdrawalNominal))
    else Failure(ValidationError({"age"}))
  }

  /** Portfolio parameters fixed for one run. */
  datatype PortfolioParams = PortfolioParams(
    initBalance: real,
    equityPct: real,
    feesBps: int,
    seed: int)

  const DefaultSeed: int := 42

  predicate ValidParams(p: PortfolioParams) {
    p.initBalance > 0.0 && 0.0 <= p.equityPct <= 1.0 && p.feesBps >= 0
  }

  /**
   * Building `PortfolioParams` checks every field constraint; a failure names
   * each field that fails, and the seed defaults to 42.
   */
  function NewPortfolioParams(initBalance: real, equityPct: real, feesBps: int,
                              seed: int := DefaultSeed): (r: Result<PortfolioParams, Error>)
    ensures r.Success? <==> (initBalance > 0.0 && 0.0 <= equityPct <= 1.0 && feesBps >= 0)
    ensures r.Success? ==>
              ValidParams(r.value) && r.value.initBalance == initBalance &&
              r.value.equityPct == equityPct && r.value.feesBps == feesBps && r.value.seed == seed
    ensures r.Failure? ==>
              && r.error.ValidationError?
              && r.error.fields <= {"init_balance", "equity_pct", "fees_bps"}
              && ("init_balance" in r.error.fields <==> !(initBalance > 0.0))
              && ("equity_pct" in r.error.fields <==> !(0.0 <= equityPct <= 1.0))
              && ("fees_bps" in r.error.fields <==> feesBps < 0)
  {
    var failing :=
      (if initBalance > 0.0 then {} else {"init_balance"}) +
      (if 0.0 <= equityPct <= 1.0 then {} else {"equity_pct"}) +
      (if feesBps >= 0 then {} else {"fees_bps"});
    if failing == {} then Success(PortfolioParams(initBalance, equityPct, feesBps, seed))
    else Failure(ValidationError(failing))
  }

  /** A zero balance with a 200% equity share fails on both fields at once. */
  lemma BothFailuresNamed()
    ensures NewPortfolioParams(0.0, 2.0, 50) == Failure(ValidationError({"init_balance", "equity_pct"}))
  {
    var r := NewPortfolioParams(0.0, 2.0, 50);
    assert r.Failure? && r.error.ValidationError?;
    assert forall x :: x in r.error.fields <==> x in {"init_balance", "equity_pct"};
    assert r.error.fields == {"init_balance", "equity_pct"};
  }

  lemma DefaultSeedIs42(initBalance: real, equityPct: real, feesBps: int)
    requires initBalance > 0.0 && 0.0 <= equityPct <= 1.0 && feesBps >= 0
    ensures NewPortfolioParams(initBalance, equityPct, feesBps).Success?
    ensures NewPortfolioParams(initBalance, equityPct, feesBps).value.seed == 42
  {
  }

  /** Loan parameters; `start` is the loan's start date, kept as its ISO text. */
  datatype LoanParams = LoanParams(
    principal: real,
    rate: real,
    termMonths: int,
    start: string)

  predicate ValidLoan(l: LoanParams) {
    l.principal > 0.0 && l.rate >= 0.0 && l.termMonths > 0
  }

  /** Building `LoanParams` checks every field constraint; a failure names each field that fails. */
  function NewLoanParams(principal: real, rate: real, termMonths: int, start: string): (r: Result<LoanParams, Error>)
    ensures r.Success? <==> (principal > 0.0 && rate >= 0.0 && termMonths > 0)
    ensures r.Success? ==> ValidLoan(r.value) && r.value == LoanParams(principal, rate, termMonths, start)
    ensures r.Failure? ==>
              && r.error.ValidationError?
              && r.error.fields <= {"principal", "rate", "term_months"}
              && ("principal" in r.error.fields <==> !(principal > 0.0))
              && ("rate" in r.error.fields <==> !(rate >= 0.0))
              && ("term_months" in r.error.fields <==> termMonths <= 0)
  {
    var failing :=
      (if principal > 0.0 then {} else {"principal"}) +
      (if rate >= 0.0 then {} else {"rate"}) +
      (if termMonths > 0 then {} else {"term_months"});
    if failing == {} then Success(LoanParams(principal, rate, termMonths, start))
    else Failure(ValidationError(failing))
  }

  /** `x` raised to the natural power `n`. */
  function Pow(x: real, n: nat): real {
    if n == 0 then 1.0 else x * Pow(x, n - 1)
  }

  lemma {:induction false} PowAboveOne(x: real, n: nat)
    requires x > 1.0 && n >= 1
    ensures Pow(x, n) > 1.0
  {
    if n > 1 {
      PowAboveOne(x, n - 1);
      assert x * Pow(x, n - 1) > 1.0 * Pow(x, n - 1);
    }
  }

  /**
   * The fixed monthly payment: principal / term for a zero rate, otherwise the
   * amortization formula P·r(1+r)^n / ((1+r)^n − 1) with r the monthly rate.
   */
  function MonthlyPayment(l: LoanParams): (pmt: real)
    requires ValidLoan(l)
    ensures pmt > 0.0
  {
    if l.rate == 0.0 then
      l.principal / (l.termMonths as real)
    else
      var r := l.rate / 12.0;
      var growth := Pow(1.0 + r, l.termMonths);
      PowAboveOne(1.0 + r, l.termMonths);
      assert l.principal * (r * growth) > 0.0;
      l.principal * (r * growth) / (growth - 1.0)
  }

  /** The balance still owed after `k` monthly payments of `pmt` at monthly rate `r`. */
  function Owed(principal: real, r: real, pmt: real, k: nat): real {
    if k == 0 then principal else Owed(principal, r, pmt, k - 1) * (1.0 + r) - pmt
  }

  /**
   * The closed form of the balance `o` owed once the principal has grown by a
   * factor `q`, scaled by the monthly rate `r`: r·o = r·P·q − pmt·(q − 1).
   */
  ghost predicate ClosedForm(principal: real, r: real, pmt: real, q: real, o: real) {
    r * o == r * principal * q - pmt * (q - 1.0)
  }

  lemma {:induction false} OwedClosedForm(principal: real, r: real, pmt: real, k: nat)
    ensures ClosedForm(principal, r, pmt, Pow(1.0 + r, k), Owed(principal, r, pmt, k))
  {
    if k > 0 {
      OwedClosedForm(principal, r, pmt, k - 1);
      OwedStep(principal, r, pmt, Pow(1.0 + r, k - 1), Owed(principal, r, pmt, k - 1),
               Pow(1.0 + r, k), Owed(principal, r, pmt, k));
    }
  }

  /** One month of the closed form: if it holds for balance `o` and growth `q`, it holds a month later. */
  lemma OwedStep(principal: real, r: real, pmt: real, q: real, o: real, q': real, o': real)
    requires ClosedForm(principal, r, pmt, q, o)
    requires q' == (1.0 + r) * q && o' == o * (1.0 + r) - pmt
    ensures ClosedForm(principal, r, pmt, q', o')
  {
    calc {
      r * o';
      (r * o) * (1.0 + r) - r * pmt;
      (r * principal * q - pmt * (q - 1.0)) * (1.0 + r) - r * pmt;
      r * principal * ((1.0 + r) * q) - pmt * ((1.0 + r) * q - 1.0);
    }
  }

  lemma {:induction false} OwedZeroRate(principal: real, pmt: real, k: nat)
    ensures Owed(principal, 0.0, pmt, k) == principal - (k as real) * pmt
  {
    if k > 0 {
      OwedZeroRate(principal, pmt, k - 1);
    }
  }

  /** Paying `MonthlyPayment` every month for the whole term repays the loan exactly. */
  lemma MonthlyPaymentAmortizes(l: LoanParams)
    requires ValidLoan(l)
    ensures Owed(l.principal, l.rate / 12.0, MonthlyPayment(l), l.termMonths) == 0.0
  {
    var pmt := MonthlyPayment(l);
    var n := l.termMonths;
    if l.rate == 0.0 {
      OwedZeroRate(l.principal, pmt, n);
      assert (n as real) * (l.principal / (n as real)) == l.principal;
    } else {
      var r := l.rate / 12.0;
      var g := Pow(1.0 + r, n);
      PowAboveOne(1.0 + r, n);
      OwedClosedForm(l.principal, r, pmt, n);
      assert pmt * (g - 1.0) == l.principal * (r * g);
      assert r * Owed(l.principal, r, pmt, n) == 0.0;
    }
  }

  lemma ZeroRatePayment(l: LoanParams)
    requires ValidLoan(l) && l.rate == 0.0
    ensures MonthlyPayment(l) * (l.termMonths as real) == l.principal
  {
  }
}
