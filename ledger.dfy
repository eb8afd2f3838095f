/**
 * The cash-flow ledger (src/capstone_finance/core/ledger.py): for every path and
 * every year, ask the strategy for a withdrawal, take it and the tax on it out
 * of the balance, apply the fee factor and the year's market return, and floor
 * the balance at zero. The returns matrix is the one the market simulator
 * generates for the run; the tax engine is an optional function value.
 */
module Ledger {
  import opened Wrappers
  import opened Models
  import opened Numeric
  import opened Strategies

  const StartingAge: int := 65
  const StartingYear: int := 2024

  /** `(withdrawal, balance after the withdrawal) -> tax owed`, or the error it raises. */
  type TaxEngine = (real, real) -> Result<real, Error>

  /** The annual fee, given in basis points, as the factor that multiplies the balance. */
  function FeeFactor(feesBps: int): (f: real)
    ensures (1.0 - f) * 10000.0 == feesBps as real
    ensures 0 <= feesBps <= 10000 ==> 0.0 <= f <= 1.0
  {
    1.0 - (feesBps as real) / 10000.0
  }

  lemma FeeFactorValues()
    ensures FeeFactor(0) == 1.0
    ensures FeeFactor(50) == 0.995
    ensures FeeFactor(100) == 0.99
  {
  }

  /** `_no_tax`, the engine used when none is given. */
  function NoTax(withdrawal: real, balance: real): (t: Result<real, Error>)
    ensures t.Success? && t.value == 0.0
  {
    Success(0.0)
  }

  /** The tax on a withdrawal: the engine is consulted only for a positive withdrawal. */
  function TaxOwed(tax: Option<TaxEngine>, withdrawal: real, balance: real): (t: Result<real, Error>)
    ensures withdrawal <= 0.0 ==> t == Success(0.0)
    ensures withdrawal > 0.0 && tax.None? ==> t == NoTax(withdrawal, balance)
  {
    if withdrawal <= 0.0 then Success(0.0)
    else if tax.None? then NoTax(withdrawal, balance)
    else tax.value(withdrawal, balance)
  }

  /**
   * One year's balance: the withdrawal comes out first, the tax is computed on
   * the balance left after it, then fees and the return apply and the result is
   * floored at zero.
   */
  function NextBalance(balance: real, w: real, tax: Option<TaxEngine>, fee: real, ret: real): (r: Result<real, Error>)
    ensures r.Success? ==> r.value >= 0.0
    ensures r.Failure? <==> TaxOwed(tax, w, balance - w).Failure?
  {
    var afterWithdrawal := balance - w;
    var owed := TaxOwed(tax, w, afterWithdrawal);
    if owed.Failure? then Failure(owed.error)
    else Success(Max(0.0, Grow(afterWithdrawal - owed.value, fee, ret)))
  }

  /**
   * The balance times the fee factor times one plus the year's return: a
   * non-negative balance stays non-negative unless the return is below -100%.
   */
  function Grow(x: real, fee: real, ret: real): (r: real)
    ensures x >= 0.0 && fee >= 0.0 && ret >= -1.0 ==> r >= 0.0
  {
    assert x >= 0.0 && fee >= 0.0 && ret >= -1.0 ==> x * fee * (1.0 + ret) >= 0.0 by {
      if x >= 0.0 && fee >= 0.0 && ret >= -1.0 {
        ScaledOrder(x, 0.0, fee);
        ScaledOrder(x * fee, 0.0, 1.0 + ret);
      }
    }
    x * fee * (1.0 + ret)
  }

  /** Without a positive withdrawal, the tax engine plays no part. */
  lemma EngineUnusedWithoutWithdrawal(balance: real, w: real, t1: Option<TaxEngine>, t2: Option<TaxEngine>,
                                      fee: real, ret: real)
    requires w <= 0.0
    ensures NextBalance(balance, w, t1, fee, ret) == NextBalance(balance, w, t2, fee, ret)
    ensures NextBalance(balance, w, t1, fee, ret) == Success(Max(0.0, (balance - w) * fee * (1.0 + ret)))
  {
  }

  /** The engine is asked only about the pair (withdrawal, balance after the withdrawal). */
  lemma EngineSeesPostWithdrawalBalance(balance: real, w: real, t1: TaxEngine, t2: TaxEngine, fee: real, ret: real)
    requires t1(w, balance - w) == t2(w, balance - w)
    ensures NextBalance(balance, w, Some(t1), fee, ret) == NextBalance(balance, w, Some(t2), fee, ret)
  {
    assert TaxOwed(Some(t1), w, balance - w) == TaxOwed(Some(t2), w, balance - w);
  }

  /** Having no engine is the same as an engine that always owes nothing. */
  lemma NoEngineIsZeroTax(balance: real, w: real, fee: real, ret: real)
    ensures NextBalance(balance, w, None, fee, ret) == NextBalance(balance, w, Some(NoTax), fee, ret)
  {
    assert TaxOwed(None, w, balance - w) == TaxOwed(Some(NoTax), w, balance - w);
  }

  /** Withdrawing more never leaves more, when fees and returns keep the sign and tax is not charged. */
  lemma NextBalanceAntitone(balance: real, w1: real, w2: real, fee: real, ret: real)
    requires w1 <= w2 && fee >= 0.0 && ret >= -1.0
    ensures NextBalance(balance, w2, None, fee, ret).value <= NextBalance(balance, w1, None, fee, ret).value
  {
    var g := fee * (1.0 + ret);
    assert g >= 0.0;
    assert Grow(balance - w2 - 0.0, fee, ret) == (balance - w2) * g;
    assert Grow(balance - w1 - 0.0, fee, ret) == (balance - w1) * g;
    assert (balance - w2) * g <= (balance - w1) * g;
  }

  /** 1,000,000 less 40,000, then 50 basis points of fees and a 5% return. */
  lemma GoldenFirstYear()
    ensures NextBalance(1000000.0, 40000.0, None, FeeFactor(50), 0.05) == Success(1002960.0)
  {
  }

  /**
   * What stays fixed during one run: the strategy's bound `calculate_withdrawal`,
   * whether it is shown the full state, the parameters, the tax engine and the
   * fee factor.
   */
  datatype Setup = Setup(withdraw: Behaviour, fullState: bool, params: PortfolioParams, tax: Option<TaxEngine>, fee: real)

  /** The state the strategy is shown in year `i`: a full one only when the strategy asks for it. */
  function YearInput(c: Setup, balance: real, i: nat): (s: Option<YearState>)
    ensures s.Some? <==> c.fullState
    ensures s.Some? ==> s.value == YearState(StartingYear + i, StartingAge + i, balance, 0.0, None)
  {
    if c.fullState then Some(YearState(StartingYear + i, StartingAge + i, balance, 0.0, None)) else None
  }

  /** The strategy's answer in year `i` of a path, from memory `m`. */
  function Answer(c: Setup, m: Memory, balance: real, i: nat): (Result<real, Error>, Memory) {
    c.withdraw(m, YearInput(c, balance, i), c.params)
  }

  /**
   * Year `i` of a path opening at `balance` with return `ret`: the record the
   * ledger keeps (or the error raised) and the strategy's memory afterwards.
   */
  function YearSpec(c: Setup, m: Memory, balance: real, i: nat, ret: real): (res: (Result<YearState, Error>, Memory))
    ensures res.1 == Answer(c, m, balance, i).1
    ensures res.0.Success? <==>
              Answer(c, m, balance, i).0.Success? &&
              NextBalance(balance, Answer(c, m, balance, i).0.value, c.tax, c.fee, ret).Success?
    ensures res.0.Success? ==>
              && res.0.value.year == StartingYear + i
              && res.0.value.age == StartingAge + i
              && res.0.value.inflation == 0.0
              && res.0.value.balance >= 0.0
              && res.0.value.withdrawalNominal == Some(Answer(c, m, balance, i).0.value)
  {
    var decided := Answer(c, m, balance, i);
    if decided.0.Failure? then (Failure(decided.0.error), decided.1)
    else
      var w := decided.0.value;
      var next := NextBalance(balance, w, c.tax, c.fee, ret);
      if next.Failure? then (Failure(next.error), decided.1)
      else (Success(YearState(StartingYear + i, StartingAge + i, next.value, 0.0, Some(w))), decided.1)
  }

  /** The balance a year opens with: the initial balance, or the last recorded one. */
  function OpeningBalance(c: Setup, records: seq<YearState>): real {
    if |records| == 0 then c.params.initBalance else records[|records| - 1].balance
  }

  /** One path over the returns `rets`, starting from the initial balance and memory `m`. */
  function PathSpec(c: Setup, m: Memory, rets: seq<real>): (res: (Result<seq<YearState>, Error>, Memory))
    ensures res.0.Success? ==> |res.0.value| == |rets|
    decreases |rets|
  {
    if |rets| == 0 then (Success([]), m)
    else
      var k := |rets| - 1;
      var prev := PathSpec(c, m, rets[..k]);
      if prev.0.Failure? then prev
      else
        var year := YearSpec(c, prev.1, OpeningBalance(c, prev.0.value), k, rets[k]);
        if year.0.Failure? then (Failure(year.0.error), year.1)
        else (Success(prev.0.value + [year.0.value]), year.1)
  }

  /** All paths in order; the one strategy memory runs on from each path into the next. */
  function RunSpec(c: Setup, m: Memory, rows: seq<seq<real>>): (res: (Result<seq<seq<YearState>>, Error>, Memory))
    ensures res.0.Success? ==> |res.0.value| == |rows|
    ensures res.0.Success? ==> forall p :: 0 <= p < |rows| ==> |res.0.value[p]| == |rows[p]|
    decreases |rows|
  {
    if |rows| == 0 then (Success([]), m)
    else
      var k := |rows| - 1;
      var prev := RunSpec(c, m, rows[..k]);
      if prev.0.Failure? then prev
      else
        var path := PathSpec(c, prev.1, rows[k]);
        if path.0.Failure? then (Failure(path.0.error), path.1)
        else (Success(prev.0.value + [path.0.value]), path.1)
  }

  /** Facts about a prefix one element longer. */
  lemma PrefixStep<X>(s: seq<X>, k: nat)
    requires k < |s|
    ensures |s[..k + 1]| == k + 1 && s[..k + 1][..k] == s[..k] && s[..k + 1][k] == s[k]
  {
  }

  lemma WholePrefix<X>(s: seq<X>)
    ensures s[..|s|] == s
  {
  }

  /** Once a year fails, the path fails with the same error and memory. */
  lemma {:induction false} PathFailurePersists(c: Setup, m: Memory, rets: seq<real>, k: nat)
    requires k <= |rets|
    requires PathSpec(c, m, rets[..k]).0.Failure?
    ensures PathSpec(c, m, rets) == PathSpec(c, m, rets[..k])
    decreases |rets| - k
  {
    if k < |rets| {
      PrefixStep(rets, k);
      PathFailurePersists(c, m, rets, k + 1);
    } else {
      WholePrefix(rets);
    }
  }

  /** Once a path fails, the run fails with the same error and memory. */
  lemma {:induction false} RunFailurePersists(c: Setup, m: Memory, rows: seq<seq<real>>, k: nat)
    requires k <= |rows|
    requires RunSpec(c, m, rows[..k]).0.Failure?
    ensures RunSpec(c, m, rows) == RunSpec(c, m, rows[..k])
    decreases |rows| - k
  {
    if k < |rows| {
      PrefixStep(rows, k);
      RunFailurePersists(c, m, rows, k + 1);
    } else {
      WholePrefix(rows);
    }
  }

  /** The records of one path: one per year, dated from 2024 and age 65, never negative. */
  predicate WellDated(records: seq<YearState>) {
    forall i :: 0 <= i < |records| ==>
      && records[i].year == StartingYear + i
      && records[i].age == StartingAge + i
      && records[i].inflation == 0.0
      && records[i].balance >= 0.0
      && records[i].withdrawalNominal.Some?
  }

  lemma {:induction false} PathShape(c: Setup, m: Memory, rets: seq<real>)
    requires PathSpec(c, m, rets).0.Success?
    ensures WellDated(PathSpec(c, m, rets).0.value)
    decreases |rets|
  {
    if |rets| > 0 {
      var k := |rets| - 1;
      PathShape(c, m, rets[..k]);
    }
  }

  /**
   * A successful run has one row per path and one record per year, each with the
   * year, age and zero inflation of its position and a balance of at least zero.
   */
  lemma {:induction false} RunShape(c: Setup, m: Memory, rows: seq<seq<real>>)
    requires RunSpec(c, m, rows).0.Success?
    ensures |RunSpec(c, m, rows).0.value| == |rows|
    ensures forall p :: 0 <= p < |rows| ==>
              |RunSpec(c, m, rows).0.value[p]| == |rows[p]| && WellDated(RunSpec(c, m, rows).0.value[p])
    decreases |rows|
  {
    if |rows| > 0 {
      var k := |rows| - 1;
      var prev := RunSpec(c, m, rows[..k]);
      RunShape(c, m, rows[..k]);
      PathShape(c, prev.1, rows[k]);
    }
  }

  /** A strategy without memory leaves the memory as it found it, and its path does not depend on it. */
  lemma {:induction false} MemorylessPath(c: Setup, m: Memory, rets: seq<real>)
    requires Memoryless(c.withdraw)
    ensures PathSpec(c, m, rets) == (PathSpec(c, Stateless, rets).0, m)
    decreases |rets|
  {
    if |rets| > 0 {
      var k := |rets| - 1;
      MemorylessPath(c, m, rets[..k]);
    }
  }

  /**
   * For a strategy without memory, each path is the same as a run of that path
   * alone: every path restarts at the initial balance and nothing flows between paths.
   */
  lemma {:induction false} PathsRestart(c: Setup, m: Memory, rows: seq<seq<real>>)
    requires Memoryless(c.withdraw)
    requires RunSpec(c, m, rows).0.Success?
    ensures RunSpec(c, m, rows).1 == m
    ensures forall p :: 0 <= p < |rows| ==>
              PathSpec(c, m, rows[p]).0 == Success(RunSpec(c, m, rows).0.value[p])
    decreases |rows|
  {
    if |rows| > 0 {
      var k := |rows| - 1;
      PathsRestart(c, m, rows[..k]);
      MemorylessPath(c, m, rows[k]);
      PrefixStep(rows, k);
      assert forall p :: 0 <= p < k ==> rows[..k][p] == rows[p];
    }
  }

  /** The year-by-year withdrawals of a path of a strategy without memory. */
  predicate WithdrawalsAsDecided(c: Setup, records: seq<YearState>) {
    forall i :: 0 <= i < |records| ==>
      Answer(c, Stateless, OpeningBalance(c, records[..i]), i).0.Success? &&
      records[i].withdrawalNominal == Some(Answer(c, Stateless, OpeningBalance(c, records[..i]), i).0.value)
  }

  /**
   * In a path of a strategy without memory, year `i`'s withdrawal is the
   * strategy's answer for `YearInput`: no state at all unless the strategy asks
   * for the full one, and then the year's date, age and opening balance.
   */
  lemma {:induction false} PathWithdrawals(c: Setup, rets: seq<real>)
    requires Memoryless(c.withdraw)
    requires PathSpec(c, Stateless, rets).0.Success?
    ensures WithdrawalsAsDecided(c, PathSpec(c, Stateless, rets).0.value)
    decreases |rets|
  {
    if |rets| > 0 {
      var k := |rets| - 1;
      var prev := PathSpec(c, Stateless, rets[..k]);
      PathWithdrawals(c, rets[..k]);
      MemorylessPath(c, Stateless, rets[..k]);
      var records := PathSpec(c, Stateless, rets).0.value;
      assert records == prev.0.value + [records[k]];
      assert records[..k] == prev.0.value;
      forall i | 0 <= i < k
        ensures records[..i] == prev.0.value[..i]
      {
      }
    }
  }

  /** Shipped strategies never see a state in `run`: every withdrawal is their answer for none. */
  lemma ShippedStrategiesSeeNoState(c: Setup, rets: seq<real>, i: nat)
    requires Memoryless(c.withdraw) && !c.fullState
    requires PathSpec(c, Stateless, rets).0.Success?
    requires i < |rets|
    ensures c.withdraw(Stateless, None, c.params).0.Success?
    ensures PathSpec(c, Stateless, rets).0.value[i].withdrawalNominal ==
              Some(c.withdraw(Stateless, None, c.params).0.value)
  {
    PathWithdrawals(c, rets);
  }

  /** A strategy that never withdraws gives the same records whether or not it is shown the state. */
  lemma {:induction false} DummyPathIgnoresState(c: Setup, m: Memory, rets: seq<real>)
    requires WithdrawsNothing(c.withdraw)
    ensures PathSpec(c, m, rets) == PathSpec(c.(fullState := true), m, rets)
    decreases |rets|
  {
    if |rets| > 0 {
      DummyPathIgnoresState(c, m, rets[..|rets| - 1]);
    }
  }

  /**
   * `run` and `run_simulation_vectorized` agree for the dummy strategy: the
   * vectorized runner always passes a state, `run` passes none, and the records
   * (hence every balance) are the same.
   */
  lemma {:induction false} DummyRunnersAgree(c: Setup, m: Memory, rows: seq<seq<real>>)
    requires WithdrawsNothing(c.withdraw)
    ensures RunSpec(c, m, rows) == RunSpec(c.(fullState := true), m, rows)
    decreases |rows|
  {
    if |rows| > 0 {
      var k := |rows| - 1;
      DummyRunnersAgree(c, m, rows[..k]);
      DummyPathIgnoresState(c, RunSpec(c, m, rows[..k]).1, rows[k]);
    }
  }

  /** A year of a strategy that withdraws nothing: fees and the return act on the whole balance. */
  lemma NoWithdrawalYear(c: Setup, m: Memory, balance: real, i: nat, ret: real)
    requires WithdrawsNothing(c.withdraw)
    ensures YearSpec(c, m, balance, i, ret) ==
              (Success(YearState(StartingYear + i, StartingAge + i, Max(0.0, Grow(balance, c.fee, ret)), 0.0, Some(0.0))), m)
  {
    assert Answer(c, m, balance, i) == (Success(0.0), m);
    var owed := TaxOwed(c.tax, 0.0, balance - 0.0);
    assert owed == Success(0.0);
    assert balance - 0.0 - owed.value == balance;
  }

  /** With the dummy strategy, no fees and zero returns, the balance stays at its initial value. */
  lemma {:induction false} DummyKeepsBalance(c: Setup, m: Memory, rets: seq<real>)
    requires WithdrawsNothing(c.withdraw) && c.fee == 1.0 && c.params.initBalance >= 0.0
    requires forall i :: 0 <= i < |rets| ==> rets[i] == 0.0
    ensures PathSpec(c, m, rets).0.Success?
    ensures forall i :: 0 <= i < |rets| ==>
              PathSpec(c, m, rets).0.value[i].balance == c.params.initBalance &&
              PathSpec(c, m, rets).0.value[i].withdrawalNominal == Some(0.0)
    decreases |rets|
  {
    if |rets| > 0 {
      var k := |rets| - 1;
      DummyKeepsBalance(c, m, rets[..k]);
      var prev := PathSpec(c, m, rets[..k]);
      var b := OpeningBalance(c, prev.0.value);
      assert b == c.params.initBalance;
      NoWithdrawalYear(c, prev.1, b, k, rets[k]);
      assert Grow(b, 1.0, 0.0) == b;
    }
  }

  /** `init` after `n` years in which only the fee acts. */
  function AfterFees(init: real, fee: real, n: nat): real {
    if n == 0 then init else AfterFees(init, fee, n - 1) * fee
  }

  /** `AfterFees` is the initial balance times the fee factor to the power `n`. */
  lemma {:induction false} AfterFeesIsPower(init: real, fee: real, n: nat)
    ensures AfterFees(init, fee, n) == init * Pow(fee, n)
  {
    if n > 0 {
      AfterFeesIsPower(init, fee, n - 1);
      assert AfterFees(init, fee, n) == (init * Pow(fee, n - 1)) * fee;
    }
  }

  lemma {:induction false} AfterFeesNonNegative(init: real, fee: real, n: nat)
    requires init >= 0.0 && fee >= 0.0
    ensures AfterFees(init, fee, n) >= 0.0
  {
    if n > 0 {
      AfterFeesNonNegative(init, fee, n - 1);
    }
  }

  /** Year `i` closes at `init` after `i + 1` years of fees. */
  ghost predicate Compounded(records: seq<YearState>, init: real, fee: real) {
    forall i {:trigger records[i]} :: 0 <= i < |records| ==> records[i].balance == AfterFees(init, fee, i + 1)
  }

  /**
   * With the dummy strategy and zero returns only the fee acts: year `i` closes
   * at the initial balance times the fee factor to the power `i + 1`.
   */
  lemma {:induction false} DummyCompounds(c: Setup, m: Memory, rets: seq<real>)
    requires WithdrawsNothing(c.withdraw) && c.fee >= 0.0 && c.params.initBalance >= 0.0
    requires forall i :: 0 <= i < |rets| ==> rets[i] == 0.0
    ensures PathSpec(c, m, rets).0.Success?
    ensures Compounded(PathSpec(c, m, rets).0.value, c.params.initBalance, c.fee)
    decreases |rets|
  {
    if |rets| > 0 {
      var k := |rets| - 1;
      DummyCompounds(c, m, rets[..k]);
      var prev := PathSpec(c, m, rets[..k]).0.value;
      var last := NoWithdrawalStep(c, m, rets);
      OpeningAfterFees(c, prev);
      CompoundStep(c.params.initBalance, c.fee, k, OpeningBalance(c, prev), rets[k]);
      CompoundedSnoc(prev, last, c.params.initBalance, c.fee);
    }
  }

  lemma OpeningAfterFees(c: Setup, records: seq<YearState>)
    requires Compounded(records, c.params.initBalance, c.fee)
    ensures OpeningBalance(c, records) == AfterFees(c.params.initBalance, c.fee, |records|)
  {
    if |records| > 0 {
      assert records[|records| - 1].balance == AfterFees(c.params.initBalance, c.fee, |records|);
    }
  }

  lemma CompoundedSnoc(records: seq<YearState>, last: YearState, init: real, fee: real)
    requires Compounded(records, init, fee) && last.balance == AfterFees(init, fee, |records| + 1)
    ensures Compounded(records + [last], init, fee)
  {
    var all := records + [last];
    forall i | 0 <= i < |all|
      ensures all[i].balance == AfterFees(init, fee, i + 1)
    {
      if i < |records| {
        assert all[i] == records[i];
      }
    }
  }

  /** The last year of a path of a strategy that withdraws nothing, after a successful prefix. */
  lemma NoWithdrawalStep(c: Setup, m: Memory, rets: seq<real>) returns (last: YearState)
    requires WithdrawsNothing(c.withdraw)
    requires |rets| > 0 && PathSpec(c, m, rets[..|rets| - 1]).0.Success?
    ensures PathSpec(c, m, rets).0 == Success(PathSpec(c, m, rets[..|rets| - 1]).0.value + [last])
    ensures last.balance ==
              Max(0.0, Grow(OpeningBalance(c, PathSpec(c, m, rets[..|rets| - 1]).0.value), c.fee, rets[|rets| - 1]))
  {
    var k := |rets| - 1;
    var prev := PathSpec(c, m, rets[..k]);
    var b := OpeningBalance(c, prev.0.value);
    NoWithdrawalYear(c, prev.1, b, k, rets[k]);
    last := YearSpec(c, prev.1, b, k, rets[k]).0.value;
  }

  /** One more year of fees on a compounded balance. */
  lemma CompoundStep(init: real, fee: real, k: nat, b: real, ret: real)
    requires init >= 0.0 && fee >= 0.0 && b == AfterFees(init, fee, k) && ret == 0.0
    ensures Max(0.0, Grow(b, fee, ret)) == AfterFees(init, fee, k + 1)
  {
    AfterFeesNonNegative(init, fee, k + 1);
    assert Grow(b, fee, ret) == b * fee * 1.0;
  }

  /** The dummy strategy under 100 basis points of fees and zero returns. */
  lemma GoldenDummyWithFees(params: PortfolioParams)
    requires params.initBalance == 1000000.0
    ensures var c := Setup(BehaviourOf(DummyRule), false, params, None, FeeFactor(100));
            var res := PathSpec(c, Stateless, [0.0, 0.0, 0.0]).0;
            res.Success? && |res.value| == 3 &&
            res.value[0].balance == 990000.0 &&
            res.value[1].balance == 980100.0 &&
            res.value[2].balance == 970299.0
  {
    var c := Setup(BehaviourOf(DummyRule), false, params, None, FeeFactor(100));
    DummyWithdrawsNothing();
    DummyCompounds(c, Stateless, [0.0, 0.0, 0.0]);
    assert AfterFees(1000000.0, 0.99, 1) == 990000.0;
    assert AfterFees(1000000.0, 0.99, 2) == 980100.0;
    assert AfterFees(1000000.0, 0.99, 3) == 970299.0;
  }

  /** The 4% rule's 40,000 on 1,000,000, with 50 basis points of fees and a 5% return. */
  lemma GoldenFourPercentYear(params: PortfolioParams)
    requires params.initBalance == 1000000.0 && params.feesBps == 50
    ensures var c := Setup(BehaviourOf(FourPercent), false, params, None, FeeFactor(params.feesBps));
            PathSpec(c, Stateless, [0.05]).0 == Success([YearState(2024, 65, 1002960.0, 0.0, Some(40000.0))])
  {
    var c := Setup(BehaviourOf(FourPercent), false, params, None, FeeFactor(params.feesBps));
    assert [0.05][..0] == [];
    assert PathSpec(c, Stateless, [0.05][..0]) == (Success([]), Stateless);
    assert Answer(c, Stateless, 1000000.0, 0) == (Success(40000.0), Stateless);
    GoldenFirstYear();
    var rec := YearState(2024, 65, 1002960.0, 0.0, Some(40000.0));
    assert YearSpec(c, Stateless, OpeningBalance(c, []), 0, [0.05][0]).0 == Success(rec);
    assert [] + [rec] == [rec];
  }

  /** A path one year longer: the next year's record is appended, or its error ends the path. */
  lemma PathExtend(c: Setup, m: Memory, row: seq<real>, y: nat, records: seq<YearState>, mid: Memory)
    requires y < |row|
    requires PathSpec(c, m, row[..y]) == (Success(records), mid)
    ensures var year := YearSpec(c, mid, OpeningBalance(c, records), y, row[y]);
            PathSpec(c, m, row[..y + 1]) ==
              if year.0.Failure? then (Failure(year.0.error), year.1) else (Success(records + [year.0.value]), year.1)
  {
    PrefixStep(row, y);
  }

  /** A run one path longer: the next path's records are appended, or its error ends the run. */
  lemma RunExtend(c: Setup, m: Memory, rows: seq<seq<real>>, p: nat, results: seq<seq<YearState>>, mid: Memory)
    requires p < |rows|
    requires RunSpec(c, m, rows[..p]) == (Success(results), mid)
    ensures var path := PathSpec(c, mid, rows[p]);
            RunSpec(c, m, rows[..p + 1]) ==
              if path.0.Failure? then (Failure(path.0.error), path.1) else (Success(results + [path.0.value]), path.1)
  {
    PrefixStep(rows, p);
  }

  /** Year `i` on the strategy object: the call, then the balance update and the record. */
  method Year(c: Setup, strategy: StrategyHandle, balance: real, i: nat, ret: real)
    returns (rec: Result<YearState, Error>)
    requires Bound(strategy) && Ready(strategy.rule) && c.withdraw == strategy.calculateWithdrawal
    modifies Objects(strategy.rule)
    ensures Ready(strategy.rule)
    ensures (rec, MemoryOf(strategy.rule)) == YearSpec(c, old(MemoryOf(strategy.rule)), balance, i, ret)
  {
    var input: Option<YearState> := None;
    if c.fullState {
      input := Some(YearState(StartingYear + i, StartingAge + i, balance, 0.0, None));
    }
    assert input == YearInput(c, balance, i);
    var withdrawal := Call(strategy, input, c.params);
    if withdrawal.Failure? {
      return Failure(withdrawal.error);
    }
    var w := withdrawal.value;
    var b := balance - w;
    if w > 0.0 {
      var owed := if c.tax.None? then NoTax(w, b) else c.tax.value(w, b);
      assert owed == TaxOwed(c.tax, w, balance - w);
      if owed.Failure? {
        return Failure(owed.error);
      }
      b := b - owed.value;
    }
    b := Max(0.0, Grow(b, c.fee, ret));
    assert NextBalance(balance, w, c.tax, c.fee, ret) == Success(b);
    rec := Success(YearState(StartingYear + i, StartingAge + i, b, 0.0, Some(w)));
  }

  /** The years of one path, in order, from the initial balance: the records, or the first error raised. */
  method Path(c: Setup, strategy: StrategyHandle, row: seq<real>) returns (res: Result<seq<YearState>, Error>)
    requires Bound(strategy) && Ready(strategy.rule) && c.withdraw == strategy.calculateWithdrawal
    modifies Objects(strategy.rule)
    ensures Ready(strategy.rule)
    ensures (res, MemoryOf(strategy.rule)) == PathSpec(c, old(MemoryOf(strategy.rule)), row)
  {
    ghost var m := MemoryOf(strategy.rule);
    var records: seq<YearState> := [];
    var balance := c.params.initBalance;
    var y := 0;
    assert row[..0] == [];
    while y < |row|
      invariant 0 <= y <= |row|
      invariant Ready(strategy.rule)
      invariant PathSpec(c, m, row[..y]) == (Success(records), MemoryOf(strategy.rule))
      invariant balance == OpeningBalance(c, records)
    {
      PathExtend(c, m, row, y, records, MemoryOf(strategy.rule));
      var rec := Year(c, strategy, balance, y, row[y]);
      if rec.Failure? {
        PathFailurePersists(c, m, row, y + 1);
        return Failure(rec.error);
      }
      records := records + [rec.value];
      balance := rec.value.balance;
      y := y + 1;
    }
    WholePrefix(row);
    res := Success(records);
  }

  /** `CashFlowLedger`: the strategy, the parameters, the tax engine and the cached fee factor. */
  class CashFlowLedger {
    const strategy: StrategyHandle
    const params: PortfolioParams
    const taxEngine: Option<TaxEngine>
    const feeFactor: real

    constructor (strategy: StrategyHandle, params: PortfolioParams, taxEngine: Option<TaxEngine>)
      ensures this.strategy == strategy && this.params == params && this.taxEngine == taxEngine
      ensures feeFactor == FeeFactor(params.feesBps)
    {
      this.strategy := strategy;
      this.params := params;
      this.taxEngine := taxEngine;
      feeFactor := 1.0 - (params.feesBps as real) / 10000.0;
    }

    function RunSetup(): Setup {
      Setup(strategy.calculateWithdrawal, strategy.needsFullState, params, taxEngine, feeFactor)
    }

    /**
     * `run` on the returns the market simulator generated for `paths` by `years`:
     * the records of every path, or the first error raised.
     */
    method Run(years: nat, paths: nat, rets: seq<seq<real>>) returns (r: Result<seq<seq<YearState>>, Error>)
      requires |rets| == paths && forall p :: 0 <= p < paths ==> |rets[p]| == years
      requires Bound(strategy) && Ready(strategy.rule)
      modifies Objects(strategy.rule)
      ensures Ready(strategy.rule)
      ensures (r, MemoryOf(strategy.rule)) == RunSpec(RunSetup(), old(MemoryOf(strategy.rule)), rets)
    {
      var c := RunSetup();
      ghost var m := MemoryOf(strategy.rule);
      var results: seq<seq<YearState>> := [];
      var p := 0;
      assert rets[..0] == [];
      while p < paths
        invariant 0 <= p <= paths
        invariant Ready(strategy.rule)
        invariant RunSpec(c, m, rets[..p]) == (Success(results), MemoryOf(strategy.rule))
      {
        RunExtend(c, m, rets, p, results, MemoryOf(strategy.rule));
        var path := Path(c, strategy, rets[p]);
        if path.Failure? {
          RunFailurePersists(c, m, rets, p + 1);
          return Failure(path.error);
        }
        results := results + [path.value];
        p := p + 1;
      }
      WholePrefix(rets);
      r := Success(results);
    }
  }

  /** An array of balances is none of the strategy objects. */
  lemma NotAStrategy(r: Rule, a: array2<real>)
    ensures forall o :: o in Objects(r) ==> o != a
  {
  }

  /** One year of `run_simulation_vectorized`: the closing balance goes into cell (`p`, `y`). */
  method YearInto(c: Setup, strategy: StrategyHandle, balance: real, y: nat, ret: real, balances: array2<real>, p: nat)
    returns (rec: Result<YearState, Error>)
    requires Bound(strategy) && Ready(strategy.rule) && c.withdraw == strategy.calculateWithdrawal
    requires p < balances.Length0 && y < balances.Length1
    requires forall o :: o in Objects(strategy.rule) ==> o != balances
    modifies Objects(strategy.rule), balances
    ensures Ready(strategy.rule)
    ensures (rec, MemoryOf(strategy.rule)) == YearSpec(c, old(MemoryOf(strategy.rule)), balance, y, ret)
    ensures rec.Success? ==> balances[p, y] == rec.value.balance
    ensures forall q, y' :: 0 <= q < balances.Length0 && 0 <= y' < balances.Length1 && (q != p || y' != y) ==>
              balances[q, y'] == old(balances[q, y'])
  {
    rec := Year(c, strategy, balance, y, ret);
    if rec.Success? {
      balances[p, y] := rec.value.balance;
    }
  }

  /**
   * One path of `run_simulation_vectorized`: the balances of the path's years
   * go into row `p` of `balances`, and no other row changes.
   */
  method PathInto(c: Setup, strategy: StrategyHandle, row: seq<real>, balances: array2<real>, p: nat)
    returns (failure: Option<Error>, ghost records: seq<YearState>)
    requires Bound(strategy) && Ready(strategy.rule) && c.withdraw == strategy.calculateWithdrawal
    requires p < balances.Length0 && |row| == balances.Length1
    requires forall o :: o in Objects(strategy.rule) ==> o != balances
    modifies Objects(strategy.rule), balances
    ensures Ready(strategy.rule)
    ensures var spec := PathSpec(c, old(MemoryOf(strategy.rule)), row);
            && MemoryOf(strategy.rule) == spec.1
            && (failure.None? <==> spec.0.Success?)
            && (failure.Some? ==> failure.value == spec.0.error)
            && (failure.None? ==> records == spec.0.value)
    ensures failure.None? ==> forall y :: 0 <= y < |row| ==> balances[p, y] == records[y].balance
    ensures forall q, y :: 0 <= q < balances.Length0 && 0 <= y < balances.Length1 && q != p ==>
              balances[q, y] == old(balances[q, y])
  {
    ghost var m := MemoryOf(strategy.rule);
    records := [];
    var balance := c.params.initBalance;
    var y := 0;
    assert row[..0] == [];
    while y < |row|
      invariant 0 <= y <= |row|
      invariant Ready(strategy.rule)
      invariant PathSpec(c, m, row[..y]) == (Success(records), MemoryOf(strategy.rule))
      invariant balance == OpeningBalance(c, records)
      invariant forall y' :: 0 <= y' < y ==> balances[p, y'] == records[y'].balance
      invariant forall q, y' :: 0 <= q < balances.Length0 && 0 <= y' < balances.Length1 && q != p ==>
                  balances[q, y'] == old(balances[q, y'])
    {
      PathExtend(c, m, row, y, records, MemoryOf(strategy.rule));
      var rec := YearInto(c, strategy, balance, y, row[y], balances, p);
      if rec.Failure? {
        PathFailurePersists(c, m, row, y + 1);
        return Some(rec.error), records;
      }
      balance := rec.value.balance;
      records := records + [rec.value];
      y := y + 1;
    }
    WholePrefix(row);
    failure := None;
  }

  /** The vectorized runner always shows the strategy the full state. */
  function VectorizedSetup(strategy: StrategyHandle, params: PortfolioParams, taxEngine: Option<TaxEngine>): (c: Setup)
    ensures c.withdraw == strategy.calculateWithdrawal && c.fullState
    ensures c.params == params && c.tax == taxEngine && c.fee == FeeFactor(params.feesBps)
  {
    Setup(strategy.calculateWithdrawal, true, params, taxEngine, FeeFactor(params.feesBps))
  }

  /**
   * `run_simulation_vectorized`: always shows the strategy the full state and
   * keeps only the balances, written into a paths-by-years array.
   */
  method RunSimulationVectorized(strategy: StrategyHandle, params: PortfolioParams, years: nat, paths: nat,
                                 rets: seq<seq<real>>, taxEngine: Option<TaxEngine>)
    returns (r: Result<array2<real>, Error>)
    requires |rets| == paths && forall p :: 0 <= p < paths ==> |rets[p]| == years
    requires Bound(strategy) && Ready(strategy.rule)
    modifies Objects(strategy.rule)
    ensures Ready(strategy.rule)
    ensures var spec := RunSpec(VectorizedSetup(strategy, params, taxEngine), old(MemoryOf(strategy.rule)), rets);
            && MemoryOf(strategy.rule) == spec.1
            && (r.Failure? <==> spec.0.Failure?)
            && (r.Failure? ==> r.error == spec.0.error)
            && (r.Success? ==>
                  && fresh(r.value)
                  && r.value.Length0 == paths && r.value.Length1 == years
                  && forall p, y :: 0 <= p < paths && 0 <= y < years ==>
                       r.value[p, y] == spec.0.value[p][y].balance)
  {
    var c := VectorizedSetup(strategy, params, taxEngine);
    ghost var m := MemoryOf(strategy.rule);
    var balances := new real[paths, years]((_, _) => 0.0);
    NotAStrategy(strategy.rule, balances);
    ghost var results: seq<seq<YearState>> := [];
    var p := 0;
    assert rets[..0] == [];
    while p < paths
      invariant 0 <= p <= paths
      invariant Ready(strategy.rule)
      invariant RunSpec(c, m, rets[..p]) == (Success(results), MemoryOf(strategy.rule))
      invariant forall q, y :: 0 <= q < p && 0 <= y < years ==> balances[q, y] == results[q][y].balance
    {
      RunExtend(c, m, rets, p, results, MemoryOf(strategy.rule));
      var failure, records := PathInto(c, strategy, rets[p], balances, p);
      if failure.Some? {
        RunFailurePersists(c, m, rets, p + 1);
        return Failure(failure.value);
      }
      results := results + [records];
      p := p + 1;
    }
    WholePrefix(rets);
    r := Success(balances);
  }
}
