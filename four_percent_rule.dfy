/** Bengen's 4% rule (src/capstone_finance/strategies/four_percent_rule.py). */
module FourPercentRule {
  import opened Wrappers
  import opened Models
  import opened Numeric

  const WithdrawalRate: real := 0.04

  /**
   * `calculate_withdrawal`: 4% of the initial balance, scaled by `1 + inflation`
   * when a year state is given. With a positive initial balance the withdrawal
   * is negative exactly when deflation exceeds 100%.
   */
  function CalculateWithdrawal(state: Option<YearState>, params: PortfolioParams): (w: real)
    ensures state.None? || state.value.inflation == 0.0 ==> w == 0.04 * params.initBalance
    ensures params.initBalance > 0.0 ==> (w >= 0.0 <==> state.None? || state.value.inflation >= -1.0)
  {
    var base := params.initBalance * WithdrawalRate;
    if state.None? then base
    else
      assert params.initBalance > 0.0 ==> (base * (1.0 + state.value.inflation) >= 0.0 <==> state.value.inflation >= -1.0) by {
        if params.initBalance > 0.0 {
          ScaledSign(base, 1.0 + state.value.inflation);
        }
      }
      base * (1.0 + state.value.inflation)
  }

  /** Without a state the rule pays exactly 4% of the initial balance. */
  lemma NoStateIsBase(params: PortfolioParams)
    ensures CalculateWithdrawal(None, params) == 0.04 * params.initBalance
  {
  }

  /** The withdrawal reads only the inflation of the state: balance, age and year do not matter. */
  lemma IgnoresBalanceAndAge(s1: YearState, s2: YearState, params: PortfolioParams)
    requires s1.inflation == s2.inflation
    ensures CalculateWithdrawal(Some(s1), params) == CalculateWithdrawal(Some(s2), params)
  {
  }

  /** Higher inflation never lowers the withdrawal. */
  lemma MonotoneInInflation(s1: YearState, s2: YearState, params: PortfolioParams)
    requires ValidParams(params)
    requires s1.inflation <= s2.inflation
    ensures CalculateWithdrawal(Some(s1), params) <= CalculateWithdrawal(Some(s2), params)
  {
    var base := params.initBalance * WithdrawalRate;
    ScaledOrder(base, 1.0 + s1.inflation, 1.0 + s2.inflation);
  }

  /** Inflation of at least -100% keeps the withdrawal non-negative. */
  lemma NonNegative(s: YearState, params: PortfolioParams)
    requires ValidParams(params)
    requires s.inflation >= -1.0
    ensures CalculateWithdrawal(Some(s), params) >= 0.0
  {
    var base := params.initBalance * WithdrawalRate;
    assert base >= 0.0 && 1.0 + s.inflation >= 0.0;
  }

  /** On $1,000,000: 3% inflation gives $41,200 and -2% gives $39,200. */
  lemma GoldenValues(s: YearState, params: PortfolioParams)
    requires params.initBalance == 1000000.0
    ensures s.inflation == 0.03 ==> CalculateWithdrawal(Some(s), params) == 41200.0
    ensures s.inflation == -0.02 ==> CalculateWithdrawal(Some(s), params) == 39200.0
    ensures CalculateWithdrawal(None, params) == 40000.0
  {
  }
}
