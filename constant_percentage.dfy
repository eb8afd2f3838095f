/** A fixed fraction of the current balance (src/capstone_finance/strategies/constant_percentage.py). */
module ConstantPercentage {
  import opened Wrappers
  import opened Models
  import opened Numeric

  datatype ConstantPercentageStrategy = ConstantPercentageStrategy(percentage: real)

  const DefaultPercentage: real := 0.05

  /** The constructor: a negative percentage and one above 100% are refused, in that order. */
  function NewConstantPercentage(percentage: real := DefaultPercentage): (r: Result<ConstantPercentageStrategy, Error>)
    ensures r.Success? <==> 0.0 <= percentage <= 1.0
    ensures r.Success? ==> r.value.percentage == percentage
    ensures percentage < 0.0 ==> r == Failure(ValueError("Percentage must be non-negative"))
    ensures percentage > 1.0 ==> r == Failure(ValueError("Percentage must be <= 1.0 (100%)"))
  {
    if percentage < 0.0 then Failure(ValueError("Percentage must be non-negative"))
    else if percentage > 1.0 then Failure(ValueError("Percentage must be <= 1.0 (100%)"))
    else Success(ConstantPercentageStrategy(percentage))
  }

  /** `calculate_withdrawal`: the percentage of the current balance, or of the initial balance without a state. */
  function CalculateWithdrawal(s: ConstantPercentageStrategy, state: Option<YearState>, params: PortfolioParams): (w: real)
    ensures var b := if state.None? then params.initBalance else state.value.balance;
            0.0 <= s.percentage <= 1.0 && b >= 0.0 ==> 0.0 <= w <= b
    ensures s.percentage == 0.0 ==> w == 0.0
  {
    var b := if state.None? then params.initBalance else state.value.balance;
    assert 0.0 <= s.percentage <= 1.0 && b >= 0.0 ==> 0.0 <= b * s.percentage <= b by {
      if 0.0 <= s.percentage <= 1.0 && b >= 0.0 {
        ScaledOrder(b, 0.0, s.percentage);
        ScaledOrder(b, s.percentage, 1.0);
      }
    }
    b * s.percentage
  }

  /** With a state the withdrawal depends only on its balance: inflation, age and the initial balance do not matter. */
  lemma DependsOnlyOnBalance(s: ConstantPercentageStrategy, s1: YearState, s2: YearState,
                             p1: PortfolioParams, p2: PortfolioParams)
    requires s1.balance == s2.balance
    ensures CalculateWithdrawal(s, Some(s1), p1) == CalculateWithdrawal(s, Some(s2), p2)
  {
  }

  /** Without a state the strategy acts as if the balance were the initial one. */
  lemma NoStateUsesInitialBalance(s: ConstantPercentageStrategy, st: YearState, params: PortfolioParams)
    requires st.balance == params.initBalance
    ensures CalculateWithdrawal(s, None, params) == CalculateWithdrawal(s, Some(st), params)
  {
  }

  /** A valid strategy never withdraws less than nothing nor more than the whole balance. */
  lemma WithinBalance(s: ConstantPercentageStrategy, st: YearState, params: PortfolioParams)
    requires 0.0 <= s.percentage <= 1.0 && st.balance >= 0.0
    ensures 0.0 <= CalculateWithdrawal(s, Some(st), params) <= st.balance
  {
    assert st.balance * s.percentage <= st.balance * 1.0;
  }

  /** A zero balance gives nothing, and 100% gives the whole balance. */
  lemma Extremes(s: ConstantPercentageStrategy, st: YearState, params: PortfolioParams)
    ensures st.balance == 0.0 ==> CalculateWithdrawal(s, Some(st), params) == 0.0
    ensures s.percentage == 1.0 ==> CalculateWithdrawal(s, Some(st), params) == st.balance
  {
  }
}
