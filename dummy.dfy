/** The baseline strategy that never withdraws (src/capstone_finance/strategies/dummy.py). */
module Dummy {
  import opened Wrappers
  import opened Models

  /** `calculate_withdrawal`: nothing, whatever the state and parameters; the strategy keeps no state. */
  function CalculateWithdrawal(state: Option<YearState>, params: PortfolioParams): (w: real)
    ensures w == 0.0
  {
    0.0
  }
}
