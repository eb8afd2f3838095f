# A verified model of a retirement Monte Carlo simulator

This project models the engine of a Python toolkit that simulates retirement
portfolios over many paths. It covers the following parts:

- **Market** (`market.dfy`): the market simulator. Log-normal mode turns standard-normal draws into
  annual returns with mean 0.07 and volatility 0.15. Bootstrap mode assembles each path from
  five-year windows of a historical series, plus single remainder years.
- **Ledger** (`ledger.dfy`): the cash-flow ledger. For every path and year it asks a withdrawal
  strategy for an amount, deducts it and the tax on it, applies the fee factor and the market
  return, and floors the balance at zero. It does this in both the per-path runner (`run`) and
  the vectorised runner.
- **Withdrawal strategies** (`strategy.dfy` and one file per rule):
  - Dummy, which withdraws nothing;
  - the four-percent rule;
  - constant percentage;
  - variable percentage withdrawal (VPW), which selects a table by equity share and
    interpolates the rate by age;
  - Endowment, a weighted blend of the current balance and a moving average of balances;
  - Guyton-Klinger, which tracks inflation and applies guardrails.
- **Tax** (`tax.dfy`): the 2025 US federal tax brackets for single and married filers. It
  covers the bracket walk, the marginal and effective rates, and the tax engine the ledger calls.
- **Models** (`models.dfy`): the validated records `YearState`, `PortfolioParams` and
  `LoanParams`, and the closed-form monthly loan payment.
- **Config** (`config.dfy`): the run configuration. It has nineteen fields with types, bounds
  and defaults, forbids extra keys, runs two cross-field checks after construction, and merges
  command-line arguments.

**How the model is written.**

- Amounts are Dafny `real`.
- Every error the source raises is a `Failure` of a `Result` (`wrappers.dfy`), with the
  source's exception kind and message.
- Randomness enters as explicit inputs: the normal draws, the block and remainder indices,
  and the synthetic history.
- The code that updates state in place is modelled as classes and methods, and each method is
  proved against a pure step function:
  - Endowment's bounded history;
  - Guyton-Klinger's three running fields;
  - the ledger's loops;
  - the tax accumulator loop;
  - the bootstrap fill;
  - the VPW key-coercion loops;
  - the `merge_cli_args` loop.
- The properties of each step function are proved as lemmas beside it.
- Golden values from the repository's tests are proved as lemmas on the model.

Each module is one file: `Wrappers`, `Numeric` (small real-arithmetic facts), `Models`, `Market`,
`Dummy`, `FourPercentRule`, `ConstantPercentage`, `Vpw`, `Endowment`, `GuytonKlinger`,
`Strategies`, `Tax`, `Ledger` and `Config`.

## Model

| member | source | states |
|---|---|---|
| `Models.NewYearState` | src/capstone_finance/core/models.py:15-24 | a year state is built exactly when `age >= 0`; otherwise the validation error names exactly `age`; on success every field holds its argument |
| `Models.NewPortfolioParams` | src/capstone_finance/core/models.py:35-51 | parameters are accepted exactly when the initial balance is positive, the equity share lies in [0, 1] and the fees are non-negative; a validation error names each of the three fields exactly when that field fails; the seed defaults to 42 |
| `Models.BothFailuresNamed` | src/capstone_finance/core/models.py:39-40 | a balance of 0 together with an equity share of 2 fails naming both `init_balance` and `equity_pct` |
| `Models.DefaultSeedIs42` | src/capstone_finance/core/models.py:43 | any accepted parameter set built without a seed carries seed 42 |
| `Models.NewLoanParams` | src/capstone_finance/core/models.py:62-70 | a loan is accepted exactly when principal > 0, rate >= 0 and term > 0, and then keeps its arguments; a validation error names each of the three fields exactly when that field fails |
| `Models.MonthlyPayment` | src/capstone_finance/core/models.py:72-96 | the payment of every valid loan is positive |
| `Models.PowAboveOne` | src/capstone_finance/core/models.py:94 | (1 + r)^n exceeds 1 for r > 0 and n >= 1, so the formula's denominator is never zero |
| `Models.OwedClosedForm` | src/capstone_finance/core/models.py:72-96 | the balance left after k monthly payments satisfies the closed annuity form r·B = r·P·q − pmt·(q − 1) with q = (1 + r)^k |
| `Models.OwedStep` | src/capstone_finance/core/models.py:94 | one more month of interest and payment preserves the closed form |
| `Models.OwedZeroRate` | src/capstone_finance/core/models.py:86-88 | at zero interest the balance after k payments is P − k·pmt |
| `Models.MonthlyPaymentAmortizes` | src/capstone_finance/core/models.py:72-96 | paying `monthly_payment` for the whole term leaves exactly zero owed, for zero and positive rates |
| `Models.ZeroRatePayment` | src/capstone_finance/core/models.py:86-88 | at zero rate, term × payment equals the principal |
| `Market.Lognormal` | src/capstone_finance/core/market.py:59-73 | the result has the draws' shape and each entry is 0.07 + 0.15 · z |
| `Market.LognormalRecoversDraws` | src/capstone_finance/core/market.py:64-71 | the standard-normal draw is recovered from each return, so the map loses nothing |
| `Market.LognormalMonotone` | src/capstone_finance/core/market.py:71 | a larger draw never gives a smaller return |
| `Market.PrepareBootstrapData` | src/capstone_finance/core/market.py:127-134 | there are `len(history) − 4` windows (none for a shorter history) and window k is history[k..k+5] |
| `Market.WindowsSlide` | src/capstone_finance/core/market.py:133-134 | consecutive windows overlap in four years and each window has five years |
| `Market.WindowValuesFromHistory` | src/capstone_finance/core/market.py:134 | entry j of window k is history[k + j], a historical value |
| `Market.BootstrapMatrix` | src/capstone_finance/core/market.py:75-107 | the bootstrap result has shape (n_paths, n_years) |
| `Market.BootstrapEntry` | src/capstone_finance/core/market.py:92-105 | the entry for path p and year y, taken from the window of its block or from its remainder year, is a value of the historical series |
| `Market.BlockColumnsAreWindow` | src/capstone_finance/core/market.py:92-96 | columns 5i..5i+5 of every path are one whole window, the one the block index names |
| `Market.RemainderColumnsAreSingleYears` | src/capstone_finance/core/market.py:98-105 | the last `n_years % 5` columns are the single historical years the remainder indices name |
| `Market.BootstrapValuesFromHistory` | src/capstone_finance/core/market.py:75-107 | every bootstrap return is a year of the historical series |
| `Market.GenerateBootstrap` | src/capstone_finance/core/market.py:75-107 | the method that fills the array block by block and then the remainder equals the bootstrap matrix |
| `Market.FillBlock` | src/capstone_finance/core/market.py:92-96 | one pass of the block loop writes columns 5i..5i+5 of every row from the chosen windows and leaves the rest unchanged |
| `Market.FillRemainder` | src/capstone_finance/core/market.py:99-105 | the remainder step writes the last columns from single years and leaves the block columns unchanged |
| `Market.ToRows` | src/capstone_finance/core/market.py:85-107 | the rows read out of the array hold its entries in place |
| `Market.NewMarketSimulator` | src/capstone_finance/core/market.py:24-42 | windows are prepared exactly in bootstrap mode, and there are 96 of them for the 100-year history |
| `Market.GenerateSpec` | src/capstone_finance/core/market.py:44-57 | generation fails only when the mode is not lognormal and no windows were prepared; a result has shape (n_paths, n_years) |
| `Market.Generate` | src/capstone_finance/core/market.py:44-57 | the method that dispatches on the mode returns the specified result |
| `Market.GenerateByMode` | src/capstone_finance/core/market.py:24-57 | an unknown mode fails on the missing windows, lognormal mode gives μ + σz and bootstrap mode gives historical values |
| `Dummy.CalculateWithdrawal` | src/capstone_finance/strategies/dummy.py:15-27 | the withdrawal is always zero |
| `FourPercentRule.NoStateIsBase` | src/capstone_finance/strategies/four_percent_rule.py:27-30 | without a state the withdrawal is 4% of the initial balance |
| `FourPercentRule.CalculateWithdrawal` | src/capstone_finance/strategies/four_percent_rule.py:27-33 | with no state or zero inflation the withdrawal is 4% of the initial balance; for a positive initial balance it is non-negative exactly when there is no state or inflation is at least −100% |
| `FourPercentRule.IgnoresBalanceAndAge` | src/capstone_finance/strategies/four_percent_rule.py:27-33 | two states with the same inflation give the same withdrawal |
| `FourPercentRule.MonotoneInInflation` | src/capstone_finance/strategies/four_percent_rule.py:33 | higher inflation never lowers the withdrawal |
| `FourPercentRule.NonNegative` | src/capstone_finance/strategies/four_percent_rule.py:27-33 | the withdrawal is non-negative whenever inflation is at least −100% |
| `FourPercentRule.GoldenValues` | tests/strategies/test_four_percent_rule.py:15-80 | on $1,000,000: 40,000 without a state, 41,200 at 3% inflation and 39,200 at −2% |
| `ConstantPercentage.NewConstantPercentage` | src/capstone_finance/strategies/constant_percentage.py:16-28 | a percentage is accepted exactly when it lies in [0, 1], with the two source messages for the two failures |
| `ConstantPercentage.DependsOnlyOnBalance` | src/capstone_finance/strategies/constant_percentage.py:46-47 | with a state, only its balance matters |
| `ConstantPercentage.CalculateWithdrawal` | src/capstone_finance/strategies/constant_percentage.py:30-47 | for a percentage in [0, 1] and a non-negative balance (the state's, or the initial one without a state) the withdrawal lies between 0 and that balance; a zero percentage withdraws nothing |
| `ConstantPercentage.NoStateUsesInitialBalance` | src/capstone_finance/strategies/constant_percentage.py:42-44 | without a state the result equals the one for a state whose balance is the initial balance |
| `ConstantPercentage.WithinBalance` | src/capstone_finance/strategies/constant_percentage.py:30-47 | for a valid percentage the withdrawal lies between 0 and the balance |
| `ConstantPercentage.Extremes` | src/capstone_finance/strategies/constant_percentage.py:30-47 | zero balance withdraws nothing and 100% withdraws the whole balance |
| `Endowment.Validate` | src/capstone_finance/strategies/endowment.py:31-38 | parameters are accepted exactly when alpha and beta lie in [0, 1], their sum is within 1e-10 of 1 and window >= 1; each failure carries the source's message, checked in the source's order |
| `Endowment.Push` | src/capstone_finance/strategies/endowment.py:43-65 | appending to the bounded history keeps the newest `window` values: the length grows by one until it reaches the window, and the contents are the tail of history + [x] |
| `Endowment.Step` | src/capstone_finance/strategies/endowment.py:57-65 | after a call the history holds 1 to `window` values; without a state it is exactly [init_balance], with one the balance is pushed, and the newest entry is the current balance |
| `Endowment.Feed` | src/capstone_finance/strategies/endowment.py:43-65 | feeding several balances never exceeds the window |
| `Endowment.Newest` | src/capstone_finance/strategies/endowment.py:43 | the newest values of a sequence number at most `window` |
| `Endowment.PushNewest` | src/capstone_finance/strategies/endowment.py:43-65 | pushing onto the newest values of a sequence gives the newest values of the extended sequence |
| `Endowment.FeedKeepsNewest` | src/capstone_finance/strategies/endowment.py:43-65 | after any run of balances the history is the last `window` of everything seen, which is what `deque(maxlen=window)` promises |
| `Endowment.SumBounds` | src/capstone_finance/strategies/endowment.py:71 | the sum of values in [lo, hi] lies in [n·lo, n·hi] |
| `Endowment.QuotientBounds` | src/capstone_finance/strategies/endowment.py:71 | dividing such a sum by n stays in [lo, hi] |
| `Endowment.MeanBounds` | src/capstone_finance/strategies/endowment.py:71 | the moving average lies between the least and the greatest bound of the history |
| `Endowment.MeanSingleton` | src/capstone_finance/strategies/endowment.py:68-71 | the average of one value is that value |
| `Endowment.StepValue` | src/capstone_finance/strategies/endowment.py:67-76 | the withdrawal is alpha · current balance + beta · mean of the updated history |
| `Endowment.WeightedBounds` | src/capstone_finance/strategies/endowment.py:74 | the Yale blend of two values in [lo, hi] lies in [(alpha+beta)·lo, (alpha+beta)·hi] |
| `Endowment.StepHistoryBounds` | src/capstone_finance/strategies/endowment.py:57-65 | every value in the updated history stays within any bounds that held for the old history and the new balance |
| `Endowment.StepMeanBounds` | src/capstone_finance/strategies/endowment.py:67-71 | the moving average stays within those bounds |
| `Endowment.WithdrawalBounds` | src/capstone_finance/strategies/endowment.py:45-76 | the withdrawal lies in [(alpha+beta)·lo, (alpha+beta)·hi], so with alpha + beta = 1 it lies between the lowest and highest balance seen |
| `Endowment.NoStateRestarts` | src/capstone_finance/strategies/endowment.py:57-61 | a call without a state withdraws (alpha + beta) · init_balance, whatever the history was |
| `Endowment.WindowOneWithdrawsBalance` | src/capstone_finance/strategies/endowment.py:43-74 | with window 1 the average is the current balance, so the withdrawal is alpha·b + beta·b |
| `Endowment.MeanOf` | src/capstone_finance/strategies/endowment.py:71 | the loop that sums the history and divides returns the mean |
| `Endowment.EndowmentStrategy.constructor` | src/capstone_finance/strategies/endowment.py:20-43 | a strategy built from accepted parameters keeps them and starts with an empty history |
| `Endowment.EndowmentStrategy.CalculateWithdrawal` | src/capstone_finance/strategies/endowment.py:45-76 | the call returns the step's withdrawal and replaces the history with the step's new history, keeping it within the window |
| `Endowment.EndowmentStrategy.ResetHistory` | src/capstone_finance/strategies/endowment.py:89-94 | the history is emptied |
| `Endowment.NewEndowment` | src/capstone_finance/strategies/endowment.py:20-43 | construction fails exactly when validation does, with its error; otherwise it yields a fresh strategy with those parameters and an empty history |
| `Endowment.SumOfTwo` | tests/strategies/test_endowment.py:89-93 | the sum of a two-value history |
| `Endowment.SumOfThree` | tests/strategies/test_endowment.py:96-110 | the sum of a three-value history |
| `Endowment.GoldenSecondYear` | tests/strategies/test_endowment.py:89-93 | history [1,000,000] and balance 1,100,000 give 1,085,000 and history [1,000,000, 1,100,000] |
| `Endowment.GoldenThirdYear` | tests/strategies/test_endowment.py:95-100 | the third year gives 930,000 with a full window |
| `Endowment.GoldenFourthYear` | tests/strategies/test_endowment.py:102-111 | the fourth year drops the oldest value and gives 1,160,000 |
| `Endowment.GoldenSequence` | tests/strategies/test_endowment.py:59-111 | the documented four-year sequence gives 1,000,000, 1,085,000, 930,000 and 1,160,000 |
| `GuytonKlinger.Validate` | src/capstone_finance/strategies/guyton_klinger.py:52-59 | a configuration is accepted exactly when all four parameters lie strictly between 0 and 1; the first failing one is reported with the source's message |
| `GuytonKlinger.PositiveProduct` | src/capstone_finance/strategies/guyton_klinger.py:67-68 | a product of two positive numbers is positive, so both guardrails are positive |
| `GuytonKlinger.UpperGuardrail` | src/capstone_finance/strategies/guyton_klinger.py:67 | for a positive initial rate and a positive guard the upper guardrail lies above the initial rate |
| `GuytonKlinger.LowerGuardrail` | src/capstone_finance/strategies/guyton_klinger.py:68 | for a positive initial rate the lower guardrail lies below it when the guard is positive, and stays positive when the guard is below 1 |
| `GuytonKlinger.GuardrailsBracketInitialRate` | src/capstone_finance/strategies/guyton_klinger.py:66-68 | for a valid configuration 0 < lower guardrail < initial rate < upper guardrail |
| `GuytonKlinger.Step` | src/capstone_finance/strategies/guyton_klinger.py:75-140 | after any call the base withdrawal is set |
| `GuytonKlinger.NoStateReturnsBase` | src/capstone_finance/strategies/guyton_klinger.py:87-93 | without a state the call returns the base (setting it if unset) and leaves the cumulative factor and last year alone |
| `GuytonKlinger.BaseSetOnce` | src/capstone_finance/strategies/guyton_klinger.py:87-89 | the first call sets the base; without a state it is init_balance · initial_rate |
| `GuytonKlinger.NoStateKeepsMemory` | src/capstone_finance/strategies/guyton_klinger.py:91-93 | once the base is set, a call without a state changes nothing |
| `GuytonKlinger.YearBookkeeping` | src/capstone_finance/strategies/guyton_klinger.py:95-103 | with a state the last year becomes its year and the cumulative factor compounds on the first or a consecutive year only |
| `GuytonKlinger.NonPositiveBalanceWithdrawsNothing` | src/capstone_finance/strategies/guyton_klinger.py:111-113 | a balance <= 0 withdraws 0 and leaves the base unchanged |
| `GuytonKlinger.FailsOnlyOnZeroCumulative` | src/capstone_finance/strategies/guyton_klinger.py:127-138 | the only failure is ZeroDivisionError, when the cumulative factor is zero at the base update |
| `GuytonKlinger.Quotient` | src/capstone_finance/strategies/guyton_klinger.py:127-138 | dividing by the non-zero cumulative factor and multiplying back is exact |
| `GuytonKlinger.CutRule` | src/capstone_finance/strategies/guyton_klinger.py:120-127 | when the rate is above the upper guardrail and the balance is at most 120% of the initial balance, the withdrawal is cut by cut_pct and the new base re-inflates to it |
| `GuytonKlinger.RaiseRule` | src/capstone_finance/strategies/guyton_klinger.py:129-138 | when the rate is below the lower guardrail and the balance is at least 80% of the initial balance, the withdrawal is raised by raise_pct and the new base re-inflates to it |
| `GuytonKlinger.HoldRule` | src/capstone_finance/strategies/guyton_klinger.py:105-140 | when neither rule fires the withdrawal is the inflation-adjusted base and the base is kept |
| `GuytonKlinger.CutLowersRaiseLifts` | src/capstone_finance/strategies/guyton_klinger.py:125-136 | for a valid configuration a cut strictly lowers and a raise strictly lifts a positive withdrawal |
| `GuytonKlinger.BaseTracksWithdrawal` | src/capstone_finance/strategies/guyton_klinger.py:105-140 | after every successful call with a positive balance, base × cumulative factor equals the amount withdrawn |
| `GuytonKlinger.GuytonKlingerStrategy.constructor` | src/capstone_finance/strategies/guyton_klinger.py:37-73 | a strategy built from an accepted configuration starts with no base, factor 1 and no last year |
| `GuytonKlinger.GuytonKlingerStrategy.CalculateWithdrawal` | src/capstone_finance/strategies/guyton_klinger.py:75-140 | the call returns the step's result and leaves the fields equal to the step's new memory |
| `GuytonKlinger.GuytonKlingerStrategy.TrackInflation` | src/capstone_finance/strategies/guyton_klinger.py:95-103 | the factor is compounded as the step says, the last year is recorded and the base is untouched |
| `GuytonKlinger.GuytonKlingerStrategy.ApplyGuardrails` | src/capstone_finance/strategies/guyton_klinger.py:105-140 | the guardrail branch returns the step's withdrawal and leaves the step's memory |
| `GuytonKlinger.NewGuytonKlinger` | src/capstone_finance/strategies/guyton_klinger.py:37-73 | construction fails exactly when validation does, with its error; otherwise it yields a fresh strategy in the initial memory |
| `GuytonKlinger.GoldenInitialCall` | tests/strategies/test_guyton_klinger.py:59-67 | the first call on $1,000,000 returns 50,000 and stores it as the base |
| `GuytonKlinger.GoldenCut` | tests/strategies/test_guyton_klinger.py:89-107 | a balance of 750,000 at 2% inflation cuts the withdrawal to 45,900 |
| `GuytonKlinger.GoldenRaise` | tests/strategies/test_guyton_klinger.py:109-131 | a balance of 1,500,000 at 2% inflation raises it to 56,100 |
| `GuytonKlinger.GoldenNoCutWhenRich` | tests/strategies/test_guyton_klinger.py:133-160 | above 120% of the initial balance no cut applies: 81,600 |
| `GuytonKlinger.GoldenNoRaiseWhenPoor` | tests/strategies/test_guyton_klinger.py:162-182 | below 80% of the initial balance no raise applies: 20,400 |
| `GuytonKlinger.GoldenInflationSequence` | tests/strategies/test_guyton_klinger.py:184-223 | three consecutive years at 2%, 3% and 1% inflation give 51,000, 52,530 and 53,055.3 |
| `GuytonKlinger.GoldenZeroBalance` | tests/strategies/test_guyton_klinger.py:225-239 | a zero balance withdraws 0 |
| `Strategies.ReadyFits` | src/capstone_finance/strategies/base.py:15-29 | a strategy object in its class invariant holds memory of the form its rule expects |
| `Strategies.Decide` | src/capstone_finance/strategies/base.py:15-29 | one call of any shipped strategy keeps the memory in a fitting form; the four stateless ones never change it; only VPW and Guyton-Klinger can fail |
| `Strategies.DummyNeverDiffers` | src/capstone_finance/strategies/dummy.py:15-27 | the dummy strategy answers 0 and keeps no state whatever it is given |
| `Strategies.BehaviourOf` | src/capstone_finance/strategies/base.py:15-29 | the bound method answers every call as the strategy's rule does |
| `Strategies.StatelessRulesAreMemoryless` | src/capstone_finance/strategies/base.py:15-29 | the dummy, 4%, constant-percentage and VPW strategies ignore and keep their memory |
| `Strategies.DummyWithdrawsNothing` | src/capstone_finance/strategies/dummy.py:15-27 | the dummy strategy never withdraws anything |
| `Strategies.Shipped` | src/capstone_finance/core/ledger.py:78-81 | a shipped strategy has no `_needs_full_state` attribute and is bound to its own rule |
| `Strategies.CalculateWithdrawal` | src/capstone_finance/strategies/base.py:15-29 | calling a strategy object returns what its rule decides and leaves the object's fields as the rule's new memory |
| `Strategies.Call` | src/capstone_finance/core/ledger.py:89-94 | a call through the bound method gives the bound behaviour's answer and new memory |
| `Ledger.FeeFactor` | src/capstone_finance/core/ledger.py:42-43 | (1 − factor) × 10000 equals the fee in basis points, and the factor lies in [0, 1] for fees of at most 10000 bps |
| `Ledger.FeeFactorValues` | tests/core/test_ledger.py:46-59 | 0, 50 and 100 bps give factors 1, 0.995 and 0.99 |
| `Ledger.NoTax` | src/capstone_finance/core/ledger.py:122-133 | the default tax engine owes nothing |
| `Ledger.TaxOwed` | src/capstone_finance/core/ledger.py:99-102 | no tax is charged on a withdrawal of zero or less; without an engine the default applies |
| `Ledger.NextBalance` | src/capstone_finance/core/ledger.py:96-105 | a year's closing balance is never negative, and the year fails only when the tax engine does |
| `Ledger.Grow` | src/capstone_finance/core/ledger.py:105 | applying a non-negative fee factor and a return of at least −100% to a non-negative balance never makes it negative |
| `Ledger.EngineUnusedWithoutWithdrawal` | src/capstone_finance/core/ledger.py:99-105 | with no positive withdrawal the engine is not consulted and the balance is max(0, (b − w)·fee·(1 + r)) |
| `Ledger.EngineSeesPostWithdrawalBalance` | src/capstone_finance/core/ledger.py:97-102 | the engine is asked about the balance after the withdrawal: two engines that agree there give the same year |
| `Ledger.NoEngineIsZeroTax` | src/capstone_finance/core/ledger.py:40 | running without an engine is the same as running with the zero-tax engine |
| `Ledger.NextBalanceAntitone` | src/capstone_finance/core/ledger.py:96-105 | without tax, a larger withdrawal never leaves a larger balance |
| `Ledger.GoldenFirstYear` | tests/core/test_ledger.py:106-129 | 1,000,000 less 40,000 at 50 bps and 5% return closes at 1,002,960 |
| `Ledger.YearInput` | src/capstone_finance/core/ledger.py:78-94 | the strategy sees a state only when it asks for the full one, and then with the year's date, age, opening balance and zero inflation |
| `Ledger.YearSpec` | src/capstone_finance/core/ledger.py:71-116 | a year's record carries year 2024 + i, age 65 + i, zero inflation, a non-negative balance and the withdrawal decided; it fails exactly when the strategy or the tax engine fails |
| `Ledger.PathSpec` | src/capstone_finance/core/ledger.py:67-118 | a successful path has one record per year |
| `Ledger.RunSpec` | src/capstone_finance/core/ledger.py:45-120 | a successful run has one row per path and one record per year |
| `Ledger.PathFailurePersists` | src/capstone_finance/core/ledger.py:67-118 | once a year raises, the longer path raises the same error |
| `Ledger.RunFailurePersists` | src/capstone_finance/core/ledger.py:45-120 | once a path raises, the whole run raises the same error |
| `Ledger.PathShape` | src/capstone_finance/core/ledger.py:71-116 | every record of a path is dated from 2024 and age 65 in order, has zero inflation, a non-negative balance and a withdrawal |
| `Ledger.RunShape` | src/capstone_finance/core/ledger.py:45-120 | a successful run is paths × years records, each well dated |
| `Ledger.MemorylessPath` | src/capstone_finance/core/ledger.py:67-118 | for a strategy without memory the path does not depend on the memory, which it leaves unchanged |
| `Ledger.PathsRestart` | src/capstone_finance/core/ledger.py:67-69 | for a strategy without memory each path of the run equals that path run alone, from the initial balance |
| `Ledger.PathWithdrawals` | src/capstone_finance/core/ledger.py:78-113 | in such a path, year i records exactly the strategy's answer for that year's input and opening balance |
| `Ledger.ShippedStrategiesSeeNoState` | src/capstone_finance/core/ledger.py:92-94 | a strategy without `_needs_full_state` is always called with `None`, so every year records its answer for no state |
| `Ledger.DummyPathIgnoresState` | src/capstone_finance/core/ledger.py:78-94 | for a strategy that never withdraws, showing it the state or not gives the same path |
| `Ledger.DummyRunnersAgree` | tests/core/test_ledger.py:267-290 | `run` and the vectorized runner give the same records for the dummy strategy |
| `Ledger.NoWithdrawalYear` | src/capstone_finance/core/ledger.py:96-116 | a year without a withdrawal records max(0, b·fee·(1 + r)) and a zero withdrawal |
| `Ledger.DummyKeepsBalance` | tests/core/test_ledger.py:61-79 | with the dummy strategy, zero fees and zero returns, every year closes at the initial balance with a zero withdrawal |
| `Ledger.AfterFeesIsPower` | src/capstone_finance/core/ledger.py:105 | n years in which only the fee acts multiply the balance by fee^n |
| `Ledger.AfterFeesNonNegative` | src/capstone_finance/core/ledger.py:105 | that balance stays non-negative |
| `Ledger.DummyCompounds` | tests/core/test_ledger.py:81-104 | with the dummy strategy and zero returns, year i closes at init · fee^(i+1) |
| `Ledger.OpeningAfterFees` | src/capstone_finance/core/ledger.py:69-105 | the balance a year opens with is the previous year's compounded close |
| `Ledger.CompoundedSnoc` | src/capstone_finance/core/ledger.py:105-116 | appending a correctly compounded year keeps the path compounded |
| `Ledger.NoWithdrawalStep` | src/capstone_finance/core/ledger.py:71-116 | one more year without a withdrawal appends fee·(1 + r) times the opening balance, floored at zero |
| `Ledger.CompoundStep` | src/capstone_finance/core/ledger.py:105 | at zero return a year multiplies a compounded balance by one more fee factor |
| `Ledger.GoldenDummyWithFees` | tests/core/test_ledger.py:81-104 | at 100 bps and zero returns the dummy strategy closes at 990,000, 980,100 and 970,299 |
| `Ledger.GoldenFourPercentYear` | tests/core/test_ledger.py:106-129 | the 4% rule's first year on 1,000,000 at 50 bps and 5% records 1,002,960 and 40,000 |
| `Ledger.PathExtend` | src/capstone_finance/core/ledger.py:71-116 | a path one year longer appends the next record or stops at its error |
| `Ledger.RunExtend` | src/capstone_finance/core/ledger.py:67-118 | a run one path longer appends that path's records or stops at its error |
| `Ledger.Year` | src/capstone_finance/core/ledger.py:71-116 | the loop body of `run` gives the specified record and leaves the strategy's memory as specified |
| `Ledger.Path` | src/capstone_finance/core/ledger.py:67-118 | the inner loop gives the specified path and memory |
| `Ledger.CashFlowLedger.constructor` | src/capstone_finance/core/ledger.py:20-43 | the ledger keeps its strategy, parameters and engine and caches the fee factor |
| `Ledger.CashFlowLedger.Run` | src/capstone_finance/core/ledger.py:45-120 | `run` over the generated returns gives the specified records, or the first error raised, and leaves the strategy's memory as specified |
| `Ledger.NotAStrategy` | src/capstone_finance/core/ledger.py:164 | the freshly allocated balance array is none of the strategy objects |
| `Ledger.YearInto` | src/capstone_finance/core/ledger.py:181-207 | one year of the vectorized runner writes the specified closing balance into its cell and no other cell |
| `Ledger.PathInto` | src/capstone_finance/core/ledger.py:178-207 | one path of the vectorized runner fills its row with the specified balances and leaves the other rows alone |
| `Ledger.VectorizedSetup` | src/capstone_finance/core/ledger.py:167-193 | the vectorized runner always passes the full state and uses the same fee factor and tax rule as the ledger |
| `Ledger.RunSimulationVectorized` | src/capstone_finance/core/ledger.py:136-209 | the result is a fresh paths × years array whose cells are the closing balances of the specified run (always with a full state), or the first error |
| `Tax.TablesWellFormed` | src/capstone_finance/core/tax.py:25-44 | both 2025 tables start at threshold 0, have strictly ascending thresholds and non-decreasing rates, and top out at 37% |
| `Tax.TaxOf` | src/capstone_finance/core/tax.py:57-128 | non-positive income owes 0 for any status; otherwise an unknown filing status is an error, and the tax lies between 0 and 37% of the income |
| `Tax.CalcTax` | src/capstone_finance/core/tax.py:57-128 | `calc_tax`, with its early returns and bracket loop, returns the specified tax |
| `Tax.AccumulateBrackets` | src/capstone_finance/core/tax.py:103-126 | the bracket loop, which stops once no income remains, accumulates exactly the bracket-by-bracket tax |
| `Tax.RateNonNegative` | src/capstone_finance/core/tax.py:25-44 | every bracket rate is non-negative |
| `Tax.InBracketRange` | src/capstone_finance/core/tax.py:111-119 | the income taxed in a bracket is positive and at most what remains |
| `Tax.WalkWithinBracket` | src/capstone_finance/core/tax.py:117-122 | income that fits in one bracket is taxed at that bracket's rate alone |
| `Tax.WalkPastBracket` | src/capstone_finance/core/tax.py:117-126 | income past a bracket fills it and hands the rest on to the next one |
| `Tax.WalkNonNegative` | src/capstone_finance/core/tax.py:103-126 | the accumulated tax is never negative |
| `Tax.WalkAtMostTopRate` | src/capstone_finance/core/tax.py:103-126 | the accumulated tax is at most the top rate times the income |
| `Tax.WalkIncrement` | src/capstone_finance/core/tax.py:103-126 | each extra dollar costs at least the current bracket's rate, so tax never falls as income grows |
| `Tax.WalkAverageMonotone` | src/capstone_finance/core/tax.py:103-126 | with ascending rates the average rate never falls as income grows |
| `Tax.WalkSplit` | src/capstone_finance/core/tax.py:107-126 | the tax splits at any bracket's threshold into the tax below it and the tax from that bracket on |
| `Tax.ScanDown` | src/capstone_finance/core/tax.py:173-175 | scanning the brackets from the top finds one whose threshold lies strictly below the income, with every higher one at or above it |
| `Tax.ScanDownFindsHighest` | src/capstone_finance/core/tax.py:173-178 | the bracket found is the highest below the income, and finding none means every threshold is at or above it |
| `Tax.TopBracket` | src/capstone_finance/core/tax.py:170-178 | the bracket chosen holds the income: its threshold lies below it and the next one at or above it |
| `Tax.MarginalTaxRate` | src/capstone_finance/core/tax.py:148-178 | non-positive income has rate 0; an unknown status raises KeyError on the deduction lookup; otherwise the rate lies in [10%, 37%] |
| `Tax.RateBetween` | src/capstone_finance/core/tax.py:25-44 | every bracket's rate lies between the first and the top rate |
| `Tax.WalkInBracket` | src/capstone_finance/core/tax.py:103-126 | income in bracket k costs the tax up to its threshold plus k's rate on the rest |
| `Tax.LastDollarsAtTopRate` | src/capstone_finance/core/tax.py:148-178 | the marginal rate is the price of the last dollars: above that bracket's threshold, tax grows at exactly that rate |
| `Tax.LastDollarsInBracket` | src/capstone_finance/core/tax.py:103-126 | between a bracket's threshold and any income inside it, tax grows at that bracket's rate |
| `Tax.TaxIsWalk` | src/capstone_finance/core/tax.py:86-128 | with zero deductions, a known status taxes the income itself bracket by bracket |
| `Tax.StatusTableWellFormed` | src/capstone_finance/core/tax.py:101 | the table chosen for any status is well formed |
| `Tax.MarginalIsTopBracketRate` | src/capstone_finance/core/tax.py:160-178 | for positive income the marginal rate is the rate of the bracket holding the income |
| `Tax.TaxMonotone` | src/capstone_finance/core/tax.py:57-128 | more income never means less tax |
| `Tax.EffectiveTaxRate` | src/capstone_finance/core/tax.py:131-145 | the effective rate is 0 for non-positive income, fails only on an unknown status, and otherwise lies in [0, 37%] |
| `Tax.EffectiveIsAverage` | src/capstone_finance/core/tax.py:141-145 | for positive income the effective rate is the tax divided by the income |
| `Tax.EffectiveRateMonotone` | src/capstone_finance/core/tax.py:131-145 | the effective rate never falls as income grows |
| `Tax.AverageRateMonotone` | src/capstone_finance/core/tax.py:103-126 | the bracket tax's average rate never falls as income grows |
| `Tax.CreateTaxEngine` | src/capstone_finance/core/tax.py:182-212 | the engine taxes the withdrawal as income under the chosen status |
| `Tax.EngineIgnoresBalance` | src/capstone_finance/core/tax.py:198-210 | the engine's answer does not depend on the balance it is handed |
| `Tax.EngineTotalForKnownStatus` | src/capstone_finance/core/tax.py:198-210 | with a known status the engine never fails and charges between 0 and 37% of the withdrawal |
| `Tax.GoldenTaxValues` | tests/core/test_tax.py:24-42 | $50,000 single owes $6,617, $1 owes 10 cents for either status, and zero or negative income owes nothing |
| `Tax.GoldenMarginalRates` | tests/core/test_tax.py:111-130 | $50,000 single is in the 22% bracket, $5,000 in the 10% one, and zero income has marginal and effective rate 0 |
| `Tax.UnknownStatusErrors` | tests/core/test_tax.py:74-77 | an invalid status makes `calc_tax` raise ValueError and the marginal rate raise KeyError |
| `Vpw.Get` | src/capstone_finance/strategies/vpw.py:156-160 | a lookup finds nothing exactly when no entry has the key, and otherwise returns the value of an entry with that key |
| `Vpw.GetAt` | src/capstone_finance/strategies/vpw.py:156 | in a dict with distinct keys, looking up an entry's key gives that entry's value |
| `Vpw.Put` | src/capstone_finance/strategies/vpw.py:113-114 | `d[k] = v` keeps the order and every other entry, replaces in place when k is present and appends (k, v) otherwise |
| `Vpw.PutGet` | src/capstone_finance/strategies/vpw.py:113-114 | after `d[k] = v`, `d[k]` is v |
| `Vpw.PutGetOther` | src/capstone_finance/strategies/vpw.py:113-114 | `d[k] = v` leaves every other key's value unchanged |
| `Vpw.PutAppends` | src/capstone_finance/strategies/vpw.py:113-114 | a new key goes after all the others |
| `Vpw.PutDistinct` | src/capstone_finance/strategies/vpw.py:113-114 | `d[k] = v` keeps the keys distinct |
| `Vpw.ParseInt` | src/capstone_finance/strategies/vpw.py:109-112 | `int()` of a string fails only with ValueError, and always on the empty string |
| `Vpw.NatDigits` | src/capstone_finance/strategies/vpw.py:109-112 | the decimal text of a natural number is non-empty and starts with a digit |
| `Vpw.NatDigitsValue` | src/capstone_finance/strategies/vpw.py:109-112 | reading back the digits of n gives n |
| `Vpw.ParseDecimal` | src/capstone_finance/strategies/vpw.py:109-112 | `int(str(n)) == n` for every integer, so a key written as text reads back as itself |
| `Vpw.ParseNegative` | src/capstone_finance/strategies/vpw.py:109-112 | a minus sign followed by digits reads as the negative number |
| `Vpw.ParseUnsigned` | src/capstone_finance/strategies/vpw.py:109-112 | a string of digits reads as its value |
| `Vpw.ParseIntRejects` | src/capstone_finance/strategies/vpw.py:109-112 | "", "-" and "6a" are refused |
| `Vpw.Coerce` | src/capstone_finance/strategies/vpw.py:109-112 | an int key is kept as it is, unconverted |
| `Vpw.CoerceAgeTable` | src/capstone_finance/strategies/vpw.py:110-113 | a converted age table has distinct ages and no more entries than the file's |
| `Vpw.CoerceData` | src/capstone_finance/strategies/vpw.py:103-116 | a loaded table has only int equity keys, and they are distinct |
| `Vpw.CoerceAgeTableFailurePersists` | src/capstone_finance/strategies/vpw.py:111-113 | once an age key fails to convert, loading fails with that error |
| `Vpw.CoerceDataFailurePersists` | src/capstone_finance/strategies/vpw.py:108-114 | once an equity entry fails to convert, loading fails with that error |
| `Vpw.CoerceAgeTableStep` | src/capstone_finance/strategies/vpw.py:111-113 | one more age entry is either stored with `d[k] = v` or raises its key's error |
| `Vpw.CoerceDataStep` | src/capstone_finance/strategies/vpw.py:108-114 | one more equity entry is stored with `d[k] = v`, or raises the first error of its key or age table |
| `Vpw.CoerceDataLast` | src/capstone_finance/strategies/vpw.py:108-114 | the last entry of a loaded table is stored on top of the earlier ones |
| `Vpw.LoadedKeysPresent` | src/capstone_finance/strategies/vpw.py:103-116 | every equity key of the file is present as an int after loading |
| `Vpw.LastKeyPresent` | src/capstone_finance/strategies/vpw.py:114 | the last equity key of the file is present after loading |
| `Vpw.PutKeepsKeys` | src/capstone_finance/strategies/vpw.py:114 | `d[k] = v` keeps every key already present |
| `Vpw.LastEntryWins` | src/capstone_finance/strategies/vpw.py:108-114 | when two file keys convert to the same int, the later entry's age table wins |
| `Vpw.LoadCustomTable` | src/capstone_finance/strategies/vpw.py:94-116 | the nested loops of `_load_custom_table` return the specified conversion, or its first error |
| `Vpw.Truncate` | src/capstone_finance/strategies/vpw.py:127 | `int(x)` rounds toward zero: for x >= 0 it is the floor, for x < 0 the ceiling |
| `Vpw.ClosestKey` | src/capstone_finance/strategies/vpw.py:143 | the key chosen is one of the keys, no farther from the target than any other, and strictly closer than every key before it |
| `Vpw.ClosestKeyIsFirstClosest` | src/capstone_finance/strategies/vpw.py:143 | conversely, the first key at the least distance is the one chosen |
| `Vpw.SelectedKey` | src/capstone_finance/strategies/vpw.py:118-144 | the equity key is the first table key closest to the truncated percentage |
| `Vpw.Keys` | src/capstone_finance/strategies/vpw.py:128 | the key list has one entry per table entry, in table order |
| `Vpw.IntKeys` | src/capstone_finance/strategies/vpw.py:134-140 | on success every key is converted in place; a failure is the error of some key |
| `Vpw.IntKeysFailurePersists` | src/capstone_finance/strategies/vpw.py:136-140 | once a key fails to convert, the whole list fails with that error |
| `Vpw.EquityKeyIsTableKey` | src/capstone_finance/strategies/vpw.py:118-144 | the selected key is one of the table's keys after conversion |
| `Vpw.EquityKeyIsClosest` | src/capstone_finance/strategies/vpw.py:143 | no table key is closer to the truncated percentage than the selected one |
| `Vpw.EquityKeyFirstOnTies` | src/capstone_finance/strategies/vpw.py:143 | among keys at the same distance the first in table order wins |
| `Vpw.EmptyTableRaises` | src/capstone_finance/strategies/vpw.py:130-132 | an empty table raises ValueError with the source's message |
| `Vpw.CoerceKeys` | src/capstone_finance/strategies/vpw.py:134-140 | the `int_keys` loop returns the specified list, or the first conversion error |
| `Vpw.MinByDistance` | src/capstone_finance/strategies/vpw.py:143 | the scan that keeps a key only when strictly closer returns the specified closest key |
| `Vpw.EquityAllocationKey` | src/capstone_finance/strategies/vpw.py:118-144 | `_get_equity_allocation_key` returns the specified key, or the error it raises |
| `Vpw.EquityKey` | src/capstone_finance/strategies/vpw.py:118-144 | an empty table raises ValueError with the source's message; every failure is a ValueError; a selected key is the converted key of some table entry |
| `Vpw.MinAge` | src/capstone_finance/strategies/vpw.py:163 | the minimum age is an age of the table and no greater than any other |
| `Vpw.MaxAge` | src/capstone_finance/strategies/vpw.py:168 | the maximum age is an age of the table and no less than any other |
| `Vpw.Below` | src/capstone_finance/strategies/vpw.py:173-176 | the nearest age below is absent exactly when no age lies below, and otherwise is the greatest age below |
| `Vpw.Above` | src/capstone_finance/strategies/vpw.py:173-176 | the nearest age above is absent exactly when no age lies above, and otherwise is the least age above |
| `Vpw.AgeTableFor` | src/capstone_finance/strategies/vpw.py:156 | `vpw_tables[key]` fails exactly when no entry has the int key |
| `Vpw.WithdrawalPercentage` | src/capstone_finance/strategies/vpw.py:158-185 | the age lookup fails exactly when the age table is empty, then with `min()`'s ValueError; any rate it returns is at most 10% |
| `Vpw.Percentage` | src/capstone_finance/strategies/vpw.py:146-185 | an empty equity table raises the source's ValueError; any failure is a ValueError or a KeyError; any fraction returned is at most 10% |
| `Vpw.ExactAge` | src/capstone_finance/strategies/vpw.py:158-160 | an age in the table gives its own rate, capped at 10% |
| `Vpw.BelowYoungestAge` | src/capstone_finance/strategies/vpw.py:162-165 | an age below the youngest gives the youngest age's rate, capped |
| `Vpw.AboveOldestAge` | src/capstone_finance/strategies/vpw.py:167-170 | an age above the oldest gives the oldest age's rate, capped |
| `Vpw.BetweenNeighbours` | src/capstone_finance/strategies/vpw.py:172-182 | an age between two neighbouring ages of the table gives their linear interpolation, capped |
| `Vpw.NeighbourBelow` | src/capstone_finance/strategies/vpw.py:173-176 | the neighbour below an age is the greatest table age below it |
| `Vpw.NeighbourAbove` | src/capstone_finance/strategies/vpw.py:173-176 | the neighbour above an age is the least table age above it |
| `Vpw.FallbackUnreachable` | src/capstone_finance/strategies/vpw.py:184-185 | for an age inside the table's range but not in it, both neighbours exist, so the 4% fallback is never reached |
| `Vpw.InterpolateBetween` | src/capstone_finance/strategies/vpw.py:179-181 | the interpolated rate lies between the two neighbours' rates |
| `Vpw.WeightInUnitInterval` | src/capstone_finance/strategies/vpw.py:180 | the interpolation weight lies in [0, 1] |
| `Vpw.StepWithin` | src/capstone_finance/strategies/vpw.py:181 | moving a fraction in [0, 1] of the way from a to b stays between a and b |
| `Vpw.StepUp` | src/capstone_finance/strategies/vpw.py:181 | the same when a <= b |
| `Vpw.PercentageBounds` | src/capstone_finance/strategies/vpw.py:146-185 | the withdrawal fraction is at most 10%, and non-negative when the table's rates are |
| `Vpw.CapBounds` | src/capstone_finance/strategies/vpw.py:160 | the cap `min(rate, 10) / 100` is at most 0.10, and non-negative for a non-negative rate |
| `Vpw.GetNonNegative` | src/capstone_finance/strategies/vpw.py:156-160 | a rate looked up in a table of non-negative rates is non-negative |
| `Vpw.EmptyAgeTableRaises` | src/capstone_finance/strategies/vpw.py:163 | an empty age table raises in `min()` |
| `Vpw.NoStateUsesDefaults` | src/capstone_finance/strategies/vpw.py:199-202 | without a state the strategy uses age 65 and the initial balance |
| `Vpw.StateSuppliesAgeAndBalance` | src/capstone_finance/strategies/vpw.py:203-205 | with a state it uses the state's age and balance |
| `Vpw.ApplyFractionScales` | src/capstone_finance/strategies/vpw.py:213-214 | the withdrawal is balance × fraction, and a lookup error passes through unchanged |
| `Vpw.ApplyFraction` | src/capstone_finance/strategies/vpw.py:213-214 | a withdrawal exists exactly when the fraction was found; a fraction of at most 10% of a non-negative balance gives at most a tenth of it |
| `Vpw.CalculateWithdrawal` | src/capstone_finance/strategies/vpw.py:187-216 | an empty equity table raises the source's ValueError; a withdrawal from a non-negative balance (the state's, or the initial one without a state) is at most 10% of it |
| `Vpw.ApplyFractionBounds` | src/capstone_finance/strategies/vpw.py:213-214 | a fraction in [0, 10%] of a non-negative balance lies between 0 and a tenth of it |
| `Vpw.PercentageInRange` | src/capstone_finance/strategies/vpw.py:207-211 | with non-negative table rates the looked-up fraction lies in [0, 10%] |
| `Vpw.WithdrawalBounds` | src/capstone_finance/strategies/vpw.py:187-216 | a non-negative balance never gives a negative withdrawal or one above 10% of the balance |
| `Vpw.LoadedTableFindsKey` | src/capstone_finance/strategies/vpw.py:103-156 | a table read from a file never fails the `vpw_tables[key]` lookup |
| `Vpw.DirectStringKeysRaise` | src/capstone_finance/strategies/vpw.py:89-90 | a table passed directly with string equity key "60" finds key 60 (the search converts keys) but the lookup by int raises KeyError |
| `Vpw.StringSixtyKeys` | src/capstone_finance/strategies/vpw.py:134-140 | the string key "60" converts to the int 60 |
| `Vpw.SelectedKeyMissing` | src/capstone_finance/strategies/vpw.py:156 | a selected key that is not an int key of the table raises KeyError |
| `Vpw.SixtyAsText` | src/capstone_finance/strategies/vpw.py:109-112 | `int("60") == 60` and `str(60) == "60"` |
| `Vpw.AgesFrom` | src/capstone_finance/strategies/vpw.py:29-74 | each default age table lists consecutive ages with their rates, and the ages are distinct |
| `Vpw.NewVpw` | src/capstone_finance/strategies/vpw.py:76-92 | the strategy uses a loaded file's converted table if given, else the table passed in as is, else the defaults |
| `Vpw.DefaultIntKeys` | src/capstone_finance/strategies/vpw.py:29-74 | the default tables' keys are 20, 40, 60 and 80, in that order |
| `Vpw.GoldenEquityKeyNearest` | tests/strategies/test_vpw.py:70-80 | 55% equity selects the 60% table |
| `Vpw.GoldenEquityKeyTie` | tests/strategies/test_vpw.py:81-85 | 30% equity, equally far from 20 and 40, selects 20 |
| `Vpw.GoldenEquityKeyExact` | tests/strategies/test_vpw.py:16-25 | 60% equity selects the 60% table |
| `Vpw.DefaultTableAt` | src/capstone_finance/strategies/vpw.py:29-74 | the default table for 20·(i+1)% is the i-th |
| `Vpw.GoldenDefaultPercentages` | tests/strategies/test_vpw.py:87-107 | the 60% table gives 3.6% at 65, 2.5% at 40 and 10% at 100 |
| `Vpw.GoldenDefaultWithdrawal` | tests/strategies/test_vpw.py:16-68 | $1,000,000 at 60% equity withdraws $36,000 at age 65, with or without a state |
| `Vpw.GoldenInterpolation` | tests/strategies/test_vpw.py:347-371 | the table {60: 3.0, 70: 5.0} gives 3.4%, 4.0% and 4.6% at 62, 65 and 68 |
| `Vpw.GoldenLoad` | tests/strategies/test_vpw.py:317-345 | a file with string keys loads with int keys and its rates kept |
| `Config.AllFieldsListed` | src/capstone_finance/config.py:27-96 | the field list holds every one of the model's nineteen fields |
| `Config.KeyOf` | src/capstone_finance/config.py:163-168 | a name is a field key exactly for the field of that name; any other name stays as it is |
| `Config.KeyOfName` | src/capstone_finance/config.py:27-96 | each field's own name maps back to that field |
| `Config.Check` | src/capstone_finance/config.py:27-96 | a value passes a field's type and bound check exactly when it conforms, and then is stored unchanged |
| `Config.Dump` | src/capstone_finance/config.py:163 | `model_dump()` has one key per field and no other key, each holding that field's value |
| `Config.DumpLookup` | src/capstone_finance/config.py:163 | looking up a field in the dump gives the field's value |
| `Config.BuildField` | src/capstone_finance/config.py:27-96 | a model built from validated data holds each field's validated value |
| `Config.BuildFromField` | src/capstone_finance/config.py:27-96 | building from per-field values keeps each conforming value |
| `Config.PostInit` | src/capstone_finance/config.py:98-106 | `model_post_init` accepts exactly a known market mode with \|alpha + beta - 1\| <= 1e-10, checks the market mode first, and raises each error's message |
| `Config.Validate` | src/capstone_finance/config.py:24-106 | a model that validates is valid, and each field holds the given value or its default after the field checks |
| `Config.AllFieldsValid` | src/capstone_finance/config.py:27-96 | when no field fails its check, every built field conforms and holds its checked value |
| `Config.FieldValidates` | src/capstone_finance/config.py:27-96 | when no field fails its check, each field has a checked value |
| `Config.BuildFromFields` | src/capstone_finance/config.py:27-96 | building from a model's own field values gives back that model |
| `Config.BuildFromFirst` | src/capstone_finance/config.py:27-39 | the same, for the core and portfolio fields |
| `Config.BuildFromSecond` | src/capstone_finance/config.py:42-71 | the same, for the market, output, constant-percentage and endowment weight fields |
| `Config.BuildFromThird` | src/capstone_finance/config.py:72-96 | the same, for the window, Guyton-Klinger and VPW fields |
| `Config.ValidatesTo` | src/capstone_finance/config.py:24-106 | data with no extra keys whose fields check to a model's values validates exactly as `model_post_init` judges that model |
| `Config.DumpRoundTrip` | src/capstone_finance/config.py:163-170 | re-validating a model's dump gives back the model exactly when the model is valid |
| `Config.DefaultConforms` | src/capstone_finance/config.py:27-96 | each field's default passes its own check |
| `Config.DefaultsAreValid` | tests/test_config.py:15-40 | `ConfigModel()` validates, to the defaults |
| `Config.InvalidFieldRaises` | src/capstone_finance/config.py:27-96 | a field value that fails its check makes validation raise, naming that field |
| `Config.ExtraKeyRaises` | src/capstone_finance/config.py:24 | with `extra="forbid"` a key that is not a field makes validation raise, naming that key |
| `Config.OutOfBoundsRaise` | tests/test_config.py:64-72 | equity_pct 1.5 and years 0 are refused |
| `Config.UnknownMarketModeRaises` | tests/test_config.py:74-76 | a market mode other than lognormal or bootstrap raises the market-mode ValueError |
| `Config.AlphaBetaSumRaises` | tests/test_config.py:78-80 | alpha 0.6 with beta 0.5 raises the alpha + beta ValueError |
| `Config.MergeCliArgs` | src/capstone_finance/config.py:150-170 | the loop over the CLI arguments produces the dump overlaid with every non-None argument whose name the model has as an attribute, validated again; a success is valid |
| `Config.HasAttr` | src/capstone_finance/config.py:167 | `hasattr(self, key)` holds exactly when the name is a declared field or one of the class attributes |
| `Config.Overlay` | src/capstone_finance/config.py:163-168 | overlaying arguments removes no key of the dumped data, and when only field names are written every added key is a field |
| `Config.MergeKnownFields` | src/capstone_finance/config.py:150-170 | the merge that writes only field names gives a valid model when it succeeds |
| `Config.OverlayKeeps` | src/capstone_finance/config.py:166-168 | a field that no argument sets to a non-None value keeps its value |
| `Config.OverlayLastWins` | src/capstone_finance/config.py:166-168 | a field takes the value of the last argument that sets it to a non-None value |
| `Config.OverlaySkips` | src/capstone_finance/config.py:166-168 | an argument that is not written can be dropped without changing the result |
| `Config.OverlayKeepsKey` | src/capstone_finance/config.py:168 | every argument that is written leaves its key in the data |
| `Config.OverlayFieldsOnly` | src/capstone_finance/config.py:166-168 | writing only field names adds no extra key |
| `Config.MergeKeepsField` | tests/test_config.py:177-209 | after a successful merge, a field no argument set keeps the original model's value |
| `Config.MergeOverrides` | tests/test_config.py:177-209 | after a successful merge, a field takes the checked value of its last non-None argument |
| `Config.NothingWrittenKeepsConfig` | src/capstone_finance/config.py:166-170 | when no argument is written, merging a valid model gives back the same model |
| `Config.NothingWritten` | src/capstone_finance/config.py:166-168 | when no argument is written, the data is unchanged |
| `Config.UnknownNameIgnored` | tests/test_config.py:211-223 | an argument whose name the model lacks, such as `invalid_key`, is dropped, by both merges |
| `Config.NonFieldIgnored` | src/capstone_finance/config.py:166-168 | the corrected merge drops every argument that is not a field name |
| `Config.MethodNameRaises` | src/capstone_finance/config.py:166-170 | as written, a non-None argument named like a method or other class attribute is written into the data, and validation then raises naming it |
| `Config.MethodNamesAreNotFields` | src/capstone_finance/config.py:27-96 | no class attribute name is a field name |
| `Config.MergeToYamlRaises` | src/capstone_finance/config.py:166-170 | as written, `merge_cli_args(to_yaml=v)` with v not None raises, naming `to_yaml` |
| `Config.LoneNonFieldIgnored` | src/capstone_finance/config.py:166-170 | in the corrected merge, a valid model merged with one non-field argument comes back unchanged |
| `Config.OverlayOneSkipped` | src/capstone_finance/config.py:166-168 | a single argument that is not written leaves the data unchanged |

## Left out

- **Floating point.** All arithmetic is exact `real` arithmetic. Tolerances, IEEE rounding and
  NaN or infinity are not modelled. The floating-point product inside `int(equity_pct * 100)`
  is exact here.
- **Tax rounding.** The `round(total_tax, 2)` at src/capstone_finance/core/tax.py:128 is dropped:
  - Tax.CalcTax states the tax before rounding to cents;
  - so do Tax.TaxOf, the effective rate and the tax engine.
- **Random number generation.**
  - The PCG64 generator, `standard_normal`, `integers` and the seeded synthetic history are
    inputs: the normal draws, the index arrays and a 100-year history.
  - The bounds those draws satisfy are preconditions.
  - Bit-exact reproduction of a seed is not modelled.
  - `_load_historical_data` is replaced by its output, taken as a parameter.
- **`load_shiller_data`** is not modelled: it creates a directory and returns an empty frame.
- **File I/O.** YAML and file I/O are not modelled:
  - `ConfigModel.from_yaml`/`to_yaml`;
  - the models' `from_yaml`/`to_yaml`;
  - the file read inside VPW's `_load_custom_table`.
  - The VPW loader starts from the parsed data, a list of key/table pairs in file order.
- **The returns matrix is an input.** The ledger runners take the returns matrix that the market
  simulator produces for the run. The generator call inside the runners is not repeated in the
  model.
- **Wall-clock timing, benchmarks, the CLI, plotting and reporting** are not part of this model.
- **The strategy interface.** Dafny traits are not used. The strategy family is a tagged variant
  (`Strategies.Rule`), held in a `Strategies.StrategyHandle` with the `needsFullState` flag. Endowment and Guyton-Klinger wrap their
  class objects.
- Strategies.Decide: it extends the dispatch to memory that does not fit the rule: on such memory
  the call withdraws nothing and keeps the memory. Only calls inside Strategies.ReadyFits are claimed faithful.
- **Frozen records.** Frozen pydantic records are Dafny datatypes, which are immutable by
  construction, so there is no assignment operation to refuse.
- **Display and plumbing.** `__str__`/`__repr__` formatting and the package `__init__` re-exports
  are not modelled.
- **Pydantic validation.**
  - Validation is reduced to the field type and bound checks, `extra="forbid"`, defaults and
    `model_post_init`.
  - Lax coercions (numeric strings, booleans as integers) and `validate_assignment` are not
    modelled.
  - An error is the set of field names that failed, not pydantic's ordered message list.
- Config.ClassAttributes: it lists only the attribute names config.py itself declares or calls.
  Pydantic's other inherited attribute names would behave the same way under `hasattr`.
- Vpw.ParseInt: it accepts an optional `+` or `-` sign followed by ASCII decimal digits. Python's
  `int()` also accepts surrounding whitespace, underscores between digits and non-ASCII decimal
  digits; those forms are not modelled and are refused.
- **Python version of error messages.** Messages raised by Python itself follow CPython 3.11. For
  example, `Vpw.WithdrawalPercentage` fails on an empty age table with "min() arg is an empty
  sequence"; CPython 3.12 and later word it "min() iterable argument is empty".
- Vpw.Coerce: its contract states only the int-key case. The string case is stated by
  Vpw.ParseDecimal, Vpw.ParseUnsigned and Vpw.ParseIntRejects.
- **The `tax_filing_status` test.** tests/core/test_tax.py:258-274 expects a `tax_filing_status`
  field that src/capstone_finance/config.py does not declare. The model follows config.py, so that
  field does not exist.
- **Tax docstring examples.** The examples at src/capstone_finance/core/tax.py:72-77 disagree with
  the bracket tables and are not asserted. The model follows the tables.

## Findings

| source | as written | input that shows it | evidently intended | confidence | as-written member | corrected member |
|---|---|---|---|---|---|---|
| src/capstone_finance/config.py:166-170 | `hasattr(self, key)` also accepts method and class-attribute names, so such an argument is written into the dumped dict, and `extra="forbid"` then rejects it | `merge_cli_args(to_yaml="x")` | only field names are merged; any other name is ignored, as for `invalid_key` in tests/test_config.py:211-223 | medium, not executed | `Config.MergeToYamlRaises` | `Config.LoneNonFieldIgnored` |
