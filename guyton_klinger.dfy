/**
 * The Guyton-Klinger guardrails strategy (src/capstone_finance/strategies/guyton_klinger.py).
 * A base withdrawal, re-inflated every consecutive year, is cut when the current
 * withdrawal rate rises above the upper guardrail and raised when it falls below
 * the lower one, each only inside a band of balances around the initial balance.
 */
module GuytonKlinger {
  import opened Wrappers
  import opened Models

  /** The four constructor parameters. */
  datatype GkConfig = GkConfig(initialRate: real, guardPct: real, raisePct: real, cutPct: real)

  const DefaultConfig: GkConfig := GkConfig(0.05, 0.20, 0.10, 0.10)

  predicate InUnitInterval(x: real) {
    0.0 < x < 1.0
  }

  predicate ValidConfig(c: GkConfig) {
    InUnitInterval(c.initialRate) && InUnitInterval(c.guardPct) &&
    InUnitInterval(c.raisePct) && InUnitInterval(c.cutPct)
  }

  /** The constructor's checks, in the order the source makes them. */
  function Validate(c: GkConfig): (r: Result<(), Error>)
    ensures r.Success? <==> ValidConfig(c)
    ensures !InUnitInterval(c.initialRate) ==> r == Failure(ValueError("initial_rate must be between 0 and 1"))
    ensures InUnitInterval(c.initialRate) && !InUnitInterval(c.guardPct) ==>
              r == Failure(ValueError("guard_pct must be between 0 and 1"))
    ensures InUnitInterval(c.initialRate) && InUnitInterval(c.guardPct) && !InUnitInterval(c.raisePct) ==>
              r == Failure(ValueError("raise_pct must be between 0 and 1"))
    ensures (InUnitInterval(c.initialRate) && InUnitInterval(c.guardPct) && InUnitInterval(c.raisePct) &&
             !InUnitInterval(c.cutPct)) ==> r == Failure(ValueError("cut_pct must be between 0 and 1"))
  {
    if !InUnitInterval(c.initialRate) then Failure(ValueError("initial_rate must be between 0 and 1"))
    else if !InUnitInterval(c.guardPct) then Failure(ValueError("guard_pct must be between 0 and 1"))
    else if !InUnitInterval(c.raisePct) then Failure(ValueError("raise_pct must be between 0 and 1"))
    else if !InUnitInterval(c.cutPct) then Failure(ValueError("cut_pct must be between 0 and 1"))
    else Success(())
  }

  /** The upper guardrail lies above a positive initial rate by the guard fraction. */
  function UpperGuardrail(c: GkConfig): (r: real)
    ensures c.initialRate > 0.0 && c.guardPct > 0.0 ==> r > c.initialRate
  {
    assert c.initialRate > 0.0 && c.guardPct > 0.0 ==> c.initialRate * (1.0 + c.guardPct) > c.initialRate by {
      if c.initialRate > 0.0 && c.guardPct > 0.0 {
        PositiveProduct(c.initialRate, c.guardPct);
      }
    }
    c.initialRate * (1.0 + c.guardPct)
  }

  /** The lower guardrail lies below a positive initial rate, and stays positive while the guard is below 100%. */
  function LowerGuardrail(c: GkConfig): (r: real)
    ensures c.initialRate > 0.0 && c.guardPct > 0.0 ==> r < c.initialRate
    ensures c.initialRate > 0.0 && c.guardPct < 1.0 ==> r > 0.0
  {
    var below := 1.0 - c.guardPct;
    assert c.initialRate > 0.0 && c.guardPct > 0.0 ==> c.initialRate * below < c.initialRate by {
      if c.initialRate > 0.0 && c.guardPct > 0.0 {
        PositiveProduct(c.initialRate, c.guardPct);
      }
    }
    assert c.initialRate > 0.0 && below > 0.0 ==> c.initialRate * below > 0.0 by {
      if c.initialRate > 0.0 && below > 0.0 {
        PositiveProduct(c.initialRate, below);
      }
    }
    c.initialRate * below
  }

  lemma PositiveProduct(a: real, b: real)
    requires a > 0.0 && b > 0.0
    ensures a * b > 0.0
  {
  }

  /** A valid configuration puts the initial rate strictly between the two guardrails, both positive. */
  lemma GuardrailsBracketInitialRate(c: GkConfig)
    requires ValidConfig(c)
    ensures 0.0 < LowerGuardrail(c) < c.initialRate < UpperGuardrail(c)
  {
    PositiveProduct(c.initialRate, c.guardPct);
    PositiveProduct(c.initialRate, 1.0 - c.guardPct);
  }

  /** The strategy's memory: the base withdrawal, the cumulative inflation factor and the last year seen. */
  datatype GkState = GkState(base: Option<real>, cumulative: real, lastYear: Option<int>)

  const InitialState: GkState := GkState(None, 1.0, None)

  /** The base withdrawal after the first-call initialisation. */
  function BaseOf(c: GkConfig, m: GkState, params: PortfolioParams): real {
    if m.base.None? then params.initBalance * c.initialRate else m.base.value
  }

  /** Inflation compounds only for the first year seen and for the year right after the last one. */
  predicate Compounds(m: GkState, year: int) {
    m.lastYear.None? || year == m.lastYear.value + 1
  }

  function CumulativeAfter(m: GkState, s: YearState): real {
    if Compounds(m, s.year) then m.cumulative * (1.0 + s.inflation) else m.cumulative
  }

  /** The inflation-adjusted withdrawal before any guardrail applies. */
  function Adjusted(c: GkConfig, m: GkState, params: PortfolioParams, s: YearState): real {
    BaseOf(c, m, params) * CumulativeAfter(m, s)
  }

  /** The cut applies: above the upper guardrail, with the balance at most 120% of the initial one. */
  predicate CutApplies(c: GkConfig, m: GkState, params: PortfolioParams, s: YearState)
    requires s.balance > 0.0
  {
    Adjusted(c, m, params, s) / s.balance > UpperGuardrail(c) && s.balance <= params.initBalance * 1.2
  }

  /** The raise applies: not above the upper guardrail, below the lower one, with the balance at least 80% of the initial one. */
  predicate RaiseApplies(c: GkConfig, m: GkState, params: PortfolioParams, s: YearState)
    requires s.balance > 0.0
  {
    var rate := Adjusted(c, m, params, s) / s.balance;
    !(rate > UpperGuardrail(c)) && rate < LowerGuardrail(c) && s.balance >= params.initBalance * 0.8
  }

  /**
   * One call of `calculate_withdrawal`: the withdrawal (or the division by a zero
   * cumulative factor that the source raises on) and the new memory.
   */
  function Step(c: GkConfig, m: GkState, state: Option<YearState>, params: PortfolioParams)
    : (res: (Result<real, Error>, GkState))
    ensures res.1.base.Some?
  {
    var base := BaseOf(c, m, params);
    if state.None? then (Success(base), m.(base := Some(base)))
    else
      var s := state.value;
      var cumulative := CumulativeAfter(m, s);
      var m' := GkState(Some(base), cumulative, Some(s.year));
      var adjusted := Adjusted(c, m, params, s);
      if s.balance <= 0.0 then (Success(0.0), m')
      else
        var rate := adjusted / s.balance;
        if rate > UpperGuardrail(c) then
          if s.balance <= params.initBalance * 1.2 then
            var w := adjusted * (1.0 - c.cutPct);
            if cumulative == 0.0 then (Failure(ZeroDivisionError), m')
            else (Success(w), m'.(base := Some(w / cumulative)))
          else (Success(adjusted), m')
        else if rate < LowerGuardrail(c) then
          if s.balance >= params.initBalance * 0.8 then
            var w := adjusted * (1.0 + c.raisePct);
            if cumulative == 0.0 then (Failure(ZeroDivisionError), m')
            else (Success(w), m'.(base := Some(w / cumulative)))
          else (Success(adjusted), m')
        else (Success(adjusted), m')
  }

  /** Without a state the call returns the base, setting it if unset, and touches nothing else. */
  lemma NoStateReturnsBase(c: GkConfig, m: GkState, params: PortfolioParams)
    ensures var res := Step(c, m, None, params);
            res.0.Success? && res.0.value == BaseOf(c, m, params) &&
            res.1.base.Some? && res.1.base.value == BaseOf(c, m, params) &&
            res.1.cumulative == m.cumulative && res.1.lastYear == m.lastYear
  {
  }

  /** The base is set once, to `init_balance * initial_rate`, by the first call of any kind. */
  lemma BaseSetOnce(c: GkConfig, m: GkState, state: Option<YearState>, params: PortfolioParams)
    requires m.base.None?
    ensures Step(c, m, state, params).1.base.Some?
    ensures state.None? ==> Step(c, m, state, params).1.base.value == params.initBalance * c.initialRate
  {
  }

  /** A later call without a state leaves the memory exactly as it was. */
  lemma NoStateKeepsMemory(c: GkConfig, m: GkState, params: PortfolioParams)
    requires m.base.Some?
    ensures Step(c, m, None, params).1 == m
  {
  }

  /** With a state, `last_year` becomes its year and the cumulative factor compounds as `Compounds` says. */
  lemma YearBookkeeping(c: GkConfig, m: GkState, s: YearState, params: PortfolioParams)
    ensures Step(c, m, Some(s), params).1.lastYear == Some(s.year)
    ensures Step(c, m, Some(s), params).1.cumulative == CumulativeAfter(m, s)
  {
  }

  /** A balance of zero or less withdraws nothing, after the inflation bookkeeping. */
  lemma NonPositiveBalanceWithdrawsNothing(c: GkConfig, m: GkState, s: YearState, params: PortfolioParams)
    requires s.balance <= 0.0
    ensures var res := Step(c, m, Some(s), params);
            res.0.Success? && res.0.value == 0.0 && res.1.base.value == BaseOf(c, m, params)
  {
  }

  /** The only failure is the division by a cumulative factor that inflation of -100% drove to zero. */
  lemma FailsOnlyOnZeroCumulative(c: GkConfig, m: GkState, state: Option<YearState>, params: PortfolioParams)
    requires Step(c, m, state, params).0.Failure?
    ensures state.Some? && CumulativeAfter(m, state.value) == 0.0
    ensures Step(c, m, state, params).0.error == ZeroDivisionError
  {
  }

  lemma Quotient(a: real, b: real)
    requires b != 0.0
    ensures (a / b) * b == a
  {
  }

  /**
   * The cut: the withdrawal is the adjusted amount less `cut_pct`, and the stored
   * base, re-inflated, gives back that withdrawal.
   */
  lemma CutRule(c: GkConfig, m: GkState, s: YearState, params: PortfolioParams)
    requires s.balance > 0.0 && CutApplies(c, m, params, s) && CumulativeAfter(m, s) != 0.0
    ensures var res := Step(c, m, Some(s), params);
            res.0.Success? && res.0.value == Adjusted(c, m, params, s) * (1.0 - c.cutPct) &&
            res.1.base.value == res.0.value / res.1.cumulative &&
            res.1.base.value * res.1.cumulative == res.0.value
  {
    Quotient(Adjusted(c, m, params, s) * (1.0 - c.cutPct), CumulativeAfter(m, s));
  }

  /** The raise: the withdrawal is the adjusted amount plus `raise_pct`, and the base follows it. */
  lemma RaiseRule(c: GkConfig, m: GkState, s: YearState, params: PortfolioParams)
    requires s.balance > 0.0 && RaiseApplies(c, m, params, s) && CumulativeAfter(m, s) != 0.0
    ensures var res := Step(c, m, Some(s), params);
            res.0.Success? && res.0.value == Adjusted(c, m, params, s) * (1.0 + c.raisePct) &&
            res.1.base.value == res.0.value / res.1.cumulative &&
            res.1.base.value * res.1.cumulative == res.0.value
  {
    Quotient(Adjusted(c, m, params, s) * (1.0 + c.raisePct), CumulativeAfter(m, s));
  }

  /** Neither rule applies: the withdrawal is the re-inflated base, which stays as it was. */
  lemma HoldRule(c: GkConfig, m: GkState, s: YearState, params: PortfolioParams)
    requires s.balance > 0.0 && !CutApplies(c, m, params, s) && !RaiseApplies(c, m, params, s)
    ensures var res := Step(c, m, Some(s), params);
            res.0.Success? && res.0.value == Adjusted(c, m, params, s) && res.1.base.value == BaseOf(c, m, params)
  {
  }

  /** A cut lowers and a raise lifts a positive inflation-adjusted withdrawal. */
  lemma CutLowersRaiseLifts(c: GkConfig, adjusted: real)
    requires ValidConfig(c) && adjusted > 0.0
    ensures adjusted * (1.0 - c.cutPct) < adjusted < adjusted * (1.0 + c.raisePct)
  {
    assert adjusted * c.cutPct > 0.0 && adjusted * c.raisePct > 0.0;
  }

  /**
   * Whatever branch is taken, a successful call with a positive balance leaves a
   * base that, re-inflated, is exactly the amount just withdrawn.
   */
  lemma BaseTracksWithdrawal(c: GkConfig, m: GkState, s: YearState, params: PortfolioParams)
    requires s.balance > 0.0 && Step(c, m, Some(s), params).0.Success?
    ensures var res := Step(c, m, Some(s), params);
            res.1.base.value * res.1.cumulative == res.0.value
  {
    if CutApplies(c, m, params, s) {
      CutRule(c, m, s, params);
    } else if RaiseApplies(c, m, params, s) {
      RaiseRule(c, m, s, params);
    } else {
      HoldRule(c, m, s, params);
    }
  }

  /** The class whose fields the withdrawal call updates in place. */
  class GuytonKlingerStrategy {
    const config: GkConfig
    const upperGuardrail: real
    const lowerGuardrail: real
    var baseWithdrawal: Option<real>
    var cumulativeInflation: real
    var lastYear: Option<int>

    function Memory(): GkState
      reads this
    {
      GkState(baseWithdrawal, cumulativeInflation, lastYear)
    }

    ghost predicate Valid()
      reads this
    {
      ValidConfig(config) && upperGuardrail == UpperGuardrail(config) && lowerGuardrail == LowerGuardrail(config)
    }

    constructor (config: GkConfig)
      requires Validate(config).Success?
      ensures Valid() && this.config == config
      ensures Memory() == InitialState
    {
      this.config := config;
      upperGuardrail := config.initialRate * (1.0 + config.guardPct);
      lowerGuardrail := config.initialRate * (1.0 - config.guardPct);
      baseWithdrawal := None;
      cumulativeInflation := 1.0;
      lastYear := None;
    }

    /** `calculate_withdrawal`, updating the memory as `Step` says. */
    method CalculateWithdrawal(state: Option<YearState>, params: PortfolioParams) returns (r: Result<real, Error>)
      requires Valid()
      modifies this
      ensures Valid()
      ensures r == Step(config, old(Memory()), state, params).0
      ensures Memory() == Step(config, old(Memory()), state, params).1
    {
      ghost var m0 := Memory();
      if baseWithdrawal.None? {
        baseWithdrawal := Some(params.initBalance * config.initialRate);
      }
      assert baseWithdrawal.value == BaseOf(config, m0, params);
      if state.None? {
        NoStateReturnsBase(config, m0, params);
        return Success(baseWithdrawal.value);
      }
      var s := state.value;
      YearBookkeeping(config, m0, s, params);
      TrackInflation(s);
      if s.balance <= 0.0 {
        NonPositiveBalanceWithdrawsNothing(config, m0, s, params);
        return Success(0.0);
      }
      r := ApplyGuardrails(s, params, m0);
    }

    /** The inflation bookkeeping: compound for the first or a consecutive year, then record the year. */
    method TrackInflation(s: YearState)
      modifies this
      ensures cumulativeInflation == CumulativeAfter(old(Memory()), s)
      ensures lastYear == Some(s.year) && baseWithdrawal == old(baseWithdrawal)
    {
      if lastYear.None? {
        cumulativeInflation := cumulativeInflation * (1.0 + s.inflation);
      } else if s.year == lastYear.value + 1 {
        cumulativeInflation := cumulativeInflation * (1.0 + s.inflation);
      }
      lastYear := Some(s.year);
    }

    /** The guardrail rules, once the base is set, inflation tracked and the balance positive. */
    method ApplyGuardrails(s: YearState, params: PortfolioParams, ghost m0: GkState) returns (r: Result<real, Error>)
      requires Valid() && s.balance > 0.0
      requires baseWithdrawal.Some? && baseWithdrawal.value == BaseOf(config, m0, params)
      requires cumulativeInflation == CumulativeAfter(m0, s) && lastYear == Some(s.year)
      modifies this
      ensures r == Step(config, m0, Some(s), params).0
      ensures Memory() == Step(config, m0, Some(s), params).1
    {
      var adjusted := baseWithdrawal.value * cumulativeInflation;
      assert adjusted == Adjusted(config, m0, params, s);
      var rate := adjusted / s.balance;
      assert rate == Adjusted(config, m0, params, s) / s.balance;
      if rate > upperGuardrail && s.balance <= params.initBalance * 1.2 {
        var withdrawal := adjusted * (1.0 - config.cutPct);
        if cumulativeInflation == 0.0 {
          return Failure(ZeroDivisionError);
        }
        CutRule(config, m0, s, params);
        baseWithdrawal := Some(withdrawal / cumulativeInflation);
        assert withdrawal == Step(config, m0, Some(s), params).0.value;
        assert baseWithdrawal.value == Step(config, m0, Some(s), params).1.base.value;
        return Success(withdrawal);
      }
      if !(rate > upperGuardrail) && rate < lowerGuardrail && s.balance >= params.initBalance * 0.8 {
        var withdrawal := adjusted * (1.0 + config.raisePct);
        if cumulativeInflation == 0.0 {
          return Failure(ZeroDivisionError);
        }
        RaiseRule(config, m0, s, params);
        baseWithdrawal := Some(withdrawal / cumulativeInflation);
        assert withdrawal == Step(config, m0, Some(s), params).0.value;
        assert baseWithdrawal.value == Step(config, m0, Some(s), params).1.base.value;
        return Success(withdrawal);
      }
      HoldRule(config, m0, s, params);
      return Success(adjusted);
    }
  }

  /** Building the strategy reports the first failed check instead of an object. */
  method NewGuytonKlinger(config: GkConfig) returns (r: Result<GuytonKlingerStrategy, Error>)
    ensures r.Failure? <==> Validate(config).Failure?
    ensures r.Failure? ==> r.error == Validate(config).error
    ensures r.Success? ==> fresh(r.value) && r.value.Valid() && r.value.config == config
    ensures r.Success? ==> r.value.Memory() == InitialState
  {
    var v := Validate(config);
    if v.Failure? {
      return Failure(v.error);
    }
    var s := new GuytonKlingerStrategy(config);
    return Success(s);
  }

  /** After the first call on $1,000,000 at the default 5%, the base is $50,000. */
  lemma GoldenInitialCall(params: PortfolioParams)
    requires params.initBalance == 1000000.0
    ensures Step(DefaultConfig, InitialState, None, params) == (Success(50000.0), GkState(Some(50000.0), 1.0, None))
  {
  }

  /** A fall to $750,000 with 2% inflation crosses the upper guardrail and cuts to $45,900. */
  lemma GoldenCut(params: PortfolioParams, s: YearState)
    requires params.initBalance == 1000000.0
    requires s.balance == 750000.0 && s.inflation == 0.02
    ensures Step(DefaultConfig, GkState(Some(50000.0), 1.0, None), Some(s), params).0 == Success(45900.0)
  {
    assert Adjusted(DefaultConfig, GkState(Some(50000.0), 1.0, None), params, s) == 51000.0;
  }

  /** A rise to $1,500,000 with 2% inflation crosses the lower guardrail and raises to $56,100. */
  lemma GoldenRaise(params: PortfolioParams, s: YearState)
    requires params.initBalance == 1000000.0
    requires s.balance == 1500000.0 && s.inflation == 0.02
    ensures Step(DefaultConfig, GkState(Some(50000.0), 1.0, None), Some(s), params).0 == Success(56100.0)
  {
    assert Adjusted(DefaultConfig, GkState(Some(50000.0), 1.0, None), params, s) == 51000.0;
  }

  /** Above 120% of the initial balance no cut is made: base $80,000 gives $81,600. */
  lemma GoldenNoCutWhenRich(params: PortfolioParams, s: YearState)
    requires params.initBalance == 1000000.0
    requires s.balance == 1300000.0 && s.inflation == 0.02
    ensures Step(DefaultConfig, GkState(Some(80000.0), 1.0, None), Some(s), params).0 == Success(81600.0)
  {
    assert Adjusted(DefaultConfig, GkState(Some(80000.0), 1.0, None), params, s) == 81600.0;
  }

  /** Below 80% of the initial balance no raise is made: base $20,000 gives $20,400. */
  lemma GoldenNoRaiseWhenPoor(params: PortfolioParams, s: YearState)
    requires params.initBalance == 1000000.0
    requires s.balance == 700000.0 && s.inflation == 0.02
    ensures Step(DefaultConfig, GkState(Some(20000.0), 1.0, None), Some(s), params).0 == Success(20400.0)
  {
    assert Adjusted(DefaultConfig, GkState(Some(20000.0), 1.0, None), params, s) == 20400.0;
  }

  /** Consecutive years at $1,000,000 with 2%, 3% and 1% inflation: $51,000, $52,530, $53,055.30. */
  lemma GoldenInflationSequence(params: PortfolioParams, s1: YearState, s2: YearState, s3: YearState)
    requires params.initBalance == 1000000.0
    requires s1 == YearState(2025, 65, 1000000.0, 0.02, None)
    requires s2 == YearState(2026, 66, 1000000.0, 0.03, None)
    requires s3 == YearState(2027, 67, 1000000.0, 0.01, None)
    ensures var m0 := GkState(Some(50000.0), 1.0, None);
            var r1 := Step(DefaultConfig, m0, Some(s1), params);
            var r2 := Step(DefaultConfig, r1.1, Some(s2), params);
            var r3 := Step(DefaultConfig, r2.1, Some(s3), params);
            r1.0 == Success(51000.0) && r2.0 == Success(52530.0) && r3.0 == Success(53055.3)
  {
    var m0 := GkState(Some(50000.0), 1.0, None);
    var m1 := GkState(Some(50000.0), 1.02, Some(2025));
    var m2 := GkState(Some(50000.0), 1.0506, Some(2026));
    assert Adjusted(DefaultConfig, m0, params, s1) == 51000.0;
    assert Step(DefaultConfig, m0, Some(s1), params) == (Success(51000.0), m1);
    assert Adjusted(DefaultConfig, m1, params, s2) == 52530.0;
    assert Step(DefaultConfig, m1, Some(s2), params) == (Success(52530.0), m2);
    assert Adjusted(DefaultConfig, m2, params, s3) == 53055.3;
  }

  /** An empty or overdrawn portfolio withdraws nothing, after the inflation fields have moved on. */
  lemma GoldenZeroBalance(params: PortfolioParams, s: YearState)
    requires params.initBalance == 1000000.0
    requires s == YearState(2025, 65, 0.0, 0.02, None)
    ensures Step(DefaultConfig, GkState(Some(50000.0), 1.0, None), Some(s), params)
            == (Success(0.0), GkState(Some(50000.0), 1.02, Some(2025)))
  {
  }
}
