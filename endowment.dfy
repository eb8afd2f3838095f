/**
 * The endowment (moving-average) strategy (src/capstone_finance/strategies/endowment.py):
 * withdraw `alpha * balance + beta * mean(history)`, where the history keeps the
 * newest `window` balances, the oldest being evicted first.
 */
module Endowment {
  import opened Wrappers
  import opened Models
  import opened Numeric

  /** The tolerance on `alpha + beta == 1`. */
  const Tolerance: real := 0.0000000001

  /** The constructor's checks, in the order the source makes them. */
  function Validate(alpha: real, beta: real, window: int): (r: Result<(), Error>)
    ensures r.Success? <==>
              0.0 <= alpha <= 1.0 && 0.0 <= beta <= 1.0 && Abs(alpha + beta - 1.0) <= Tolerance && window >= 1
    ensures !(0.0 <= alpha <= 1.0) ==> r == Failure(ValueError("Alpha must be between 0 and 1"))
    ensures 0.0 <= alpha <= 1.0 && !(0.0 <= beta <= 1.0) ==> r == Failure(ValueError("Beta must be between 0 and 1"))
    ensures 0.0 <= alpha <= 1.0 && 0.0 <= beta <= 1.0 && Abs(alpha + beta - 1.0) > Tolerance ==>
              r == Failure(ValueError("Alpha + Beta must equal 1.0"))
    ensures 0.0 <= alpha <= 1.0 && 0.0 <= beta <= 1.0 && Abs(alpha + beta - 1.0) <= Tolerance && window < 1 ==>
              r == Failure(ValueError("Window must be at least 1"))
  {
    if alpha < 0.0 || alpha > 1.0 then Failure(ValueError("Alpha must be between 0 and 1"))
    else if beta < 0.0 || beta > 1.0 then Failure(ValueError("Beta must be between 0 and 1"))
    else if Abs(alpha + beta - 1.0) > Tolerance then Failure(ValueError("Alpha + Beta must equal 1.0"))
    else if window < 1 then Failure(ValueError("Window must be at least 1"))
    else Success(())
  }

  /** Appending to a deque bounded by `window`: a full deque drops its oldest entry. */
  function Push(h: seq<real>, x: real, window: int): (h': seq<real>)
    requires 1 <= window && |h| <= window
    ensures |h'| == if |h| < window then |h| + 1 else window
    ensures h' == (h + [x])[|h| + 1 - |h'|..]
  {
    if |h| < window then h + [x] else h[1..] + [x]
  }

  function Sum(s: seq<real>): real {
    if |s| == 0 then 0.0 else Sum(s[..|s| - 1]) + s[|s| - 1]
  }

  function Mean(s: seq<real>): real
    requires |s| > 0
  {
    Sum(s) / (|s| as real)
  }

  /**
   * One call of `calculate_withdrawal` on the history `h`: the withdrawal and the
   * new history. Without a state the history restarts at the initial balance.
   */
  function Step(alpha: real, beta: real, window: int, h: seq<real>,
                state: Option<YearState>, params: PortfolioParams): (res: (real, seq<real>))
    requires 1 <= window && |h| <= window
    ensures 1 <= |res.1| <= window
    ensures state.None? ==> res.1 == [params.initBalance]
    ensures state.Some? ==> res.1 == Push(h, state.value.balance, window)
    ensures res.1[|res.1| - 1] == (if state.None? then params.initBalance else state.value.balance)
  {
    var current := if state.None? then params.initBalance else state.value.balance;
    var h' := if state.None? then [current] else Push(h, current, window);
    var average := if |h'| == 0 then current else Mean(h');
    (Weighted(alpha, current, beta, average), h')
  }

  /** `alpha * current + beta * average`. */
  function Weighted(alpha: real, current: real, beta: real, average: real): real {
    alpha * current + beta * average
  }

  /** The history after a sequence of balances has been pushed onto `h`. */
  function Feed(h: seq<real>, xs: seq<real>, window: int): (h': seq<real>)
    requires 1 <= window && |h| <= window
    ensures |h'| <= window
  {
    if |xs| == 0 then h else Push(Feed(h, xs[..|xs| - 1], window), xs[|xs| - 1], window)
  }

  /** The newest `window` entries of `a` (all of them when there are fewer). */
  function Newest(a: seq<real>, window: int): (r: seq<real>)
    requires 1 <= window
    ensures |r| <= window
  {
    if |a| <= window then a else a[|a| - window..]
  }

  /** Pushing onto the newest entries keeps the newest entries of the longer sequence. */
  lemma PushNewest(a: seq<real>, x: real, window: int)
    requires 1 <= window
    ensures Push(Newest(a, window), x, window) == Newest(a + [x], window)
  {
    if |a| >= window {
      var t := a[|a| - window..];
      assert t[1..] + [x] == (a + [x])[|a| + 1 - window..];
    }
  }

  /** The history always holds exactly the newest `min(window, count)` balances seen. */
  lemma {:induction false} FeedKeepsNewest(h: seq<real>, xs: seq<real>, window: int)
    requires 1 <= window && |h| <= window
    ensures Feed(h, xs, window) == Newest(h + xs, window)
  {
    if |xs| == 0 {
      assert h + xs == h;
    } else {
      var ys := xs[..|xs| - 1];
      var x := xs[|xs| - 1];
      FeedKeepsNewest(h, ys, window);
      PushNewest(h + ys, x, window);
      assert h + xs == (h + ys) + [x] by { assert xs == ys + [x]; }
    }
  }

  /** `sum` of a list lies between its length times its smallest and largest bound. */
  lemma {:induction false} SumBounds(s: seq<real>, lo: real, hi: real)
    requires forall i :: 0 <= i < |s| ==> lo <= s[i] <= hi
    ensures (|s| as real) * lo <= Sum(s) <= (|s| as real) * hi
  {
    if |s| > 0 {
      SumBounds(s[..|s| - 1], lo, hi);
    }
  }

  lemma QuotientBounds(t: real, n: real, lo: real, hi: real)
    requires n > 0.0 && n * lo <= t <= n * hi
    ensures lo <= t / n <= hi
  {
    assert (t / n) * n == t;
  }

  lemma MeanBounds(s: seq<real>, lo: real, hi: real)
    requires |s| > 0
    requires forall i :: 0 <= i < |s| ==> lo <= s[i] <= hi
    ensures lo <= Mean(s) <= hi
  {
    SumBounds(s, lo, hi);
    QuotientBounds(Sum(s), |s| as real, lo, hi);
  }

  lemma MeanSingleton(x: real)
    ensures Mean([x]) == x
  {
    assert [x][..0] == [];
    assert Sum([x]) == Sum([]) + x;
  }

  /** The withdrawal of one step, in terms of its current balance and new history. */
  lemma StepValue(alpha: real, beta: real, window: int, h: seq<real>,
                  state: Option<YearState>, params: PortfolioParams)
    requires 1 <= window && |h| <= window
    ensures var res := Step(alpha, beta, window, h, state, params);
            res.0 == alpha * (if state.None? then params.initBalance else state.value.balance) + beta * Mean(res.1)
  {
    var current := if state.None? then params.initBalance else state.value.balance;
    var h' := Step(alpha, beta, window, h, state, params).1;
    assert Step(alpha, beta, window, h, state, params).0 == Weighted(alpha, current, beta, Mean(h'));
  }

  lemma WeightedBounds(alpha: real, beta: real, c: real, a: real, lo: real, hi: real)
    requires 0.0 <= alpha && 0.0 <= beta && lo <= c <= hi && lo <= a <= hi
    ensures (alpha + beta) * lo <= alpha * c + beta * a <= (alpha + beta) * hi
  {
    assert alpha * lo <= alpha * c <= alpha * hi;
    assert beta * lo <= beta * a <= beta * hi;
  }

  lemma StepHistoryBounds(alpha: real, beta: real, window: int, h: seq<real>, state: Option<YearState>, params: PortfolioParams,
                          lo: real, hi: real)
    requires 1 <= window && |h| <= window
    requires forall i :: 0 <= i < |h| ==> lo <= h[i] <= hi
    requires state.None? ==> lo <= params.initBalance <= hi
    requires state.Some? ==> lo <= state.value.balance <= hi
    ensures var h' := Step(alpha, beta, window, h, state, params).1;
            forall i :: 0 <= i < |h'| ==> lo <= h'[i] <= hi
  {
    if state.Some? {
      var x := state.value.balance;
      var a := h + [x];
      PushNewest(h, x, window);
      assert Newest(h, window) == h;
      var h' := Newest(a, window);
      var d := |a| - |h'|;
      forall i | 0 <= i < |h'|
        ensures lo <= h'[i] <= hi
      {
        assert h'[i] == a[d + i];
      }
    }
  }

  lemma StepMeanBounds(alpha: real, beta: real, window: int, h: seq<real>,
                       state: Option<YearState>, params: PortfolioParams, lo: real, hi: real)
    requires 1 <= window && |h| <= window
    requires forall i :: 0 <= i < |h| ==> lo <= h[i] <= hi
    requires state.None? ==> lo <= params.initBalance <= hi
    requires state.Some? ==> lo <= state.value.balance <= hi
    ensures lo <= Mean(Step(alpha, beta, window, h, state, params).1) <= hi
  {
    StepHistoryBounds(alpha, beta, window, h, state, params, lo, hi);
    MeanBounds(Step(alpha, beta, window, h, state, params).1, lo, hi);
  }

  /**
   * With non-negative weights, when the current balance and every remembered one
   * lie in `[lo, hi]`, the withdrawal lies in `[(alpha+beta)*lo, (alpha+beta)*hi]`;
   * in particular it is never negative when no balance is.
   */
  lemma WithdrawalBounds(alpha: real, beta: real, window: int, h: seq<real>,
                         state: Option<YearState>, params: PortfolioParams, lo: real, hi: real)
    requires 1 <= window && |h| <= window
    requires 0.0 <= alpha && 0.0 <= beta
    requires forall i :: 0 <= i < |h| ==> lo <= h[i] <= hi
    requires state.None? ==> lo <= params.initBalance <= hi
    requires state.Some? ==> lo <= state.value.balance <= hi
    ensures (alpha + beta) * lo <= Step(alpha, beta, window, h, state, params).0 <= (alpha + beta) * hi
  {
    StepMeanBounds(alpha, beta, window, h, state, params, lo, hi);
    WeightedBounds(alpha, beta, if state.None? then params.initBalance else state.value.balance,
                   Mean(Step(alpha, beta, window, h, state, params).1), lo, hi);
    StepValue(alpha, beta, window, h, state, params);
  }

  /** Without a state the history restarts, so the withdrawal is `(alpha + beta) * init_balance`. */
  lemma NoStateRestarts(alpha: real, beta: real, window: int, h: seq<real>, params: PortfolioParams)
    requires 1 <= window && |h| <= window
    ensures Step(alpha, beta, window, h, None, params).0 == (alpha + beta) * params.initBalance
  {
    MeanSingleton(params.initBalance);
    StepValue(alpha, beta, window, h, None, params);
  }

  /** With a one-year window the average is the balance itself. */
  lemma WindowOneWithdrawsBalance(alpha: real, beta: real, h: seq<real>,
                                  state: YearState, params: PortfolioParams)
    requires |h| <= 1
    ensures Step(alpha, beta, 1, h, Some(state), params).0 == alpha * state.balance + beta * state.balance
  {
    MeanSingleton(state.balance);
    StepValue(alpha, beta, 1, h, Some(state), params);
  }

  /** The arithmetic mean of a non-empty list, summed left to right. */
  method MeanOf(s: seq<real>) returns (m: real)
    requires |s| > 0
    ensures m == Mean(s)
  {
    var total := 0.0;
    for i := 0 to |s|
      invariant total == Sum(s[..i])
    {
      assert s[..i + 1][..i] == s[..i];
      total := total + s[i];
    }
    assert s[..|s|] == s;
    m := total / (|s| as real);
  }

  /** The class holding the bounded history, updated in place by its methods. */
  class EndowmentStrategy {
    const alpha: real
    const beta: real
    const window: int
    var history: seq<real>

    ghost predicate Valid()
      reads this
    {
      1 <= window && |history| <= window
    }

    constructor (alpha: real, beta: real, window: int)
      requires Validate(alpha, beta, window).Success?
      ensures Valid()
      ensures this.alpha == alpha && this.beta == beta && this.window == window
      ensures history == []
    {
      this.alpha := alpha;
      this.beta := beta;
      this.window := window;
      history := [];
    }

    /** `calculate_withdrawal`, updating the history as `Step` says. */
    method CalculateWithdrawal(state: Option<YearState>, params: PortfolioParams) returns (w: real)
      requires Valid()
      modifies this
      ensures Valid()
      ensures w == Step(alpha, beta, window, old(history), state, params).0
      ensures history == Step(alpha, beta, window, old(history), state, params).1
    {
      var current: real;
      if state.None? {
        current := params.initBalance;
        history := [];
        history := history + [current];
      } else {
        current := state.value.balance;
        if |history| == window {
          history := history[1..];
        }
        history := history + [current];
      }
      var average := MeanOf(history);
      w := alpha * current + beta * average;
      assert history == Step(alpha, beta, window, old(history), state, params).1;
      StepValue(alpha, beta, window, old(history), state, params);
    }

    /** `reset_history`: the history becomes empty; the weights and window are constants. */
    method ResetHistory()
      requires Valid()
      modifies this
      ensures Valid() && history == []
    {
      history := [];
    }
  }

  /** Building the strategy reports the first failed check instead of an object. */
  method NewEndowment(alpha: real := 0.7, beta: real := 0.3, window: int := 3)
    returns (r: Result<EndowmentStrategy, Error>)
    ensures r.Failure? <==> Validate(alpha, beta, window).Failure?
    ensures r.Failure? ==> r.error == Validate(alpha, beta, window).error
    ensures r.Success? ==> fresh(r.value) && r.value.Valid() && r.value.history == []
    ensures r.Success? ==> r.value.alpha == alpha && r.value.beta == beta && r.value.window == window
  {
    var v := Validate(alpha, beta, window);
    if v.Failure? {
      return Failure(v.error);
    }
    var s := new EndowmentStrategy(alpha, beta, window);
    return Success(s);
  }

  lemma SumOfTwo(a: real, b: real)
    ensures Sum([a, b]) == a + b
  {
    assert [a, b][..1] == [a];
    MeanSingleton(a);
  }

  lemma SumOfThree(a: real, b: real, c: real)
    ensures Sum([a, b, c]) == a + b + c
  {
    assert [a, b, c][..2] == [a, b];
    SumOfTwo(a, b);
  }

  /** Second call of the documented sequence: 1.1M after 1M withdraws 1,085,000. */
  lemma GoldenSecondYear(params: PortfolioParams, s: YearState)
    requires s.balance == 1100000.0
    ensures Step(0.7, 0.3, 3, [1000000.0], Some(s), params) == (1085000.0, [1000000.0, 1100000.0])
  {
    assert Step(0.7, 0.3, 3, [1000000.0], Some(s), params).1 == [1000000.0, 1100000.0];
    SumOfTwo(1000000.0, 1100000.0);
    StepValue(0.7, 0.3, 3, [1000000.0], Some(s), params);
  }

  /** Third call: 0.9M withdraws 930,000. */
  lemma GoldenThirdYear(params: PortfolioParams, s: YearState)
    requires s.balance == 900000.0
    ensures Step(0.7, 0.3, 3, [1000000.0, 1100000.0], Some(s), params)
            == (930000.0, [1000000.0, 1100000.0, 900000.0])
  {
    assert Step(0.7, 0.3, 3, [1000000.0, 1100000.0], Some(s), params).1 == [1000000.0, 1100000.0, 900000.0];
    SumOfThree(1000000.0, 1100000.0, 900000.0);
    StepValue(0.7, 0.3, 3, [1000000.0, 1100000.0], Some(s), params);
  }

  /** Fourth call: the full window evicts 1M, and 1.2M withdraws 1,160,000. */
  lemma GoldenFourthYear(params: PortfolioParams, s: YearState)
    requires s.balance == 1200000.0
    ensures Step(0.7, 0.3, 3, [1000000.0, 1100000.0, 900000.0], Some(s), params)
            == (1160000.0, [1100000.0, 900000.0, 1200000.0])
  {
    assert Step(0.7, 0.3, 3, [1000000.0, 1100000.0, 900000.0], Some(s), params).1
           == [1100000.0, 900000.0, 1200000.0];
    SumOfThree(1100000.0, 900000.0, 1200000.0);
    StepValue(0.7, 0.3, 3, [1000000.0, 1100000.0, 900000.0], Some(s), params);
  }

  /**
   * The documented sequence with weights 0.7/0.3 and window 3: no state gives
   * 1,000,000; then balances 1.1M, 0.9M and 1.2M give 1,085,000, 930,000 and 1,160,000.
   */
  lemma GoldenSequence(params: PortfolioParams, s1: YearState, s2: YearState, s3: YearState)
    requires params.initBalance == 1000000.0
    requires s1.balance == 1100000.0 && s2.balance == 900000.0 && s3.balance == 1200000.0
    ensures var r0 := Step(0.7, 0.3, 3, [], None, params);
            var r1 := Step(0.7, 0.3, 3, r0.1, Some(s1), params);
            var r2 := Step(0.7, 0.3, 3, r1.1, Some(s2), params);
            var r3 := Step(0.7, 0.3, 3, r2.1, Some(s3), params);
            r0.0 == 1000000.0 && r1.0 == 1085000.0 && r2.0 == 930000.0 && r3.0 == 1160000.0
  {
    NoStateRestarts(0.7, 0.3, 3, [], params);
    GoldenSecondYear(params, s1);
    GoldenThirdYear(params, s2);
    GoldenFourthYear(params, s3);
  }
}
