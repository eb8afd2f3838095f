/**
 * Simplified US federal income tax of 2025 (src/capstone_finance/core/tax.py):
 * a walk over ascending brackets, the effective and marginal rates, and the
 * engine handed to the cash-flow ledger.
 */
module Tax {
  import opened Wrappers
  import opened Numeric
  import opened Models

  /** A marginal `rate` applied to income above `threshold`. */
  datatype Bracket = Bracket(rate: real, threshold: real)

  const SingleBrackets2025: seq<Bracket> := [
    Bracket(0.10, 0.0),
    Bracket(0.12, 11000.0),
    Bracket(0.22, 41630.0),
    Bracket(0.24, 95375.0),
    Bracket(0.32, 182050.0),
    Bracket(0.35, 231250.0),
    Bracket(0.37, 578125.0)
  ]

  const MarriedBrackets2025: seq<Bracket> := [
    Bracket(0.10, 0.0),
    Bracket(0.12, 22000.0),
    Bracket(0.22, 89450.0),
    Bracket(0.24, 190750.0),
    Bracket(0.32, 364200.0),
    Bracket(0.35, 462500.0),
    Bracket(0.37, 693750.0)
  ]

  /** The standard-deduction table: both known filing statuses deduct nothing. */
  function StandardDeduction(status: string): Option<real> {
    if status == "single" || status == "married" then Some(0.0) else None
  }

  function BracketsFor(status: string): seq<Bracket> {
    if status == "single" then SingleBrackets2025 else MarriedBrackets2025
  }

  /** Thresholds start at 0 and strictly ascend; rates are non-negative and never decrease. */
  ghost predicate WellFormed(b: seq<Bracket>) {
    && |b| > 0
    && b[0].threshold == 0.0
    && b[0].rate >= 0.0
    && (forall i, j :: 0 <= i < j < |b| ==> Ascending(b, i, j))
  }

  /** Bracket `j` starts above bracket `i` and taxes at least as much. */
  ghost predicate Ascending(b: seq<Bracket>, i: nat, j: nat)
    requires i < j < |b|
  {
    b[i].threshold < b[j].threshold && b[i].rate <= b[j].rate
  }

  lemma TablesWellFormed()
    ensures WellFormed(SingleBrackets2025) && WellFormed(MarriedBrackets2025)
    ensures SingleBrackets2025[|SingleBrackets2025| - 1].rate == 0.37
    ensures MarriedBrackets2025[|MarriedBrackets2025| - 1].rate == 0.37
  {
  }

  /** The income taxed in bracket `i` out of `remaining`: up to the next threshold, all of it in the last bracket. */
  function InBracket(b: seq<Bracket>, i: nat, remaining: real): real
    requires i < |b|
  {
    if i + 1 < |b| then Min(remaining, b[i + 1].threshold - b[i].threshold) else remaining
  }

  /** The tax the bracket loop accumulates from bracket `i` on, with `remaining` income still untaxed. */
  function Walk(b: seq<Bracket>, i: nat, remaining: real): real
    decreases |b| - i
  {
    if i >= |b| || remaining <= 0.0 then 0.0
    else
      var inBracket := InBracket(b, i, remaining);
      inBracket * b[i].rate + Walk(b, i + 1, remaining - inBracket)
  }

  /**
   * The tax owed on `income` (before the source's rounding to cents). A non-positive
   * income owes nothing whatever the filing status; otherwise an unknown status is an
   * error, and the tax is non-negative and at most the top rate, 37%, of the income.
   */
  function TaxOf(income: real, status: string): (r: Result<real, Error>)
    ensures r.Failure? <==> income > 0.0 && status != "single" && status != "married"
    ensures r.Success? ==> 0.0 <= r.value <= 0.37 * Max(0.0, income)
    ensures income <= 0.0 ==> r == Success(0.0)
  {
    TablesWellFormed();
    if income <= 0.0 then Success(0.0)
    else if StandardDeduction(status).None? then
      Failure(ValueError("filing_status must be 'single' or 'married', got: " + status))
    else
      var taxable := Max(0.0, income - StandardDeduction(status).value);
      if taxable <= 0.0 then Success(0.0)
      else
        WalkNonNegative(BracketsFor(status), 0, taxable);
        WalkAtMostTopRate(BracketsFor(status), 0, taxable);
        Success(Walk(BracketsFor(status), 0, taxable))
  }

  /** `calc_tax`: the accumulator loop over the brackets, stopping once no income remains. */
  method CalcTax(income: real, status: string) returns (r: Result<real, Error>)
    ensures r == TaxOf(income, status)
  {
    if income <= 0.0 {
      return Success(0.0);
    }
    if status != "single" && status != "married" {
      return Failure(ValueError("filing_status must be 'single' or 'married', got: " + status));
    }
    var deduction := StandardDeduction(status).value;
    var taxable := Max(0.0, income - deduction);
    if taxable <= 0.0 {
      return Success(0.0);
    }
    var brackets := if status == "single" then SingleBrackets2025 else MarriedBrackets2025;
    var total := AccumulateBrackets(brackets, taxable);
    return Success(total);
  }

  /** The loop of `calc_tax` over any bracket list; the last bracket has no upper bound. */
  method AccumulateBrackets(brackets: seq<Bracket>, taxable: real) returns (total: real)
    ensures total == Walk(brackets, 0, taxable)
  {
    total := 0.0;
    var remaining := taxable;
    var i := 0;
    while i < |brackets|
      invariant 0 <= i <= |brackets|
      invariant total + Walk(brackets, i, remaining) == Walk(brackets, 0, taxable)
    {
      if remaining <= 0.0 {
        break;
      }
      var inBracket := remaining;
      if i + 1 < |brackets| {
        var bracketSize := brackets[i + 1].threshold - brackets[i].threshold;
        inBracket := Min(remaining, bracketSize);
      }
      total := total + inBracket * brackets[i].rate;
      remaining := remaining - inBracket;
      i := i + 1;
    }
  }

  lemma {:induction false} RateNonNegative(b: seq<Bracket>, i: nat)
    requires WellFormed(b) && i < |b|
    ensures b[i].rate >= 0.0
  {
    if i > 0 {
      assert Ascending(b, 0, i);
    }
  }

  lemma InBracketRange(b: seq<Bracket>, i: nat, remaining: real)
    requires WellFormed(b) && i < |b| && remaining > 0.0
    ensures 0.0 < InBracket(b, i, remaining) <= remaining
  {
    if i + 1 < |b| {
      assert Ascending(b, i, i + 1);
    }
  }

  /** Income that does not reach the next threshold is all taxed at this bracket's rate. */
  lemma WalkWithinBracket(b: seq<Bracket>, i: nat, x: real)
    requires i < |b| && x >= 0.0
    requires i + 1 < |b| ==> x <= b[i + 1].threshold - b[i].threshold
    ensures Walk(b, i, x) == x * b[i].rate
  {
    if x > 0.0 {
      assert InBracket(b, i, x) == x;
      assert Walk(b, i + 1, 0.0) == 0.0;
    }
  }

  /** Income beyond the next threshold fills this bracket and passes the excess on. */
  lemma WalkPastBracket(b: seq<Bracket>, i: nat, x: real)
    requires i + 1 < |b| && x > b[i + 1].threshold - b[i].threshold
    requires b[i].threshold < b[i + 1].threshold
    ensures Walk(b, i, x) == size(b, i) * b[i].rate + Walk(b, i + 1, x - size(b, i))
  {
    assert InBracket(b, i, x) == size(b, i);
  }

  function size(b: seq<Bracket>, i: nat): real
    requires i + 1 < |b|
  {
    b[i + 1].threshold - b[i].threshold
  }

  lemma {:induction false} WalkNonNegative(b: seq<Bracket>, i: nat, remaining: real)
    requires WellFormed(b)
    ensures Walk(b, i, remaining) >= 0.0
    decreases |b| - i
  {
    if i < |b| && remaining > 0.0 {
      RateNonNegative(b, i);
      InBracketRange(b, i, remaining);
      var inBracket := InBracket(b, i, remaining);
      WalkNonNegative(b, i + 1, remaining - inBracket);
      ScaledOrder(inBracket, 0.0, b[i].rate);
    }
  }

  /** No income is taxed above the top bracket's rate. */
  lemma {:induction false} WalkAtMostTopRate(b: seq<Bracket>, i: nat, remaining: real)
    requires WellFormed(b) && remaining >= 0.0
    ensures Walk(b, i, remaining) <= b[|b| - 1].rate * remaining
    decreases |b| - i
  {
    if i < |b| && remaining > 0.0 {
      InBracketRange(b, i, remaining);
      WalkAtMostTopRate(b, i + 1, remaining - InBracket(b, i, remaining));
      WalkAtMostTopStep(b, i, remaining);
    } else {
      RateNonNegative(b, |b| - 1);
      ScaledOrder(b[|b| - 1].rate, 0.0, remaining);
    }
  }

  lemma WalkAtMostTopStep(b: seq<Bracket>, i: nat, remaining: real)
    requires WellFormed(b) && i < |b| && remaining > 0.0
    requires 0.0 < InBracket(b, i, remaining) <= remaining
    requires Walk(b, i + 1, remaining - InBracket(b, i, remaining))
             <= b[|b| - 1].rate * (remaining - InBracket(b, i, remaining))
    ensures Walk(b, i, remaining) <= b[|b| - 1].rate * remaining
  {
    if i < |b| - 1 {
      assert Ascending(b, i, |b| - 1);
    }
    var inBracket := InBracket(b, i, remaining);
    StepBelowTop(inBracket, b[i].rate, b[|b| - 1].rate, Walk(b, i + 1, remaining - inBracket), remaining);
  }

  lemma StepBelowTop(inBracket: real, rate: real, top: real, restTax: real, remaining: real)
    requires 0.0 <= inBracket <= remaining && rate <= top
    requires restTax <= top * (remaining - inBracket)
    ensures inBracket * rate + restTax <= top * remaining
  {
    ScaledOrder(inBracket, rate, top);
    assert inBracket * top + top * (remaining - inBracket) == top * remaining;
  }

  /** Going from income `r` (tax `tr`) to income `s` (tax `ts`), tax grows by at least `rate` per unit. */
  ghost predicate GrowsAtLeast(tr: real, r: real, ts: real, s: real, rate: real) {
    ts - tr >= rate * (s - r)
  }

  /** Each extra unit of income taxed from bracket `j` on costs at least bracket `j`'s rate. */
  lemma {:induction false} WalkIncrement(b: seq<Bracket>, j: nat, r: real, s: real)
    requires WellFormed(b) && j < |b|
    requires 0.0 <= r <= s
    ensures GrowsAtLeast(Walk(b, j, r), r, Walk(b, j, s), s, b[j].rate)
    decreases |b| - j, 1
  {
    if j + 1 < |b| && size(b, j) < s {
      if r <= size(b, j) {
        IncrementAcrossBracket(b, j, r, s);
      } else {
        IncrementPastBracket(b, j, r, s);
      }
    } else {
      IncrementWithinBracket(b, j, r, s);
    }
  }

  lemma IncrementWithinBracket(b: seq<Bracket>, j: nat, r: real, s: real)
    requires j < |b| && 0.0 <= r <= s
    requires j + 1 < |b| ==> s <= size(b, j)
    ensures GrowsAtLeast(Walk(b, j, r), r, Walk(b, j, s), s, b[j].rate)
  {
    WalkWithinBracket(b, j, s);
    WalkWithinBracket(b, j, r);
    assert s * b[j].rate - r * b[j].rate == b[j].rate * (s - r);
  }

  lemma {:induction false} IncrementAcrossBracket(b: seq<Bracket>, j: nat, r: real, s: real)
    requires WellFormed(b) && j + 1 < |b| && 0.0 <= r <= size(b, j) < s
    ensures GrowsAtLeast(Walk(b, j, r), r, Walk(b, j, s), s, b[j].rate)
    decreases |b| - j, 0
  {
    assert Ascending(b, j, j + 1);
    var sz, rho := size(b, j), b[j].rate;
    WalkIncrement(b, j + 1, 0.0, s - sz);
    WalkPastBracket(b, j, s);
    WalkWithinBracket(b, j, r);
    IncrementAcross(sz, rho, b[j + 1].rate, r, s, Walk(b, j + 1, 0.0), Walk(b, j + 1, s - sz), Walk(b, j, r), Walk(b, j, s));
  }

  lemma IncrementAcross(sz: real, rho: real, next: real, r: real, s: real, zeroTax: real, restTax: real, tr: real, ts: real)
    requires r <= sz < s && rho <= next
    requires zeroTax == 0.0 && GrowsAtLeast(zeroTax, 0.0, restTax, s - sz, next)
    requires tr == r * rho && ts == sz * rho + restTax
    ensures GrowsAtLeast(tr, r, ts, s, rho)
  {
    ScaledOrder(s - sz, rho, next);
    assert rho * (s - r) == rho * (s - sz) + sz * rho - r * rho;
  }

  lemma {:induction false} IncrementPastBracket(b: seq<Bracket>, j: nat, r: real, s: real)
    requires WellFormed(b) && j + 1 < |b| && size(b, j) < r <= s
    ensures GrowsAtLeast(Walk(b, j, r), r, Walk(b, j, s), s, b[j].rate)
    decreases |b| - j, 0
  {
    assert Ascending(b, j, j + 1);
    var sz := size(b, j);
    WalkIncrement(b, j + 1, r - sz, s - sz);
    WalkPastBracket(b, j, s);
    WalkPastBracket(b, j, r);
    IncrementPast(sz, b[j].rate, b[j + 1].rate, r, s, Walk(b, j + 1, r - sz), Walk(b, j + 1, s - sz),
                  Walk(b, j, r), Walk(b, j, s));
  }

  lemma IncrementPast(sz: real, rho: real, next: real, r: real, s: real, wr: real, ws: real, tr: real, ts: real)
    requires r <= s && rho <= next
    requires GrowsAtLeast(wr, r - sz, ws, s - sz, next)
    requires tr == sz * rho + wr && ts == sz * rho + ws
    ensures GrowsAtLeast(tr, r, ts, s, rho)
  {
    assert (s - sz) - (r - sz) == s - r;
    ScaledOrder(s - r, rho, next);
  }

  /** Tax `tr` on income `r` is at most the average rate of tax `ts` on income `s`, without dividing. */
  ghost predicate NoHigherAverage(tr: real, r: real, ts: real, s: real) {
    tr * s <= ts * r
  }

  /** With ascending rates the average rate never falls as income grows: tax(r)/r <= tax(s)/s. */
  lemma {:induction false} WalkAverageMonotone(b: seq<Bracket>, i: nat, r: real, s: real)
    requires WellFormed(b)
    requires 0.0 < r <= s
    ensures NoHigherAverage(Walk(b, i, r), r, Walk(b, i, s), s)
    decreases |b| - i, 1
  {
    if i >= |b| {
      return;
    }
    if i + 1 < |b| && size(b, i) < s {
      if r <= size(b, i) {
        AverageAcrossBracket(b, i, r, s);
      } else {
        AveragePastBracket(b, i, r, s);
      }
    } else {
      AverageWithinBracket(b, i, r, s);
    }
  }

  lemma AverageWithinBracket(b: seq<Bracket>, i: nat, r: real, s: real)
    requires i < |b| && 0.0 < r <= s
    requires i + 1 < |b| ==> s <= size(b, i)
    ensures NoHigherAverage(Walk(b, i, r), r, Walk(b, i, s), s)
  {
    WalkWithinBracket(b, i, s);
    WalkWithinBracket(b, i, r);
    assert (r * b[i].rate) * s == (s * b[i].rate) * r;
  }

  lemma AverageAcrossBracket(b: seq<Bracket>, i: nat, r: real, s: real)
    requires WellFormed(b) && i + 1 < |b| && 0.0 < r <= size(b, i) < s
    ensures NoHigherAverage(Walk(b, i, r), r, Walk(b, i, s), s)
  {
    assert Ascending(b, i, i + 1);
    var sz, rho := size(b, i), b[i].rate;
    WalkIncrement(b, i + 1, 0.0, s - sz);
    WalkPastBracket(b, i, s);
    WalkWithinBracket(b, i, r);
    ScaledOrder(s - sz, rho, b[i + 1].rate);
    AverageAcross(sz, rho, r, s, Walk(b, i + 1, s - sz), Walk(b, i, r), Walk(b, i, s));
  }

  lemma AverageAcross(sz: real, rho: real, r: real, s: real, restTax: real, tr: real, ts: real)
    requires 0.0 < r <= sz < s
    requires restTax >= rho * (s - sz)
    requires tr == r * rho && ts == sz * rho + restTax
    ensures NoHigherAverage(tr, r, ts, s)
  {
    assert ts >= rho * s;
    ScaledOrder(r, rho * s, ts);
  }

  lemma {:induction false} AveragePastBracket(b: seq<Bracket>, i: nat, r: real, s: real)
    requires WellFormed(b) && i + 1 < |b| && size(b, i) < r <= s
    ensures NoHigherAverage(Walk(b, i, r), r, Walk(b, i, s), s)
    decreases |b| - i, 0
  {
    assert Ascending(b, i, i + 1);
    var sz, rho := size(b, i), b[i].rate;
    var r', s' := r - sz, s - sz;
    PastBracketFacts(b, i, r, s);
    WalkAverageMonotone(b, i + 1, r', s');
    AveragePast(sz, rho, b[i + 1].rate, r', s', Walk(b, i + 1, r'), Walk(b, i + 1, s'),
                Walk(b, i, r), Walk(b, i, s), r, s);
  }

  /** Past the next threshold, both walks fill bracket `i`; above it, tax grows at least at the next rate. */
  lemma PastBracketFacts(b: seq<Bracket>, i: nat, r: real, s: real)
    requires WellFormed(b) && i + 1 < |b| && size(b, i) < r <= s
    ensures size(b, i) > 0.0 && b[i].rate <= b[i + 1].rate
    ensures GrowsAtLeast(Walk(b, i + 1, r - size(b, i)), r - size(b, i), Walk(b, i + 1, s - size(b, i)), s - size(b, i), b[i + 1].rate)
    ensures Walk(b, i, r) == size(b, i) * b[i].rate + Walk(b, i + 1, r - size(b, i))
    ensures Walk(b, i, s) == size(b, i) * b[i].rate + Walk(b, i + 1, s - size(b, i))
  {
    assert Ascending(b, i, i + 1);
    WalkIncrement(b, i + 1, r - size(b, i), s - size(b, i));
    WalkPastBracket(b, i, s);
    WalkPastBracket(b, i, r);
  }

  lemma AveragePast(sz: real, rho: real, next: real, r': real, s': real, wr: real, ws: real,
                    tr: real, ts: real, r: real, s: real)
    requires sz > 0.0 && 0.0 < r' <= s' && rho <= next
    requires NoHigherAverage(wr, r', ws, s')
    requires GrowsAtLeast(wr, r', ws, s', next)
    requires tr == sz * rho + wr && ts == sz * rho + ws && r == r' + sz && s == s' + sz
    ensures NoHigherAverage(tr, r, ts, s)
  {
    ScaledOrder(s' - r', rho, next);
    ScaledOrder(sz, rho * (s' - r'), ws - wr);
    calc {
      ts * r - tr * s;
      (sz * rho + ws) * (r' + sz) - (sz * rho + wr) * (s' + sz);
      sz * rho * (r' - s') + (ws * r' - wr * s') + sz * (ws - wr);
    >= sz * rho * (r' - s') + sz * (ws - wr);
    >= sz * rho * (r' - s') + sz * (rho * (s' - r'));
      0.0;
    }
  }

  /** Income past the next threshold fills bracket `i` and hands the rest on. */
  lemma WalkFillBracket(b: seq<Bracket>, i: nat, x: real)
    requires i + 1 < |b| && x >= size(b, i) > 0.0
    ensures Walk(b, i, x) == size(b, i) * b[i].rate + Walk(b, i + 1, x - size(b, i))
  {
    assert InBracket(b, i, x) == size(b, i);
  }

  /**
   * Walking from bracket `i` splits at bracket `k`'s threshold: the income up to it
   * is taxed in brackets `i..k-1`, the income above it from bracket `k` on.
   */
  lemma {:induction false} WalkSplit(b: seq<Bracket>, i: nat, k: nat, x: real)
    requires WellFormed(b) && i <= k < |b|
    requires x >= b[k].threshold - b[i].threshold
    ensures Walk(b, i, x) == Walk(b, i, b[k].threshold - b[i].threshold) + Walk(b, k, x - (b[k].threshold - b[i].threshold))
    decreases k - i
  {
    if i < k {
      assert Ascending(b, i, i + 1);
      if i + 1 < k {
        assert Ascending(b, i + 1, k);
      }
      var d := b[k].threshold - b[i].threshold;
      WalkSplit(b, i + 1, k, x - size(b, i));
      WalkFillBracket(b, i, x);
      WalkFillBracket(b, i, d);
    }
  }

  /**
   * The search of `get_marginal_tax_rate`: scanning brackets `k-1` down to 0, the
   * first whose threshold lies strictly below `x`.
   */
  function ScanDown(b: seq<Bracket>, k: nat, x: real): (r: Option<nat>)
    requires k <= |b|
    ensures r.Some? ==> r.value < k && b[r.value].threshold < x
    ensures r.Some? && r.value + 1 < k ==> b[r.value + 1].threshold >= x
    ensures r.None? && 0 < k ==> b[0].threshold >= x
  {
    if k == 0 then None
    else if x > b[k - 1].threshold then Some(k - 1)
    else ScanDown(b, k - 1, x)
  }

  /** The scan finds the highest such bracket: every bracket it passed over starts at or above `x`. */
  lemma {:induction false} ScanDownFindsHighest(b: seq<Bracket>, k: nat, x: real)
    requires k <= |b|
    ensures ScanDown(b, k, x).Some? ==> forall j :: ScanDown(b, k, x).value < j < k ==> b[j].threshold >= x
    ensures ScanDown(b, k, x).None? ==> forall j :: 0 <= j < k ==> b[j].threshold >= x
  {
    if k > 0 && x <= b[k - 1].threshold {
      ScanDownFindsHighest(b, k - 1, x);
    }
  }

  /**
   * The bracket the next dollar of `x` falls in; bracket 0 when the scan finds none.
   * Above the first threshold it starts strictly below `x` and the next one at or above it.
   */
  function TopBracket(b: seq<Bracket>, x: real): (k: nat)
    requires |b| > 0
    ensures k < |b|
    ensures b[0].threshold < x ==> b[k].threshold < x
    ensures b[0].threshold < x && k + 1 < |b| ==> x <= b[k + 1].threshold
  {
    match ScanDown(b, |b|, x)
    case Some(k) => k
    case None => 0
  }

  /**
   * `get_marginal_tax_rate`: 0 for non-positive income, a missing-key error for an
   * unknown status, otherwise the rate of the highest bracket whose threshold lies
   * strictly below the taxable income: between the lowest and the top rate.
   */
  function MarginalTaxRate(income: real, status: string): (r: Result<real, Error>)
    ensures r.Failure? <==> income > 0.0 && status != "single" && status != "married"
    ensures r.Failure? ==> r.error == KeyError(status)
    ensures income <= 0.0 ==> r == Success(0.0)
    ensures income > 0.0 && r.Success? ==> 0.10 <= r.value <= 0.37
  {
    if income <= 0.0 then Success(0.0)
    else if StandardDeduction(status).None? then Failure(KeyError(status))
    else
      var taxable := Max(0.0, income - StandardDeduction(status).value);
      if taxable <= 0.0 then Success(0.0)
      else
        var b := BracketsFor(status);
        TablesWellFormed();
        RateBetween(b, TopBracket(b, taxable));
        Success(b[TopBracket(b, taxable)].rate)
  }

  lemma RateBetween(b: seq<Bracket>, k: nat)
    requires WellFormed(b) && k < |b|
    ensures b[0].rate <= b[k].rate <= b[|b| - 1].rate
  {
    if 0 < k {
      assert Ascending(b, 0, k);
    }
    if k < |b| - 1 {
      assert Ascending(b, k, |b| - 1);
    }
  }

  /** Income in bracket `k` costs the tax up to its threshold plus bracket `k`'s rate on the rest. */
  lemma WalkInBracket(b: seq<Bracket>, k: nat, y: real)
    requires WellFormed(b) && k < |b|
    requires b[k].threshold <= y && (k + 1 < |b| ==> y <= b[k + 1].threshold)
    ensures Walk(b, 0, y) == Walk(b, 0, b[k].threshold) + (y - b[k].threshold) * b[k].rate
  {
    WalkSplit(b, 0, k, y);
    WalkWithinBracket(b, k, y - b[k].threshold);
  }

  /**
   * The marginal rate is what the last dollars cost: between the top bracket's
   * threshold and `x`, tax grows at exactly that bracket's rate.
   */
  lemma LastDollarsAtTopRate(b: seq<Bracket>, x: real, lower: real)
    requires WellFormed(b) && x > 0.0
    requires b[TopBracket(b, x)].threshold <= lower <= x
    ensures GrowsAtRate(Walk(b, 0, lower), lower, Walk(b, 0, x), x, b[TopBracket(b, x)].rate)
  {
    var k := TopBracket(b, x);
    LastDollarsInBracket(b, k, x, lower);
  }

  /** Going from income `y` (tax `ty`) to income `x` (tax `tx`), tax grows by exactly `rate` per unit. */
  ghost predicate GrowsAtRate(ty: real, y: real, tx: real, x: real, rate: real) {
    tx - ty == rate * (x - y)
  }

  lemma LastDollarsInBracket(b: seq<Bracket>, k: nat, x: real, lower: real)
    requires WellFormed(b) && k < |b|
    requires b[k].threshold <= lower <= x && (k + 1 < |b| ==> x <= b[k + 1].threshold)
    ensures GrowsAtRate(Walk(b, 0, lower), lower, Walk(b, 0, x), x, b[k].rate)
  {
    var t, rate := b[k].threshold, b[k].rate;
    var base, tx, ty := Walk(b, 0, t), Walk(b, 0, x), Walk(b, 0, lower);
    assert tx == base + (x - t) * rate by { WalkInBracket(b, k, x); }
    assert ty == base + (lower - t) * rate by { WalkInBracket(b, k, lower); }
    SameLineDifference(base, rate, t, x, lower, tx, ty);
  }

  lemma SameLineDifference(base: real, rate: real, t: real, x: real, y: real, tx: real, ty: real)
    requires tx == base + (x - t) * rate && ty == base + (y - t) * rate
    ensures GrowsAtRate(ty, y, tx, x, rate)
  {
  }

  /** For a known status and positive income, `calc_tax` is the bracket walk over the status's table. */
  lemma TaxIsWalk(income: real, status: string)
    requires status == "single" || status == "married"
    requires income >= 0.0
    ensures TaxOf(income, status) == Success(Walk(BracketsFor(status), 0, income))
  {
  }

  lemma StatusTableWellFormed(status: string)
    ensures WellFormed(BracketsFor(status))
  {
    TablesWellFormed();
  }

  /** For a known status and positive income, the marginal rate is the rate of the income's top bracket. */
  lemma MarginalIsTopBracketRate(income: real, status: string)
    requires status == "single" || status == "married"
    requires income > 0.0
    ensures MarginalTaxRate(income, status) == Success(BracketsFor(status)[TopBracket(BracketsFor(status), income)].rate)
  {
  }

  /** More income never means less tax. */
  lemma TaxMonotone(r: real, s: real, status: string)
    requires status == "single" || status == "married"
    requires r <= s
    ensures TaxOf(r, status).value <= TaxOf(s, status).value
  {
    var b := BracketsFor(status);
    TablesWellFormed();
    if 0.0 < r {
      WalkIncrement(b, 0, r, s);
      RateNonNegative(b, 0);
      ScaledOrder(b[0].rate, 0.0, s - r);
    }
  }

  /** `get_effective_tax_rate`: tax over income, 0 for non-positive income. */
  function EffectiveTaxRate(income: real, status: string): (r: Result<real, Error>)
    ensures r.Failure? <==> income > 0.0 && status != "single" && status != "married"
    ensures r.Success? ==> 0.0 <= r.value <= 0.37
    ensures income <= 0.0 ==> r == Success(0.0)
  {
    if income <= 0.0 then Success(0.0)
    else
      match TaxOf(income, status)
      case Failure(e) => Failure(e)
      case Success(t) =>
        assert 0.0 <= t / income <= 0.37 by {
          assert 0.0 <= t <= 0.37 * income;
          DivBetween(t, income, 0.37);
        }
        Success(t / income)
  }

  lemma DivBetween(t: real, x: real, c: real)
    requires x > 0.0 && 0.0 <= t <= c * x
    ensures 0.0 <= t / x <= c
  {
  }

  /** For a known status and positive income, the effective rate is the walk's tax over the income. */
  lemma EffectiveIsAverage(income: real, status: string)
    requires status == "single" || status == "married"
    requires income > 0.0
    ensures EffectiveTaxRate(income, status) == Success(Walk(BracketsFor(status), 0, income) / income)
  {
  }

  /** Progressivity: the effective rate never falls as income rises. */
  lemma EffectiveRateMonotone(r: real, s: real, status: string)
    requires status == "single" || status == "married"
    requires r <= s
    ensures EffectiveTaxRate(r, status).value <= EffectiveTaxRate(s, status).value
  {
    if 0.0 < r {
      TablesWellFormed();
      var b := BracketsFor(status);
      EffectiveIsAverage(r, status);
      EffectiveIsAverage(s, status);
      AverageRateMonotone(b, r, s);
    }
  }

  /** Tax over income, from the first bracket, never falls as income rises. */
  lemma AverageRateMonotone(b: seq<Bracket>, r: real, s: real)
    requires WellFormed(b) && 0.0 < r <= s
    ensures Walk(b, 0, r) / r <= Walk(b, 0, s) / s
  {
    WalkAverageMonotone(b, 0, r, s);
    AverageOrder(Walk(b, 0, r), Walk(b, 0, s), r, s);
  }

  lemma AverageOrder(tr: real, ts: real, r: real, s: real)
    requires 0.0 < r <= s && NoHigherAverage(tr, r, ts, s)
    ensures tr / r <= ts / s
  {
    var a, c := tr / r, ts / s;
    assert tr == a * r && ts == c * s;
    MulPositive(r, s);
    assert (a - c) * (r * s) == tr * s - ts * r;
    NonPositiveFactor(a - c, r * s);
  }

  lemma MulPositive(u: real, v: real)
    requires u > 0.0 && v > 0.0
    ensures u * v > 0.0
  {
  }

  lemma NonPositiveFactor(u: real, v: real)
    requires v > 0.0 && u * v <= 0.0
    ensures u <= 0.0
  {
    if u > 0.0 {
      MulPositive(u, v);
    }
  }

  /** `create_tax_engine`: the ledger's `(withdrawal, balance)` callback, taxing the withdrawal as income. */
  function CreateTaxEngine(status: string): (engine: (real, real) -> Result<real, Error>)
    ensures forall w: real, balance: real :: engine(w, balance) == TaxOf(w, status)
  {
    (w: real, balance: real) => TaxOf(w, status)
  }

  /** The engine ignores the balance it is handed. */
  lemma EngineIgnoresBalance(status: string, w: real, low: real, high: real)
    ensures CreateTaxEngine(status)(w, low) == CreateTaxEngine(status)(w, high)
  {
  }

  /** With a known filing status the engine never fails, so the ledger can use its value. */
  lemma EngineTotalForKnownStatus(status: string, w: real, balance: real)
    requires status == "single" || status == "married"
    ensures CreateTaxEngine(status)(w, balance).Success?
    ensures 0.0 <= CreateTaxEngine(status)(w, balance).value <= 0.37 * Max(0.0, w)
  {
  }

  /** $50,000 of single income owes $6,617; one dollar owes ten cents, whatever the status. */
  lemma GoldenTaxValues()
    ensures TaxOf(50000.0, "single") == Success(6617.0)
    ensures TaxOf(1.0, "single") == Success(0.10)
    ensures TaxOf(1.0, "married") == Success(0.10)
    ensures TaxOf(0.0, "married") == Success(0.0)
    ensures TaxOf(-1000.0, "single") == Success(0.0)
  {
    assert Walk(SingleBrackets2025, 3, 0.0) == 0.0;
    assert Walk(SingleBrackets2025, 2, 8370.0) == 1841.4;
    assert Walk(SingleBrackets2025, 1, 39000.0) == 3675.6 + 1841.4;
    assert Walk(MarriedBrackets2025, 1, 0.0) == 0.0;
    assert Walk(SingleBrackets2025, 1, 0.0) == 0.0;
  }

  /** $50,000 falls in the single 22% bracket and $5,000 in the 10% one; no income has rate 0. */
  lemma GoldenMarginalRates()
    ensures MarginalTaxRate(50000.0, "single") == Success(0.22)
    ensures MarginalTaxRate(5000.0, "single") == Success(0.10)
    ensures MarginalTaxRate(0.0, "single") == Success(0.0)
    ensures EffectiveTaxRate(0.0, "single") == Success(0.0)
  {
    assert ScanDown(SingleBrackets2025, 3, 50000.0) == Some(2);
    assert ScanDown(SingleBrackets2025, 7, 50000.0) == Some(2);
    assert ScanDown(SingleBrackets2025, 2, 5000.0) == Some(0);
    assert ScanDown(SingleBrackets2025, 7, 5000.0) == Some(0);
  }

  /** An unknown filing status is refused by the tax and by the marginal rate, with different errors. */
  lemma UnknownStatusErrors()
    ensures TaxOf(50000.0, "invalid").Failure?
    ensures TaxOf(50000.0, "invalid").error.ValueError?
    ensures MarginalTaxRate(50000.0, "invalid") == Failure(KeyError("invalid"))
  {
  }
}
