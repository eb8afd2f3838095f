/**
 * The withdrawal-strategy family behind the abstract `calculate_withdrawal`
 * (src/capstone_finance/strategies/base.py): one variant per shipped strategy,
 * the memory a stateful strategy carries from one call to the next, and the
 * dispatch of one call to the strategy's own rule.
 */
module Strategies {
  import opened Wrappers
  import opened Models
  import D = Dummy
  import FP = FourPercentRule
  import CP = ConstantPercentage
  import V = Vpw
  import E = Endowment
  import GK = GuytonKlinger

  /** The shipped strategies; the last two are objects whose fields each call updates. */
  datatype Rule =
    | DummyRule
    | FourPercent
    | ConstantPercent(cp: CP.ConstantPercentageStrategy)
    | VariablePercentage(vpw: V.VpwStrategy)
    | EndowmentRule(endowment: E.EndowmentStrategy)
    | GuardrailRule(gk: GK.GuytonKlingerStrategy)

  predicate Stateful(r: Rule) {
    r.EndowmentRule? || r.GuardrailRule?
  }

  /** What a call may update: the strategy object, if the rule has one. */
  function Objects(r: Rule): set<object> {
    match r
    case EndowmentRule(e) => {e}
    case GuardrailRule(g) => {g}
    case _ => {}
  }

  /** The state a strategy carries between calls. */
  datatype Memory = Stateless | History(history: seq<real>) | Guardrails(gkState: GK.GkState)

  function MemoryOf(r: Rule): (m: Memory)
    reads Objects(r)
  {
    match r
    case EndowmentRule(e) => History(e.history)
    case GuardrailRule(g) => Guardrails(g.Memory())
    case _ => Stateless
  }

  /** The memory has the form the rule's step expects. */
  predicate Fits(r: Rule, m: Memory) {
    match r
    case EndowmentRule(e) => m.History? && 1 <= e.window && |m.history| <= e.window
    case GuardrailRule(_) => m.Guardrails?
    case _ => true
  }

  /** The strategy object satisfies its class invariant. */
  ghost predicate Ready(r: Rule)
    reads Objects(r)
  {
    match r
    case EndowmentRule(e) => e.Valid()
    case GuardrailRule(g) => g.Valid()
    case _ => true
  }

  lemma ReadyFits(r: Rule)
    requires Ready(r)
    ensures Fits(r, MemoryOf(r))
  {
  }

  /**
   * One `calculate_withdrawal` call on memory `m`: the withdrawal (or the error
   * the strategy raises) and the memory afterwards. A ready strategy object's
   * memory always fits its rule (`ReadyFits`); on a memory that does not, the
   * call withdraws nothing and keeps the memory, so that the function is total.
   */
  function Decide(r: Rule, m: Memory, state: Option<YearState>, params: PortfolioParams)
    : (res: (Result<real, Error>, Memory))
    ensures Fits(r, m) ==> Fits(r, res.1)
    ensures !Stateful(r) ==> res.1 == m
    ensures res.0.Failure? ==> r.VariablePercentage? || r.GuardrailRule?
  {
    if !Fits(r, m) then (Success(0.0), m)
    else
      match r
      case DummyRule => (Success(D.CalculateWithdrawal(state, params)), m)
      case FourPercent => (Success(FP.CalculateWithdrawal(state, params)), m)
      case ConstantPercent(cp) => (Success(CP.CalculateWithdrawal(cp, state, params)), m)
      case VariablePercentage(v) => (V.CalculateWithdrawal(v, state, params), m)
      case EndowmentRule(e) =>
        var step := E.Step(e.alpha, e.beta, e.window, m.history, state, params);
        (Success(step.0), History(step.1))
      case GuardrailRule(g) =>
        var step := GK.Step(g.config, m.gkState, state, params);
        (step.0, Guardrails(step.1))
  }

  /** The dummy strategy withdraws nothing and keeps no state, whatever it is given. */
  lemma DummyNeverDiffers(state: Option<YearState>, params: PortfolioParams)
    ensures Decide(DummyRule, Stateless, state, params) == (Success(0.0), Stateless)
  {
  }

  /**
   * A strategy's `calculate_withdrawal` as its caller sees it: from the
   * strategy's memory, the state passed (if any) and the parameters to the
   * answer and the new memory.
   */
  type Behaviour = (Memory, Option<YearState>, PortfolioParams) -> (Result<real, Error>, Memory)

  function BehaviourOf(r: Rule): (b: Behaviour)
    ensures Implements(b, r)
  {
    (m, s, p) => Decide(r, m, s, p)
  }

  /** `b` answers every call as the rule `r` does. */
  ghost predicate Implements(b: Behaviour, r: Rule) {
    forall m, s, p {:trigger Decide(r, m, s, p)} :: b(m, s, p) == Decide(r, m, s, p)
  }

  /** A behaviour that keeps no memory: its answer ignores the memory, which it leaves alone. */
  ghost predicate Memoryless(b: Behaviour) {
    forall m, s, p :: b(m, s, p) == (b(Stateless, s, p).0, m)
  }

  /** A behaviour that never withdraws anything and keeps no memory. */
  ghost predicate WithdrawsNothing(b: Behaviour) {
    forall m, s, p :: b(m, s, p) == (Success(0.0), m)
  }

  /** The four stateless strategies keep no memory. */
  lemma StatelessRulesAreMemoryless(r: Rule)
    requires !Stateful(r)
    ensures Memoryless(BehaviourOf(r))
  {
  }

  /** The dummy strategy never withdraws, whatever it is given. */
  lemma DummyWithdrawsNothing()
    ensures WithdrawsNothing(BehaviourOf(DummyRule))
  {
  }

  /**
   * A strategy object as the ledger sees it: its rule, its `_needs_full_state`
   * attribute (absent, hence false, on every shipped strategy) and its bound
   * `calculate_withdrawal`.
   */
  datatype StrategyHandle = StrategyHandle(rule: Rule, needsFullState: bool, calculateWithdrawal: Behaviour)

  /** The bound method is the rule's own. */
  ghost predicate Bound(h: StrategyHandle) {
    Implements(h.calculateWithdrawal, h.rule)
  }

  function Shipped(r: Rule): (h: StrategyHandle)
    ensures h.rule == r && !h.needsFullState && Bound(h)
  {
    StrategyHandle(r, false, BehaviourOf(r))
  }

  /** `calculate_withdrawal` on a strategy object, updating its fields as `Decide` says. */
  method CalculateWithdrawal(r: Rule, state: Option<YearState>, params: PortfolioParams)
    returns (w: Result<real, Error>)
    requires Ready(r)
    modifies Objects(r)
    ensures Ready(r)
    ensures (w, MemoryOf(r)) == Decide(r, old(MemoryOf(r)), state, params)
  {
    ReadyFits(r);
    match r
    case DummyRule =>
      w := Success(D.CalculateWithdrawal(state, params));
    case FourPercent =>
      w := Success(FP.CalculateWithdrawal(state, params));
    case ConstantPercent(cp) =>
      w := Success(CP.CalculateWithdrawal(cp, state, params));
    case VariablePercentage(v) =>
      w := V.CalculateWithdrawal(v, state, params);
    case EndowmentRule(e) =>
      var x := e.CalculateWithdrawal(state, params);
      w := Success(x);
    case GuardrailRule(g) =>
      w := g.CalculateWithdrawal(state, params);
  }

  /**
   * `strategy.calculate_withdrawal(state, params)` as the ledger makes it: a call
   * through the bound method, which updates the strategy object as its rule says.
   */
  method Call(h: StrategyHandle, state: Option<YearState>, params: PortfolioParams)
    returns (w: Result<real, Error>)
    requires Bound(h) && Ready(h.rule)
    modifies Objects(h.rule)
    ensures Ready(h.rule)
    ensures (w, MemoryOf(h.rule)) == h.calculateWithdrawal(old(MemoryOf(h.rule)), state, params)
  {
    w := CalculateWithdrawal(h.rule, state, params);
  }
}
