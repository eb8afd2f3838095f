/**
 * The run configuration (src/capstone_finance/config.py): a validated record of
 * nineteen settings, built from a dict of field values in which a missing field
 * takes its default, every field is checked against its type and bounds, any
 * other key is refused, and two cross-field checks run afterwards. Merging
 * command-line arguments dumps the record to a dict, writes the arguments into
 * it and validates the result as a new record.
 */
module Config {
  import opened Wrappers
  import opened Numeric

  /** The fields of `ConfigModel`, in declaration order. */
  datatype FieldName =
    | Strategy | Years | Paths | Seed
    | InitBalance | EquityPct | FeesBps
    | MarketMode | Output | Verbose
    | Percent | Alpha | Beta | Window
    | InitialRate | GuardPct | RaisePct | CutPct
    | VpwTablePath

  const AllFields: set<FieldName> :=
    {Strategy, Years, Paths, Seed, InitBalance, EquityPct, FeesBps, MarketMode, Output, Verbose,
     Percent, Alpha, Beta, Window, InitialRate, GuardPct, RaisePct, CutPct, VpwTablePath}

  lemma AllFieldsListed(f: FieldName)
    ensures f in AllFields
  {
  }

  /** The attribute name of a field. */
  function Name(f: FieldName): string {
    match f
    case Strategy => "strategy"
    case Years => "years"
    case Paths => "paths"
    case Seed => "seed"
    case InitBalance => "init_balance"
    case EquityPct => "equity_pct"
    case FeesBps => "fees_bps"
    case MarketMode => "market_mode"
    case Output => "output"
    case Verbose => "verbose"
    case Percent => "percent"
    case Alpha => "alpha"
    case Beta => "beta"
    case Window => "window"
    case InitialRate => "initial_rate"
    case GuardPct => "guard_pct"
    case RaisePct => "raise_pct"
    case CutPct => "cut_pct"
    case VpwTablePath => "vpw_table_path"
  }

  /** A key of the field dict: a field's name, or any other name written into it. */
  datatype Key = FieldKey(field: FieldName) | OtherKey(name: string)

  /** The dict key a name stands for (looked up by first letter, then by the whole name). */
  function KeyOf(s: string): (k: Key)
    ensures k.FieldKey? ==> Name(k.field) == s
    ensures k.OtherKey? ==> k.name == s
  {
    if |s| == 0 then OtherKey(s)
    else
      match s[0]
      case 'a' => if s == "alpha" then FieldKey(Alpha) else OtherKey(s)
      case 'b' => if s == "beta" then FieldKey(Beta) else OtherKey(s)
      case 'c' => if s == "cut_pct" then FieldKey(CutPct) else OtherKey(s)
      case 'e' => if s == "equity_pct" then FieldKey(EquityPct) else OtherKey(s)
      case 'f' => if s == "fees_bps" then FieldKey(FeesBps) else OtherKey(s)
      case 'g' => if s == "guard_pct" then FieldKey(GuardPct) else OtherKey(s)
      case 'i' =>
        if s == "init_balance" then FieldKey(InitBalance)
        else if s == "initial_rate" then FieldKey(InitialRate)
        else OtherKey(s)
      case 'm' => if s == "market_mode" then FieldKey(MarketMode) else OtherKey(s)
      case 'o' => if s == "output" then FieldKey(Output) else OtherKey(s)
      case 'p' =>
        if s == "paths" then FieldKey(Paths)
        else if s == "percent" then FieldKey(Percent)
        else OtherKey(s)
      case 'r' => if s == "raise_pct" then FieldKey(RaisePct) else OtherKey(s)
      case 's' =>
        if s == "strategy" then FieldKey(Strategy)
        else if s == "seed" then FieldKey(Seed)
        else OtherKey(s)
      case 'v' =>
        if s == "verbose" then FieldKey(Verbose)
        else if s == "vpw_table_path" then FieldKey(VpwTablePath)
        else OtherKey(s)
      case 'w' => if s == "window" then FieldKey(Window) else OtherKey(s)
      case 'y' => if s == "years" then FieldKey(Years) else OtherKey(s)
      case _ => OtherKey(s)
  }

  /** A field's name is read back as that field. */
  lemma KeyOfName(f: FieldName)
    ensures KeyOf(Name(f)) == FieldKey(f)
  {
    match f
    case Strategy =>
    case Years =>
    case Paths =>
    case Seed =>
    case InitBalance =>
    case EquityPct =>
    case FeesBps =>
    case MarketMode =>
    case Output =>
    case Verbose =>
    case Percent =>
    case Alpha =>
    case Beta =>
    case Window =>
    case InitialRate =>
    case GuardPct =>
    case RaisePct =>
    case CutPct =>
    case VpwTablePath =>
  }

  /** A value as it arrives in the field dict. */
  datatype Value =
    | IntValue(n: int)
    | RealValue(x: real)
    | TextValue(text: string)
    | BoolValue(flag: bool)
    | NoneValue

  type ConfigData = map<Key, Value>

  /** A numeric bound of a `Field(...)` declaration: `ge`/`le` are inclusive, `gt`/`lt` exclusive. */
  datatype Bound = Unbounded | Inclusive(limit: real) | Exclusive(limit: real)

  predicate AboveLower(b: Bound, x: real) {
    match b
    case Unbounded => true
    case Inclusive(l) => x >= l
    case Exclusive(l) => x > l
  }

  predicate BelowUpper(b: Bound, x: real) {
    match b
    case Unbounded => true
    case Inclusive(u) => x <= u
    case Exclusive(u) => x < u
  }

  /** The declared type of a field with its constraints. */
  datatype Kind =
    | Text
    | OptionalText
    | Flag
    | Whole(min: Option<int>)
    | Number(lower: Bound, upper: Bound)

  function KindOf(f: FieldName): Kind {
    match f
    case Strategy => Text
    case Years => Whole(Some(1))
    case Paths => Whole(Some(1))
    case Seed => Whole(None)
    case InitBalance => Number(Exclusive(0.0), Unbounded)
    case EquityPct => Number(Inclusive(0.0), Inclusive(1.0))
    case FeesBps => Whole(Some(0))
    case MarketMode => Text
    case Output => OptionalText
    case Verbose => Flag
    case Percent => Number(Inclusive(0.0), Inclusive(1.0))
    case Alpha => Number(Inclusive(0.0), Inclusive(1.0))
    case Beta => Number(Inclusive(0.0), Inclusive(1.0))
    case Window => Whole(Some(1))
    case InitialRate => Number(Exclusive(0.0), Exclusive(1.0))
    case GuardPct => Number(Exclusive(0.0), Exclusive(1.0))
    case RaisePct => Number(Exclusive(0.0), Exclusive(1.0))
    case CutPct => Number(Exclusive(0.0), Exclusive(1.0))
    case VpwTablePath => OptionalText
  }

  /** The default of each field. */
  function Default(f: FieldName): Value {
    match f
    case Strategy => TextValue("four_percent_rule")
    case Years => IntValue(30)
    case Paths => IntValue(1000)
    case Seed => IntValue(42)
    case InitBalance => RealValue(1000000.0)
    case EquityPct => RealValue(0.6)
    case FeesBps => IntValue(50)
    case MarketMode => TextValue("lognormal")
    case Output => NoneValue
    case Verbose => BoolValue(false)
    case Percent => RealValue(0.05)
    case Alpha => RealValue(0.7)
    case Beta => RealValue(0.3)
    case Window => IntValue(3)
    case InitialRate => RealValue(0.05)
    case GuardPct => RealValue(0.20)
    case RaisePct => RealValue(0.10)
    case CutPct => RealValue(0.10)
    case VpwTablePath => NoneValue
  }

  /** A value already in the form its field stores, within the field's bounds. */
  predicate Conforms(k: Kind, v: Value) {
    match k
    case Text => v.TextValue?
    case OptionalText => v.TextValue? || v.NoneValue?
    case Flag => v.BoolValue?
    case Whole(min) => v.IntValue? && (min.Some? ==> v.n >= min.value)
    case Number(lower, upper) => v.RealValue? && AboveLower(lower, v.x) && BelowUpper(upper, v.x)
  }

  /**
   * Validation of one field value: an int is accepted for a float field, a float
   * with no fractional part for an int field; anything else of the wrong type,
   * or out of bounds, is refused.
   */
  function Check(k: Kind, v: Value): (r: Option<Value>)
    ensures r.Some? ==> Conforms(k, r.value)
    ensures Conforms(k, v) ==> r == Some(v)
  {
    match k
    case Text => if v.TextValue? then Some(v) else None
    case OptionalText => if v.TextValue? || v.NoneValue? then Some(v) else None
    case Flag => if v.BoolValue? then Some(v) else None
    case Whole(min) =>
      var n: Option<int> :=
        match v
        case IntValue(i) => Some(i)
        case RealValue(x) => if x == x.Floor as real then Some(x.Floor) else None
        case _ => None;
      if n.Some? && (min.Some? ==> n.value >= min.value) then Some(IntValue(n.value)) else None
    case Number(lower, upper) =>
      var x: Option<real> :=
        match v
        case IntValue(i) => Some(i as real)
        case RealValue(x) => Some(x)
        case _ => None;
      if x.Some? && AboveLower(lower, x.value) && BelowUpper(upper, x.value) then Some(RealValue(x.value)) else None
  }

  /** A validated configuration. */
  datatype ConfigModel = ConfigModel(
    strategy: string,
    years: int,
    paths: int,
    seed: int,
    initBalance: real,
    equityPct: real,
    feesBps: int,
    marketMode: string,
    output: Option<string>,
    verbose: bool,
    percent: real,
    alpha: real,
    beta: real,
    window: int,
    initialRate: real,
    guardPct: real,
    raisePct: real,
    cutPct: real,
    vpwTablePath: Option<string>)

  function TextOrNone(s: Option<string>): Value {
    if s.Some? then TextValue(s.value) else NoneValue
  }

  /** A field of a configuration, as the value `model_dump` gives for it. */
  function Field(c: ConfigModel, f: FieldName): Value {
    match f
    case Strategy => TextValue(c.strategy)
    case Years => IntValue(c.years)
    case Paths => IntValue(c.paths)
    case Seed => IntValue(c.seed)
    case InitBalance => RealValue(c.initBalance)
    case EquityPct => RealValue(c.equityPct)
    case FeesBps => IntValue(c.feesBps)
    case MarketMode => TextValue(c.marketMode)
    case Output => TextOrNone(c.output)
    case Verbose => BoolValue(c.verbose)
    case Percent => RealValue(c.percent)
    case Alpha => RealValue(c.alpha)
    case Beta => RealValue(c.beta)
    case Window => IntValue(c.window)
    case InitialRate => RealValue(c.initialRate)
    case GuardPct => RealValue(c.guardPct)
    case RaisePct => RealValue(c.raisePct)
    case CutPct => RealValue(c.cutPct)
    case VpwTablePath => TextOrNone(c.vpwTablePath)
  }

  /** `model_dump()`: every field under its name. */
  function Dump(c: ConfigModel): (d: ConfigData)
    ensures forall k :: k in d <==> k.FieldKey?
    ensures forall f :: d[FieldKey(f)] == Field(c, f)
  {
    var d := map f | f in AllFields :: FieldKey(f) := Field(c, f);
    forall f ensures f in AllFields { AllFieldsListed(f); }
    d
  }

  /** A dumped field is read back as the field. */
  lemma DumpLookup(c: ConfigModel, f: FieldName)
    ensures Lookup(Dump(c), f) == Field(c, f)
  {
    assert FieldKey(f) in Dump(c);
  }

  /** The value a field is validated from: the dict's, or the default when the key is absent. */
  function Lookup(data: ConfigData, f: FieldName): Value {
    if FieldKey(f) in data then data[FieldKey(f)] else Default(f)
  }

  function Normalised(data: ConfigData, f: FieldName): Option<Value> {
    Check(KindOf(f), Lookup(data, f))
  }

  function TextOf(v: Value): string {
    if v.TextValue? then v.text else ""
  }

  function TextOrNoneOf(v: Value): Option<string> {
    if v.TextValue? then Some(v.text) else None
  }

  function IntOf(v: Value): int {
    if v.IntValue? then v.n else 0
  }

  function RealOf(v: Value): real {
    if v.RealValue? then v.x else 0.0
  }

  function FlagOf(v: Value): bool {
    v.BoolValue? && v.flag
  }

  function Normal(data: ConfigData, f: FieldName): Value {
    if Normalised(data, f).Some? then Normalised(data, f).value else NoneValue
  }

  /** The record holding each field's normalised value. */
  function Build(data: ConfigData): ConfigModel {
    BuildFrom(f => Normal(data, f))
  }

  /** The record holding the value `get` gives for each field. */
  function BuildFrom(get: FieldName -> Value): ConfigModel {
    ConfigModel(
      TextOf(get(Strategy)), IntOf(get(Years)), IntOf(get(Paths)), IntOf(get(Seed)),
      RealOf(get(InitBalance)), RealOf(get(EquityPct)), IntOf(get(FeesBps)),
      TextOf(get(MarketMode)), TextOrNoneOf(get(Output)), FlagOf(get(Verbose)),
      RealOf(get(Percent)), RealOf(get(Alpha)), RealOf(get(Beta)), IntOf(get(Window)),
      RealOf(get(InitialRate)), RealOf(get(GuardPct)), RealOf(get(RaisePct)), RealOf(get(CutPct)),
      TextOrNoneOf(get(VpwTablePath)))
  }

  /** A field that validates is stored as its normalised value. */
  lemma BuildField(data: ConfigData, f: FieldName)
    requires Normalised(data, f).Some?
    ensures Field(Build(data), f) == Normalised(data, f).value
  {
    var get := g => Normal(data, g);
    assert get(f) == Normalised(data, f).value;
    BuildFromField(get, f);
  }

  /** A conforming value is stored unchanged. */
  lemma BuildFromField(get: FieldName -> Value, f: FieldName)
    requires Conforms(KindOf(f), get(f))
    ensures Field(BuildFrom(get), f) == get(f)
  {
  }

  /** The errors construction raises. */
  datatype ConfigError =
    | ValidationErrors(names: set<string>)
    | ValueError(msg: string)

  const MarketModeMessage := "market_mode must be 'lognormal' or 'bootstrap'"
  const AlphaBetaMessage := "alpha + beta must equal 1.0 for endowment strategy"

  /** How far `alpha + beta` may be from 1. */
  const Tolerance: real := 0.0000000001

  predicate KnownMarketMode(mode: string) {
    mode == "lognormal" || mode == "bootstrap"
  }

  /** `model_post_init`: the market mode is checked first, then `alpha + beta`. */
  function PostInit(c: ConfigModel): (r: Result<ConfigModel, ConfigError>)
    ensures r.Success? <==> KnownMarketMode(c.marketMode) && Abs(c.alpha + c.beta - 1.0) <= Tolerance
    ensures r.Success? ==> r.value == c
    ensures !KnownMarketMode(c.marketMode) ==> r == Failure(ValueError(MarketModeMessage))
    ensures KnownMarketMode(c.marketMode) && r.Failure? ==> r == Failure(ValueError(AlphaBetaMessage))
  {
    if !KnownMarketMode(c.marketMode) then Failure(ValueError(MarketModeMessage))
    else if Abs(c.alpha + c.beta - 1.0) > Tolerance then Failure(ValueError(AlphaBetaMessage))
    else Success(c)
  }

  /** Every field in its type and bounds, and the checks of `model_post_init` pass. */
  predicate Valid(c: ConfigModel) {
    (forall f :: Conforms(KindOf(f), Field(c, f))) &&
    KnownMarketMode(c.marketMode) && Abs(c.alpha + c.beta - 1.0) <= Tolerance
  }

  /** The keys of a dict that are not fields (refused: extra fields are forbidden). */
  function Extras(data: ConfigData): set<string> {
    set k | k in data && k.OtherKey? :: k.name
  }

  /** The fields whose value fails validation. */
  function InvalidFields(data: ConfigData): set<string> {
    set f | f in AllFields && Normalised(data, f).None? :: Name(f)
  }

  /**
   * `ConfigModel(**data)`: every invalid field and every extra key is reported
   * together; only when there is none does `model_post_init` run.
   */
  function Validate(data: ConfigData): (r: Result<ConfigModel, ConfigError>)
    ensures r.Success? ==> Valid(r.value)
    ensures r.Success? ==> forall f :: Normalised(data, f) == Some(Field(r.value, f))
  {
    if Extras(data) + InvalidFields(data) != {} then
      Failure(ValidationErrors(Extras(data) + InvalidFields(data)))
    else
      AllFieldsValid(data);
      PostInit(Build(data))
  }

  /** With no invalid field every field validates, and the record holds its normalised value. */
  lemma AllFieldsValid(data: ConfigData)
    requires InvalidFields(data) == {}
    ensures forall f :: Normalised(data, f).Some? && Conforms(KindOf(f), Field(Build(data), f))
    ensures forall f :: Field(Build(data), f) == Normalised(data, f).value
  {
    forall f ensures Normalised(data, f).Some? && Field(Build(data), f) == Normalised(data, f).value {
      FieldValidates(data, f);
      BuildField(data, f);
    }
  }

  lemma FieldValidates(data: ConfigData, f: FieldName)
    requires InvalidFields(data) == {}
    ensures Normalised(data, f).Some?
  {
    AllFieldsListed(f);
    assert Name(f) !in InvalidFields(data);
  }

  /** A record whose fields are what `get` gives is the record `get` builds. */
  lemma BuildFromFields(get: FieldName -> Value, c: ConfigModel)
    requires forall f :: get(f) == Field(c, f)
    ensures BuildFrom(get) == c
  {
    var b := BuildFrom(get);
    BuildFromFirst(get, c);
    BuildFromSecond(get, c);
    BuildFromThird(get, c);
    assert b == ConfigModel(c.strategy, c.years, c.paths, c.seed, c.initBalance, c.equityPct, c.feesBps,
                            c.marketMode, c.output, c.verbose, c.percent, c.alpha, c.beta, c.window,
                            c.initialRate, c.guardPct, c.raisePct, c.cutPct, c.vpwTablePath);
  }

  lemma BuildFromFirst(get: FieldName -> Value, c: ConfigModel)
    requires get(Strategy) == Field(c, Strategy) && get(Years) == Field(c, Years)
    requires get(Paths) == Field(c, Paths) && get(Seed) == Field(c, Seed)
    requires get(InitBalance) == Field(c, InitBalance) && get(EquityPct) == Field(c, EquityPct)
    requires get(FeesBps) == Field(c, FeesBps)
    ensures var b := BuildFrom(get);
            b.strategy == c.strategy && b.years == c.years && b.paths == c.paths && b.seed == c.seed &&
            b.initBalance == c.initBalance && b.equityPct == c.equityPct && b.feesBps == c.feesBps
  {
  }

  lemma BuildFromSecond(get: FieldName -> Value, c: ConfigModel)
    requires get(MarketMode) == Field(c, MarketMode) && get(Output) == Field(c, Output)
    requires get(Verbose) == Field(c, Verbose) && get(Percent) == Field(c, Percent)
    requires get(Alpha) == Field(c, Alpha) && get(Beta) == Field(c, Beta)
    ensures var b := BuildFrom(get);
            b.marketMode == c.marketMode && b.output == c.output && b.verbose == c.verbose &&
            b.percent == c.percent && b.alpha == c.alpha && b.beta == c.beta
  {
  }

  lemma BuildFromThird(get: FieldName -> Value, c: ConfigModel)
    requires get(Window) == Field(c, Window) && get(InitialRate) == Field(c, InitialRate)
    requires get(GuardPct) == Field(c, GuardPct) && get(RaisePct) == Field(c, RaisePct)
    requires get(CutPct) == Field(c, CutPct) && get(VpwTablePath) == Field(c, VpwTablePath)
    ensures var b := BuildFrom(get);
            b.window == c.window && b.initialRate == c.initialRate && b.guardPct == c.guardPct &&
            b.raisePct == c.raisePct && b.cutPct == c.cutPct && b.vpwTablePath == c.vpwTablePath
  {
  }

  /**
   * A dict with no extra key whose every field validates to the field of `c`
   * constructs `c`, subject to the checks of `model_post_init`.
   */
  lemma ValidatesTo(data: ConfigData, c: ConfigModel)
    requires Extras(data) == {}
    requires forall f :: Normalised(data, f) == Some(Field(c, f))
    ensures Validate(data) == PostInit(c)
  {
    assert InvalidFields(data) == {};
    BuildFromFields(g => Normal(data, g), c);
  }

  /** `model_dump` then construction gives back exactly the valid configurations. */
  lemma DumpRoundTrip(c: ConfigModel)
    ensures Valid(c) <==> Validate(Dump(c)) == Success(c)
  {
    if Valid(c) {
      var d := Dump(c);
      assert Extras(d) == {};
      forall f ensures Normalised(d, f) == Some(Field(c, f)) {
        DumpLookup(c, f);
      }
      ValidatesTo(d, c);
    }
  }

  /** The configuration with every default, `ConfigModel()`. */
  function Defaults(): ConfigModel {
    ConfigModel("four_percent_rule", 30, 1000, 42, 1000000.0, 0.6, 50, "lognormal", None, false,
                0.05, 0.7, 0.3, 3, 0.05, 0.20, 0.10, 0.10, None)
  }

  lemma DefaultConforms(f: FieldName)
    ensures Check(KindOf(f), Default(f)) == Some(Field(Defaults(), f))
  {
    match f
    case Strategy =>
    case Years =>
    case Paths =>
    case Seed =>
    case InitBalance =>
    case EquityPct =>
    case FeesBps =>
    case MarketMode =>
    case Output =>
    case Verbose =>
    case Percent =>
    case Alpha =>
    case Beta =>
    case Window =>
    case InitialRate =>
    case GuardPct =>
    case RaisePct =>
    case CutPct =>
    case VpwTablePath =>
  }

  /** `ConfigModel()` with no arguments is valid and holds every default. */
  lemma DefaultsAreValid()
    ensures Validate(map[]) == Success(Defaults())
    ensures Valid(Defaults())
  {
    forall f ensures Normalised(map[], f) == Some(Field(Defaults(), f)) {
      DefaultConforms(f);
    }
    ValidatesTo(map[], Defaults());
  }

  /** A field that fails its type or bounds makes construction fail, naming that field. */
  lemma InvalidFieldRaises(data: ConfigData, f: FieldName)
    requires Normalised(data, f).None?
    ensures Validate(data).Failure?
    ensures Validate(data).error.ValidationErrors? && Name(f) in Validate(data).error.names
  {
    AllFieldsListed(f);
    assert Name(f) in InvalidFields(data);
  }

  /** A key that names no field makes construction fail, naming that key (extra fields are forbidden). */
  lemma ExtraKeyRaises(data: ConfigData, name: string)
    requires OtherKey(name) in data
    ensures Validate(data).Failure?
    ensures Validate(data).error.ValidationErrors? && name in Validate(data).error.names
  {
    assert name in Extras(data);
  }

  /** `ConfigModel(equity_pct=1.5)` and `ConfigModel(years=0)` are refused. */
  lemma OutOfBoundsRaise()
    ensures Validate(map[FieldKey(EquityPct) := RealValue(1.5)]).Failure?
    ensures Validate(map[FieldKey(Years) := IntValue(0)]).Failure?
  {
    InvalidFieldRaises(map[FieldKey(EquityPct) := RealValue(1.5)], EquityPct);
    InvalidFieldRaises(map[FieldKey(Years) := IntValue(0)], Years);
  }

  /** `ConfigModel(market_mode="invalid")` passes field validation and fails in `model_post_init`. */
  lemma UnknownMarketModeRaises(mode: string)
    requires !KnownMarketMode(mode)
    ensures Validate(map[FieldKey(MarketMode) := TextValue(mode)]) == Failure(ValueError(MarketModeMessage))
  {
    var data := map[FieldKey(MarketMode) := TextValue(mode)];
    var c := Defaults().(marketMode := mode);
    forall f ensures Normalised(data, f) == Some(Field(c, f)) {
      DefaultConforms(f);
    }
    ValidatesTo(data, c);
  }

  /** `ConfigModel(alpha=0.6, beta=0.5)` passes field validation and fails in `model_post_init`. */
  lemma AlphaBetaSumRaises()
    ensures Validate(map[FieldKey(Alpha) := RealValue(0.6), FieldKey(Beta) := RealValue(0.5)])
            == Failure(ValueError(AlphaBetaMessage))
  {
    var data := map[FieldKey(Alpha) := RealValue(0.6), FieldKey(Beta) := RealValue(0.5)];
    var c := Defaults().(alpha := 0.6, beta := 0.5);
    forall f ensures Normalised(data, f) == Some(Field(c, f)) {
      DefaultConforms(f);
    }
    ValidatesTo(data, c);
  }

  // ---------------------------------------------------------------------------
  // `merge_cli_args`

  /**
   * Names `hasattr` finds on a configuration besides its fields: the ones
   * config.py declares or calls on `self`.
   */
  const ClassAttributes: set<string> :=
    {"model_config", "model_post_init", "from_yaml", "to_yaml", "merge_cli_args", "model_dump"}

  /** `hasattr(self, name)`: true exactly for the field names and the class attributes. */
  predicate HasAttr(name: string): (b: bool)
    ensures b <==> (exists f :: Name(f) == name) || name in ClassAttributes
  {
    assert (exists f :: Name(f) == name) ==> KeyOf(name).FieldKey? by {
      if exists f :: Name(f) == name {
        var f :| Name(f) == name;
        KeyOfName(f);
      }
    }
    KeyOf(name).FieldKey? || name in ClassAttributes
  }

  /**
   * Whether an argument is written into the dict: a value that is not `None`
   * under a name the guard accepts — any attribute, as written, or only a
   * field when `fieldsOnly`.
   */
  predicate Written(name: string, v: Value, fieldsOnly: bool) {
    !v.NoneValue? && (if fieldsOnly then KeyOf(name).FieldKey? else HasAttr(name))
  }

  /**
   * The dict after the arguments are written into it in order: every key of
   * the dict stays, and writing only field names adds no other key.
   */
  function Overlay(data: ConfigData, args: seq<(string, Value)>, fieldsOnly: bool): (r: ConfigData)
    ensures data.Keys <= r.Keys
    ensures fieldsOnly ==> forall k :: k in r && k !in data ==> k.FieldKey?
  {
    if |args| == 0 then data
    else
      var d := Overlay(data, args[..|args| - 1], fieldsOnly);
      var (name, v) := args[|args| - 1];
      if Written(name, v, fieldsOnly) then d[KeyOf(name) := v] else d
  }

  /**
   * `merge_cli_args`: dump the configuration, write every argument that is not
   * `None` and names an attribute, and construct a new configuration from the
   * dict. The configuration merged from is a value and stays as it was.
   */
  method MergeCliArgs(c: ConfigModel, args: seq<(string, Value)>) returns (r: Result<ConfigModel, ConfigError>)
    ensures r == Validate(Overlay(Dump(c), args, false))
    ensures r.Success? ==> Valid(r.value)
  {
    var data := Dump(c);
    var i := 0;
    while i < |args|
      invariant 0 <= i <= |args|
      invariant data == Overlay(Dump(c), args[..i], false)
    {
      assert args[..i + 1][..i] == args[..i];
      var (key, value) := args[i];
      if !value.NoneValue? && HasAttr(key) {
        data := data[KeyOf(key) := value];
      }
      i := i + 1;
    }
    assert args[..i] == args;
    r := Validate(data);
  }

  /** The merge as intended: only arguments naming a field are written. */
  function MergeKnownFields(c: ConfigModel, args: seq<(string, Value)>): (r: Result<ConfigModel, ConfigError>)
    ensures r.Success? ==> Valid(r.value)
  {
    Validate(Overlay(Dump(c), args, true))
  }

  /** A field no argument writes keeps the value it had. */
  lemma {:induction false} OverlayKeeps(data: ConfigData, args: seq<(string, Value)>, fieldsOnly: bool, f: FieldName)
    requires forall i :: 0 <= i < |args| && KeyOf(args[i].0) == FieldKey(f) ==> args[i].1.NoneValue?
    ensures Lookup(Overlay(data, args, fieldsOnly), f) == Lookup(data, f)
  {
    if |args| > 0 {
      OverlayKeeps(data, args[..|args| - 1], fieldsOnly, f);
    }
  }

  /** A field takes the value of the last argument that writes it. */
  lemma {:induction false} OverlayLastWins(data: ConfigData, args: seq<(string, Value)>, fieldsOnly: bool,
                                           i: int, f: FieldName)
    requires 0 <= i < |args| && KeyOf(args[i].0) == FieldKey(f) && !args[i].1.NoneValue?
    requires forall j :: i < j < |args| && KeyOf(args[j].0) == FieldKey(f) ==> args[j].1.NoneValue?
    ensures Lookup(Overlay(data, args, fieldsOnly), f) == args[i].1
  {
    if i < |args| - 1 {
      OverlayLastWins(data, args[..|args| - 1], fieldsOnly, i, f);
    }
  }

  /** An argument under a name the guard refuses is ignored: merging without it gives the same dict. */
  lemma {:induction false} OverlaySkips(data: ConfigData, args: seq<(string, Value)>, fieldsOnly: bool, i: int)
    requires 0 <= i < |args| && !Written(args[i].0, args[i].1, fieldsOnly)
    ensures Overlay(data, args, fieldsOnly) == Overlay(data, args[..i] + args[i + 1..], fieldsOnly)
  {
    var rest := args[..i] + args[i + 1..];
    if i == |args| - 1 {
      assert rest == args[..|args| - 1];
    } else {
      var prefix := args[..|args| - 1];
      assert prefix[..i] + prefix[i + 1..] == rest[..|rest| - 1];
      assert rest[|rest| - 1] == args[|args| - 1];
      OverlaySkips(data, prefix, fieldsOnly, i);
    }
  }

  /** A key written by an argument stays in the dict whatever comes after it. */
  lemma {:induction false} OverlayKeepsKey(data: ConfigData, args: seq<(string, Value)>, fieldsOnly: bool, i: int)
    requires 0 <= i < |args| && Written(args[i].0, args[i].1, fieldsOnly)
    ensures KeyOf(args[i].0) in Overlay(data, args, fieldsOnly)
  {
    if i < |args| - 1 {
      OverlayKeepsKey(data, args[..|args| - 1], fieldsOnly, i);
    }
  }

  /** With only field names written, the dict never gains a key that is not a field. */
  lemma {:induction false} OverlayFieldsOnly(data: ConfigData, args: seq<(string, Value)>)
    ensures Extras(Overlay(data, args, true)) == Extras(data)
  {
    if |args| > 0 {
      OverlayFieldsOnly(data, args[..|args| - 1]);
    }
  }

  /** An argument that is `None`, or absent, leaves its field as it was in the merged configuration. */
  lemma MergeKeepsField(c: ConfigModel, args: seq<(string, Value)>, fieldsOnly: bool, f: FieldName)
    requires Valid(c)
    requires forall i :: 0 <= i < |args| && KeyOf(args[i].0) == FieldKey(f) ==> args[i].1.NoneValue?
    requires Validate(Overlay(Dump(c), args, fieldsOnly)).Success?
    ensures Field(Validate(Overlay(Dump(c), args, fieldsOnly)).value, f) == Field(c, f)
  {
    var data := Overlay(Dump(c), args, fieldsOnly);
    var r := Validate(data).value;
    OverlayKeeps(Dump(c), args, fieldsOnly, f);
    DumpLookup(c, f);
    assert Check(KindOf(f), Field(c, f)) == Some(Field(c, f));
  }

  /** The last non-`None` argument naming a field sets it, normalised as construction does. */
  lemma MergeOverrides(c: ConfigModel, args: seq<(string, Value)>, fieldsOnly: bool, i: int, f: FieldName)
    requires 0 <= i < |args| && KeyOf(args[i].0) == FieldKey(f) && !args[i].1.NoneValue?
    requires forall j :: i < j < |args| && KeyOf(args[j].0) == FieldKey(f) ==> args[j].1.NoneValue?
    requires Validate(Overlay(Dump(c), args, fieldsOnly)).Success?
    ensures Check(KindOf(f), args[i].1) == Some(Field(Validate(Overlay(Dump(c), args, fieldsOnly)).value, f))
  {
    OverlayLastWins(Dump(c), args, fieldsOnly, i, f);
  }

  /** Arguments that are all `None` or name no attribute give back the configuration merged from. */
  lemma {:induction false} NothingWrittenKeepsConfig(c: ConfigModel, args: seq<(string, Value)>, fieldsOnly: bool)
    requires Valid(c)
    requires forall i :: 0 <= i < |args| ==> !Written(args[i].0, args[i].1, fieldsOnly)
    ensures Validate(Overlay(Dump(c), args, fieldsOnly)) == Success(c)
  {
    NothingWritten(Dump(c), args, fieldsOnly);
    DumpRoundTrip(c);
  }

  lemma {:induction false} NothingWritten(data: ConfigData, args: seq<(string, Value)>, fieldsOnly: bool)
    requires forall i :: 0 <= i < |args| ==> !Written(args[i].0, args[i].1, fieldsOnly)
    ensures Overlay(data, args, fieldsOnly) == data
  {
    if |args| > 0 {
      NothingWritten(data, args[..|args| - 1], fieldsOnly);
    }
  }

  /** Names that are neither fields nor attributes are ignored by both merges. */
  lemma UnknownNameIgnored(c: ConfigModel, args: seq<(string, Value)>, i: int)
    requires 0 <= i < |args| && !HasAttr(args[i].0)
    ensures Validate(Overlay(Dump(c), args, false)) == Validate(Overlay(Dump(c), args[..i] + args[i + 1..], false))
    ensures MergeKnownFields(c, args) == MergeKnownFields(c, args[..i] + args[i + 1..])
  {
    OverlaySkips(Dump(c), args, false, i);
    OverlaySkips(Dump(c), args, true, i);
  }

  /** The intended merge ignores every argument that names no field. */
  lemma NonFieldIgnored(c: ConfigModel, args: seq<(string, Value)>, i: int)
    requires 0 <= i < |args| && KeyOf(args[i].0).OtherKey?
    ensures MergeKnownFields(c, args) == MergeKnownFields(c, args[..i] + args[i + 1..])
  {
    OverlaySkips(Dump(c), args, true, i);
  }

  /**
   * As written, an argument that is not `None` under the name of a method of
   * the class passes the `hasattr` guard, is written into the dict and makes
   * construction fail as an extra field.
   */
  lemma MethodNameRaises(c: ConfigModel, args: seq<(string, Value)>, i: int)
    requires 0 <= i < |args| && args[i].0 in ClassAttributes && !args[i].1.NoneValue?
    ensures Validate(Overlay(Dump(c), args, false)).Failure?
    ensures Validate(Overlay(Dump(c), args, false)).error.ValidationErrors?
    ensures args[i].0 in Validate(Overlay(Dump(c), args, false)).error.names
  {
    MethodNamesAreNotFields(args[i].0);
    OverlayKeepsKey(Dump(c), args, false, i);
    ExtraKeyRaises(Overlay(Dump(c), args, false), args[i].0);
  }

  lemma MethodNamesAreNotFields(name: string)
    requires name in ClassAttributes
    ensures KeyOf(name) == OtherKey(name)
  {
  }

  /** As written, `merge_cli_args(to_yaml=...)` raises instead of ignoring the argument. */
  lemma MergeToYamlRaises(c: ConfigModel, args: seq<(string, Value)>, v: Value)
    requires args == [("to_yaml", v)] && !v.NoneValue?
    ensures Validate(Overlay(Dump(c), args, false)).Failure?
    ensures Validate(Overlay(Dump(c), args, false)).error.ValidationErrors?
    ensures "to_yaml" in Validate(Overlay(Dump(c), args, false)).error.names
  {
    MethodNameRaises(c, args, 0);
  }

  /** As intended, a lone argument naming no field, `to_yaml` among them, gives back the configuration merged from. */
  lemma LoneNonFieldIgnored(c: ConfigModel, args: seq<(string, Value)>)
    requires Valid(c) && |args| == 1 && KeyOf(args[0].0).OtherKey?
    ensures MergeKnownFields(c, args) == Success(c)
  {
    OverlayOneSkipped(Dump(c), args, true);
    DumpRoundTrip(c);
  }

  lemma OverlayOneSkipped(data: ConfigData, args: seq<(string, Value)>, fieldsOnly: bool)
    requires |args| == 1 && !Written(args[0].0, args[0].1, fieldsOnly)
    ensures Overlay(data, args, fieldsOnly) == data
  {
    assert args[..0] == [];
  }
}
