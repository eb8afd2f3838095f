/**
 * Variable Percentage Withdrawal (src/capstone_finance/strategies/vpw.py): the
 * withdrawal is a percentage of the current balance read from a table keyed by
 * equity allocation and age.
 *
 * A Python dict is modelled as a sequence of (key, value) pairs in insertion
 * order with distinct keys: `Get` is `d[k]`/`d.get(k)` and `Put` is `d[k] = v`
 * (a new key goes last, an existing key keeps its position).
 */
module Vpw {
  import opened Wrappers
  import opened Models
  import opened Numeric

  /** A dict key as it comes out of a parsed YAML document: an int or a string. */
  datatype RawKey = IntKey(n: int) | StrKey(text: string)

  /** Age -> withdrawal rate in percent. */
  type AgeTable = seq<(int, real)>

  /** `vpw_tables`: equity allocation (in percent) -> age table. */
  type Tables = seq<(RawKey, AgeTable)>

  /** A parsed YAML table before key coercion. */
  type RawData = seq<(RawKey, seq<(RawKey, real)>)>

  datatype VpwStrategy = VpwStrategy(tables: Tables)

  const DefaultAge: int := 65
  const RateCapPercent: real := 10.0
  const FallbackFraction: real := 0.04
  const EmptyTableMessage: string := "VPW table is empty - no equity allocations available"
  const EmptyMinMessage: string := "min() arg is an empty sequence"

  // ---------------------------------------------------------------------------
  // Dicts as association sequences

  predicate DistinctKeys<K(==), V>(d: seq<(K, V)>) {
    forall i, j :: 0 <= i < j < |d| ==> d[i].0 != d[j].0
  }

  /** `d.get(k)`: the value of the first entry with key `k`. */
  function Get<K(==), V>(d: seq<(K, V)>, k: K): (r: Option<V>)
    ensures r.None? <==> forall i :: 0 <= i < |d| ==> d[i].0 != k
    ensures r.Some? ==> exists i :: 0 <= i < |d| && d[i] == (k, r.value)
  {
    if |d| == 0 then None
    else if d[0].0 == k then Some(d[0].1)
    else
      var r := Get(d[1..], k);
      assert forall i :: 1 <= i < |d| ==> d[i] == d[1..][i - 1];
      r
  }

  /** In a dict, the value stored under a key is the one at that key's unique position. */
  lemma {:induction false} GetAt<K, V>(d: seq<(K, V)>, i: int)
    requires DistinctKeys(d) && 0 <= i < |d|
    ensures Get(d, d[i].0) == Some(d[i].1)
  {
    if i > 0 {
      assert d[0].0 != d[i].0;
      assert d[1..][i - 1] == d[i];
      GetAt(d[1..], i - 1);
    }
  }

  /** `d[k] = v`: replaces the value in place when `k` is present, appends otherwise. */
  function Put<K(==), V>(d: seq<(K, V)>, k: K, v: V): (r: seq<(K, V)>)
    ensures |r| == (if Get(d, k).Some? then |d| else |d| + 1)
    ensures forall i :: 0 <= i < |d| ==> r[i].0 == d[i].0
    ensures forall i :: 0 <= i < |d| && d[i].0 != k ==> r[i] == d[i]
    ensures |r| == |d| + 1 ==> r[|d|] == (k, v)
  {
    if |d| == 0 then [(k, v)]
    else if d[0].0 == k then [(k, v)] + d[1..]
    else
      var rest := Put(d[1..], k, v);
      assert forall i :: 1 <= i < |d| ==> d[i] == d[1..][i - 1];
      [d[0]] + rest
  }

  /** After `d[k] = v`, `d[k]` is `v`. */
  lemma {:induction false} PutGet<K, V>(d: seq<(K, V)>, k: K, v: V)
    ensures Get(Put(d, k, v), k) == Some(v)
  {
    if |d| > 0 && d[0].0 != k {
      PutGet(d[1..], k, v);
    }
  }

  /** `d[k] = v` leaves every other key's value as it was. */
  lemma {:induction false} PutGetOther<K, V>(d: seq<(K, V)>, k: K, v: V, k': K)
    requires k' != k
    ensures Get(Put(d, k, v), k') == Get(d, k')
  {
    if |d| > 0 && d[0].0 != k && d[0].0 != k' {
      PutGetOther(d[1..], k, v, k');
    }
  }

  /** A key not yet present goes after all the others. */
  lemma PutAppends<K, V>(d: seq<(K, V)>, k: K, v: V)
    requires Get(d, k).None?
    ensures Put(d, k, v) == d + [(k, v)]
  {
    var r := Put(d, k, v);
    assert forall i :: 0 <= i < |d| ==> r[i] == (d + [(k, v)])[i];
  }

  /** `d[k] = v` keeps a dict a dict: keys stay distinct. */
  lemma PutDistinct<K, V>(d: seq<(K, V)>, k: K, v: V)
    requires DistinctKeys(d)
    ensures DistinctKeys(Put(d, k, v))
  {
    var r := Put(d, k, v);
    if |r| == |d| + 1 {
      assert forall i :: 0 <= i < |d| ==> d[i].0 != k;
    }
  }

  // ---------------------------------------------------------------------------
  // `int()` of a key

  function DigitValue(c: char): Option<nat> {
    if '0' <= c <= '9' then Some(c as int - '0' as int) else None
  }

  /** The value of a string of decimal digits, most significant first; `None` at the first non-digit. */
  function DigitsValue(s: string): Option<nat> {
    if |s| == 0 then Some(0)
    else
      match (DigitsValue(s[..|s| - 1]), DigitValue(s[|s| - 1]))
      case (Some(high), Some(low)) => Some(high * 10 + low)
      case _ => None
  }

  /** Python's `int(s)` on a string: an optional sign followed by at least one decimal digit. */
  function ParseInt(s: string): (r: Result<int, Error>)
    ensures r.Failure? ==> r.error.ValueError?
    ensures |s| == 0 ==> r.Failure?
  {
    if |s| == 0 then Failure(ValueError("invalid literal for int() with base 10: ''"))
    else
      var signed := |s| > 1 && (s[0] == '-' || s[0] == '+');
      match DigitsValue(if signed then s[1..] else s)
      case None => Failure(ValueError("invalid literal for int() with base 10: '" + s + "'"))
      case Some(n) =>
        var v: int := n;
        Success(if signed && s[0] == '-' then -v else v)
  }

  /** `str(n)` for a natural number. */
  function NatDigits(n: nat): (s: string)
    ensures |s| > 0 && '0' <= s[0] <= '9'
  {
    if n < 10 then [('0' as int + n) as char]
    else NatDigits(n / 10) + [('0' as int + n % 10) as char]
  }

  /** `str(n)`. */
  function Decimal(n: int): string {
    if n < 0 then "-" + NatDigits(-n) else NatDigits(n)
  }

  lemma {:induction false} NatDigitsValue(n: nat)
    ensures DigitsValue(NatDigits(n)) == Some(n)
  {
    var s := NatDigits(n);
    if n < 10 {
      assert s[..0] == "";
    } else {
      assert s[..|s| - 1] == NatDigits(n / 10);
      NatDigitsValue(n / 10);
    }
  }

  /** `int(str(n)) == n`: every int key written as text is read back as itself. */
  lemma ParseDecimal(n: int)
    ensures ParseInt(Decimal(n)) == Success(n)
  {
    if n < 0 {
      var s := Decimal(n);
      NatDigitsValue(-n);
      assert s[1..] == NatDigits(-n);
      ParseNegative(s, -n);
    } else {
      NatDigitsValue(n);
      ParseUnsigned(NatDigits(n), n);
    }
  }

  lemma ParseNegative(s: string, n: nat)
    requires |s| > 1 && s[0] == '-' && DigitsValue(s[1..]) == Some(n)
    ensures ParseInt(s) == Success(-(n as int))
  {
  }

  lemma ParseUnsigned(s: string, n: nat)
    requires |s| > 0 && '0' <= s[0] <= '9' && DigitsValue(s) == Some(n)
    ensures ParseInt(s) == Success(n)
  {
  }

  /** Strings that are not integer literals are refused, as `int()` refuses them. */
  lemma ParseIntRejects()
    ensures ParseInt("").Failure? && ParseInt("-").Failure? && ParseInt("6a").Failure?
  {
    assert "6a"[..1] == "6";
  }

  /** `int(key) if isinstance(key, str) else key`. */
  function Coerce(k: RawKey): (r: Result<int, Error>)
    ensures k.IntKey? ==> r == Success(k.n)
  {
    match k
    case IntKey(n) => Success(n)
    case StrKey(s) => ParseInt(s)
  }

  // ---------------------------------------------------------------------------
  // Key coercion of `_load_custom_table`

  /** The age table with every age key coerced, in order; the first key that fails raises. */
  function CoerceAgeTable(raw: seq<(RawKey, real)>): (r: Result<AgeTable, Error>)
    ensures r.Success? ==> DistinctKeys(r.value) && |r.value| <= |raw|
  {
    if |raw| == 0 then Success([])
    else
      match CoerceAgeTable(raw[..|raw| - 1])
      case Failure(e) => Failure(e)
      case Success(t) =>
        match Coerce(raw[|raw| - 1].0)
        case Failure(e) => Failure(e)
        case Success(age) =>
          PutDistinct(t, age, raw[|raw| - 1].1);
          Success(Put(t, age, raw[|raw| - 1].1))
  }

  predicate AllIntKeys(t: Tables) {
    forall i :: 0 <= i < |t| ==> t[i].0.IntKey?
  }

  /**
   * The whole table with equity keys coerced before their age tables; the
   * first failure in reading order raises.
   */
  function CoerceData(data: RawData): (r: Result<Tables, Error>)
    ensures r.Success? ==> AllIntKeys(r.value) && DistinctKeys(r.value)
  {
    if |data| == 0 then Success([])
    else
      match CoerceData(data[..|data| - 1])
      case Failure(e) => Failure(e)
      case Success(d) =>
        match Coerce(data[|data| - 1].0)
        case Failure(e) => Failure(e)
        case Success(k) =>
          match CoerceAgeTable(data[|data| - 1].1)
          case Failure(e) => Failure(e)
          case Success(t) =>
            PutDistinct(d, IntKey(k), t);
            Success(Put(d, IntKey(k), t))
  }

  lemma {:induction false} CoerceAgeTableFailurePersists(raw: seq<(RawKey, real)>, n: nat)
    requires n <= |raw| && CoerceAgeTable(raw[..n]).Failure?
    ensures CoerceAgeTable(raw) == CoerceAgeTable(raw[..n])
    decreases |raw| - n
  {
    if n < |raw| {
      assert raw[..n + 1][..n] == raw[..n];
      CoerceAgeTableFailurePersists(raw, n + 1);
    } else {
      assert raw[..n] == raw;
    }
  }

  lemma {:induction false} CoerceDataFailurePersists(data: RawData, n: nat)
    requires n <= |data| && CoerceData(data[..n]).Failure?
    ensures CoerceData(data) == CoerceData(data[..n])
    decreases |data| - n
  {
    if n < |data| {
      assert data[..n + 1][..n] == data[..n];
      CoerceDataFailurePersists(data, n + 1);
    } else {
      assert data[..n] == data;
    }
  }

  /** One more age entry read: stored with `d[k] = v`, or the error of its key. */
  lemma CoerceAgeTableStep(raw: seq<(RawKey, real)>, j: int, t: AgeTable)
    requires 0 <= j < |raw| && CoerceAgeTable(raw[..j]) == Success(t)
    ensures Coerce(raw[j].0).Failure? ==> CoerceAgeTable(raw[..j + 1]) == Failure(Coerce(raw[j].0).error)
    ensures Coerce(raw[j].0).Success? ==>
              CoerceAgeTable(raw[..j + 1]) == Success(Put(t, Coerce(raw[j].0).value, raw[j].1))
  {
    assert raw[..j + 1][..j] == raw[..j];
  }

  /** One more equity entry read: stored with `d[k] = v`, or the first error of its key or age table. */
  lemma CoerceDataStep(data: RawData, i: int, d: Tables)
    requires 0 <= i < |data| && CoerceData(data[..i]) == Success(d)
    ensures Coerce(data[i].0).Failure? ==> CoerceData(data[..i + 1]) == Failure(Coerce(data[i].0).error)
    ensures Coerce(data[i].0).Success? && CoerceAgeTable(data[i].1).Failure? ==>
              CoerceData(data[..i + 1]) == Failure(CoerceAgeTable(data[i].1).error)
    ensures Coerce(data[i].0).Success? && CoerceAgeTable(data[i].1).Success? ==>
              CoerceData(data[..i + 1]) == Success(Put(d, IntKey(Coerce(data[i].0).value), CoerceAgeTable(data[i].1).value))
  {
    assert data[..i + 1][..i] == data[..i];
  }

  /** The last entry of a loaded table is stored with `d[k] = v` on top of the earlier entries. */
  lemma CoerceDataLast(data: RawData)
    requires |data| > 0 && CoerceData(data).Success?
    ensures CoerceData(data[..|data| - 1]).Success?
    ensures Coerce(data[|data| - 1].0).Success? && CoerceAgeTable(data[|data| - 1].1).Success?
    ensures CoerceData(data).value == Put(CoerceData(data[..|data| - 1]).value,
                                          IntKey(Coerce(data[|data| - 1].0).value),
                                          CoerceAgeTable(data[|data| - 1].1).value)
  {
  }

  /** After loading, every equity key read from the file is present as an int. */
  lemma {:induction false} LoadedKeysPresent(data: RawData, i: int)
    requires CoerceData(data).Success? && 0 <= i < |data|
    ensures Coerce(data[i].0).Success?
    ensures Get(CoerceData(data).value, IntKey(Coerce(data[i].0).value)).Some?
  {
    var n := |data|;
    if i < n - 1 {
      var prefix := data[..n - 1];
      CoerceDataLast(data);
      assert prefix[i] == data[i];
      LoadedKeysPresent(prefix, i);
      PutKeepsKeys(CoerceData(prefix).value, IntKey(Coerce(data[n - 1].0).value),
                   CoerceAgeTable(data[n - 1].1).value, IntKey(Coerce(data[i].0).value));
    } else {
      LastKeyPresent(data, i);
    }
  }

  lemma LastKeyPresent(data: RawData, i: int)
    requires CoerceData(data).Success? && i == |data| - 1 >= 0
    ensures Coerce(data[i].0).Success?
    ensures Get(CoerceData(data).value, IntKey(Coerce(data[i].0).value)).Some?
  {
    LastEntryWins(data);
  }

  /** `d[k] = v` keeps every key already present. */
  lemma PutKeepsKeys<K, V>(d: seq<(K, V)>, k: K, v: V, k': K)
    requires Get(d, k').Some?
    ensures Get(Put(d, k, v), k').Some?
  {
    if k' == k {
      PutGet(d, k, v);
    } else {
      PutGetOther(d, k, v, k');
    }
  }

  /** A later entry for the same key replaces the age table of an earlier one (`d[k] = v`). */
  lemma LastEntryWins(data: RawData)
    requires |data| > 0 && CoerceData(data).Success?
    ensures Coerce(data[|data| - 1].0).Success?
    ensures CoerceAgeTable(data[|data| - 1].1).Success?
    ensures Get(CoerceData(data).value, IntKey(Coerce(data[|data| - 1].0).value))
            == Some(CoerceAgeTable(data[|data| - 1].1).value)
  {
    var n := |data|;
    var d := CoerceData(data[..n - 1]).value;
    var last := IntKey(Coerce(data[n - 1].0).value);
    var t := CoerceAgeTable(data[n - 1].1).value;
    PutGet(d, last, t);
  }

  /** `_load_custom_table` on already-parsed data: the nested conversion loops. */
  method LoadCustomTable(data: RawData) returns (r: Result<Tables, Error>)
    ensures r == CoerceData(data)
  {
    var converted: Tables := [];
    var i := 0;
    while i < |data|
      invariant 0 <= i <= |data|
      invariant CoerceData(data[..i]) == Success(converted)
    {
      var (equityPct, ageTable) := data[i];
      CoerceDataStep(data, i, converted);
      var equityKey := Coerce(equityPct);
      if equityKey.Failure? {
        CoerceDataFailurePersists(data, i + 1);
        return Failure(equityKey.error);
      }
      var convertedAgeTable: AgeTable := [];
      var j := 0;
      while j < |ageTable|
        invariant 0 <= j <= |ageTable|
        invariant CoerceAgeTable(ageTable[..j]) == Success(convertedAgeTable)
      {
        var (age, rate) := ageTable[j];
        CoerceAgeTableStep(ageTable, j, convertedAgeTable);
        var ageKey := Coerce(age);
        if ageKey.Failure? {
          CoerceAgeTableFailurePersists(ageTable, j + 1);
          CoerceDataFailurePersists(data, i + 1);
          return Failure(ageKey.error);
        }
        convertedAgeTable := Put(convertedAgeTable, ageKey.value, rate);
        j := j + 1;
      }
      assert ageTable[..j] == ageTable;
      converted := Put(converted, IntKey(equityKey.value), convertedAgeTable);
      i := i + 1;
    }
    assert data[..i] == data;
    return Success(converted);
  }

  // ---------------------------------------------------------------------------
  // `_get_equity_allocation_key`

  /** Python's `int(x)` on a real: rounds toward zero. */
  function Truncate(x: real): (n: int)
    ensures x >= 0.0 ==> n as real <= x < n as real + 1.0
    ensures x < 0.0 ==> n as real - 1.0 < x <= n as real
  {
    if x >= 0.0 then x.Floor else -((-x).Floor)
  }

  function Distance(x: int, target: int): nat {
    if x >= target then x - target else target - x
  }

  /**
   * `min(keys, key=lambda x: abs(x - target))`: a key at the least distance,
   * the first one in order among equals.
   */
  function ClosestKey(keys: seq<int>, target: int): (k: int)
    requires |keys| > 0
    ensures k in keys
    ensures forall i :: 0 <= i < |keys| ==> Distance(k, target) <= Distance(keys[i], target)
    ensures exists i :: 0 <= i < |keys| && keys[i] == k &&
                        forall j :: 0 <= j < i ==> Distance(keys[j], target) > Distance(k, target)
  {
    if |keys| == 1 then keys[0]
    else
      var prefix := keys[..|keys| - 1];
      var best := ClosestKey(prefix, target);
      var last := keys[|keys| - 1];
      assert forall i :: 0 <= i < |prefix| ==> prefix[i] == keys[i];
      if Distance(last, target) < Distance(best, target) then last else best
  }

  /**
   * Conversely, the key selected is the first key at the least distance: one
   * strictly closer than every key before it and no farther than any after it.
   */
  lemma ClosestKeyIsFirstClosest(keys: seq<int>, target: int, i: int)
    requires 0 <= i < |keys|
    requires forall j :: 0 <= j < i ==> Distance(keys[j], target) > Distance(keys[i], target)
    requires forall j :: i < j < |keys| ==> Distance(keys[i], target) <= Distance(keys[j], target)
    ensures ClosestKey(keys, target) == keys[i]
  {
    var k := ClosestKey(keys, target);
    var i' :| 0 <= i' < |keys| && keys[i'] == k &&
              forall j :: 0 <= j < i' ==> Distance(keys[j], target) > Distance(k, target);
    assert i' == i;
  }

  /** A table whose keys read as `ks` selects the first key of `ks` closest to the truncated percentage. */
  lemma SelectedKey(t: Tables, ks: seq<int>, equityPct: real, i: int)
    requires |t| > 0 && IntKeys(Keys(t)) == Success(ks) && 0 <= i < |ks|
    requires forall j :: 0 <= j < i ==> Distance(ks[j], Truncate(equityPct * 100.0)) > Distance(ks[i], Truncate(equityPct * 100.0))
    requires forall j :: i < j < |ks| ==> Distance(ks[i], Truncate(equityPct * 100.0)) <= Distance(ks[j], Truncate(equityPct * 100.0))
    ensures EquityKey(t, equityPct) == Success(ks[i])
  {
    ClosestKeyIsFirstClosest(ks, Truncate(equityPct * 100.0), i);
  }

  function Keys(t: Tables): (ks: seq<RawKey>)
    ensures |ks| == |t| && forall i :: 0 <= i < |t| ==> ks[i] == t[i].0
  {
    seq(|t|, i requires 0 <= i < |t| => t[i].0)
  }

  /** The `int_keys` list: every key coerced, in order; the first string that is not an int raises. */
  function IntKeys(keys: seq<RawKey>): (r: Result<seq<int>, Error>)
    ensures r.Success? ==> |r.value| == |keys| &&
                           forall i :: 0 <= i < |keys| ==> Coerce(keys[i]) == Success(r.value[i])
    ensures r.Failure? ==> exists i :: 0 <= i < |keys| && Coerce(keys[i]) == Failure(r.error)
  {
    if |keys| == 0 then Success([])
    else
      var prefix := keys[..|keys| - 1];
      assert forall i :: 0 <= i < |prefix| ==> prefix[i] == keys[i];
      match IntKeys(prefix)
      case Failure(e) => Failure(e)
      case Success(ks) =>
        match Coerce(keys[|keys| - 1])
        case Failure(e) => Failure(e)
        case Success(k) => Success(ks + [k])
  }

  /** The key `_get_equity_allocation_key` returns for `equity_pct`, or the error it raises. */
  function EquityKey(t: Tables, equityPct: real): (r: Result<int, Error>)
    ensures |t| == 0 ==> r == Failure(ValueError(EmptyTableMessage))
    ensures r.Failure? ==> r.error.ValueError?
    ensures r.Success? ==> exists i :: 0 <= i < |t| && Coerce(t[i].0) == Success(r.value)
  {
    if |t| == 0 then Failure(ValueError(EmptyTableMessage))
    else
      match IntKeys(Keys(t))
      case Failure(e) => Failure(e)
      case Success(ks) =>
        var k := ClosestKey(ks, Truncate(equityPct * 100.0));
        assert exists i :: 0 <= i < |t| && Coerce(t[i].0) == Success(k) by {
          var i :| 0 <= i < |ks| && ks[i] == k;
          assert Keys(t)[i] == t[i].0;
        }
        Success(k)
  }

  lemma {:induction false} IntKeysFailurePersists(keys: seq<RawKey>, n: nat)
    requires n <= |keys| && IntKeys(keys[..n]).Failure?
    ensures IntKeys(keys) == IntKeys(keys[..n])
    decreases |keys| - n
  {
    if n < |keys| {
      assert keys[..n + 1][..n] == keys[..n];
      IntKeysFailurePersists(keys, n + 1);
    } else {
      assert keys[..n] == keys;
    }
  }

  /** The selected key is one of the table's keys, after coercion. */
  lemma EquityKeyIsTableKey(t: Tables, equityPct: real)
    requires EquityKey(t, equityPct).Success?
    ensures exists i :: 0 <= i < |t| && Coerce(t[i].0) == Success(EquityKey(t, equityPct).value)
  {
    var ks := IntKeys(Keys(t)).value;
    var k := EquityKey(t, equityPct).value;
    var i :| 0 <= i < |ks| && ks[i] == k;
    assert Coerce(Keys(t)[i]) == Success(ks[i]);
  }

  /** No table key is closer to the truncated percentage than the selected one. */
  lemma EquityKeyIsClosest(t: Tables, equityPct: real, j: int)
    requires EquityKey(t, equityPct).Success? && 0 <= j < |t|
    ensures Coerce(t[j].0).Success?
    ensures Distance(EquityKey(t, equityPct).value, Truncate(equityPct * 100.0))
            <= Distance(Coerce(t[j].0).value, Truncate(equityPct * 100.0))
  {
    var ks := IntKeys(Keys(t)).value;
    assert Coerce(Keys(t)[j]) == Success(ks[j]);
  }

  /** Among keys at the least distance the first in table order wins: a key as close as the selected one comes no earlier than it. */
  lemma EquityKeyFirstOnTies(t: Tables, equityPct: real, j: int)
    requires EquityKey(t, equityPct).Success? && 0 <= j < |t|
    requires Coerce(t[j].0).Success?
    requires Distance(Coerce(t[j].0).value, Truncate(equityPct * 100.0))
             == Distance(EquityKey(t, equityPct).value, Truncate(equityPct * 100.0))
    ensures exists i :: 0 <= i <= j && Coerce(t[i].0) == Success(EquityKey(t, equityPct).value)
  {
    var ks := IntKeys(Keys(t)).value;
    var k := EquityKey(t, equityPct).value;
    var target := Truncate(equityPct * 100.0);
    var i :| 0 <= i < |ks| && ks[i] == k && forall j' :: 0 <= j' < i ==> Distance(ks[j'], target) > Distance(k, target);
    assert Coerce(Keys(t)[i]) == Success(ks[i]);
    assert Coerce(Keys(t)[j]) == Success(ks[j]);
  }

  /** An empty table raises at lookup time, whatever the allocation. */
  lemma EmptyTableRaises(equityPct: real)
    ensures EquityKey([], equityPct) == Failure(ValueError(EmptyTableMessage))
  {
  }

  /** The loop building `int_keys`: each key coerced in turn; the first string that is not an int raises. */
  method CoerceKeys(t: Tables) returns (r: Result<seq<int>, Error>)
    ensures r == IntKeys(Keys(t))
  {
    var keys := Keys(t);
    var intKeys: seq<int> := [];
    var i := 0;
    while i < |t|
      invariant 0 <= i <= |t|
      invariant IntKeys(keys[..i]) == Success(intKeys)
    {
      assert keys[..i + 1][..i] == keys[..i];
      var key := Coerce(t[i].0);
      if key.Failure? {
        IntKeysFailurePersists(keys, i + 1);
        return Failure(key.error);
      }
      intKeys := intKeys + [key.value];
      i := i + 1;
    }
    assert keys[..i] == keys;
    return Success(intKeys);
  }

  /** `min(int_keys, key=lambda x: abs(x - equity_percentage))`: a scan that keeps the first closest key. */
  method MinByDistance(keys: seq<int>, target: int) returns (closest: int)
    requires |keys| > 0
    ensures closest == ClosestKey(keys, target)
  {
    closest := keys[0];
    var j := 1;
    assert keys[..1] == [keys[0]];
    while j < |keys|
      invariant 1 <= j <= |keys|
      invariant closest == ClosestKey(keys[..j], target)
    {
      assert keys[..j + 1][..j] == keys[..j];
      if Distance(keys[j], target) < Distance(closest, target) {
        closest := keys[j];
      }
      j := j + 1;
    }
    assert keys[..j] == keys;
  }

  /** `_get_equity_allocation_key`. */
  method EquityAllocationKey(t: Tables, equityPct: real) returns (r: Result<int, Error>)
    ensures r == EquityKey(t, equityPct)
  {
    var equityPercentage := Truncate(equityPct * 100.0);
    if |t| == 0 {
      return Failure(ValueError(EmptyTableMessage));
    }
    var intKeys := CoerceKeys(t);
    if intKeys.Failure? {
      return Failure(intKeys.error);
    }
    var closest := MinByDistance(intKeys.value, equityPercentage);
    return Success(closest);
  }

  // ---------------------------------------------------------------------------
  // `_get_withdrawal_percentage`

  /** `min(rate, 10.0) / 100.0`: a rate in percent, capped at 10%, as a fraction. */
  function Cap(rate: real): real {
    Min(rate, RateCapPercent) / 100.0
  }

  /** `min(age_table.keys())`. */
  function MinAge(t: AgeTable): (m: int)
    requires |t| > 0
    ensures exists i :: 0 <= i < |t| && t[i].0 == m
    ensures forall i :: 0 <= i < |t| ==> m <= t[i].0
  {
    if |t| == 1 then t[0].0
    else
      var m := MinAge(t[1..]);
      assert forall i :: 1 <= i < |t| ==> t[i] == t[1..][i - 1];
      if t[0].0 <= m then t[0].0 else m
  }

  /** `max(age_table.keys())`. */
  function MaxAge(t: AgeTable): (m: int)
    requires |t| > 0
    ensures exists i :: 0 <= i < |t| && t[i].0 == m
    ensures forall i :: 0 <= i < |t| ==> t[i].0 <= m
  {
    if |t| == 1 then t[0].0
    else
      var m := MaxAge(t[1..]);
      assert forall i :: 1 <= i < |t| ==> t[i] == t[1..][i - 1];
      if t[0].0 >= m then t[0].0 else m
  }

  /** The greatest age of the table strictly below `age`, if any. */
  function Below(t: AgeTable, age: int): (r: Option<int>)
    ensures r.None? <==> forall i :: 0 <= i < |t| ==> t[i].0 >= age
    ensures r.Some? ==> r.value < age && exists i :: 0 <= i < |t| && t[i].0 == r.value
    ensures r.Some? ==> forall i :: 0 <= i < |t| && t[i].0 < age ==> t[i].0 <= r.value
  {
    if |t| == 0 then None
    else
      var rest := Below(t[1..], age);
      assert forall i :: 1 <= i < |t| ==> t[i] == t[1..][i - 1];
      if t[0].0 >= age then rest
      else if rest.None? || rest.value < t[0].0 then Some(t[0].0)
      else rest
  }

  /** The least age of the table strictly above `age`, if any. */
  function Above(t: AgeTable, age: int): (r: Option<int>)
    ensures r.None? <==> forall i :: 0 <= i < |t| ==> t[i].0 <= age
    ensures r.Some? ==> r.value > age && exists i :: 0 <= i < |t| && t[i].0 == r.value
    ensures r.Some? ==> forall i :: 0 <= i < |t| && t[i].0 > age ==> r.value <= t[i].0
  {
    if |t| == 0 then None
    else
      var rest := Above(t[1..], age);
      assert forall i :: 1 <= i < |t| ==> t[i] == t[1..][i - 1];
      if t[0].0 <= age then rest
      else if rest.None? || rest.value > t[0].0 then Some(t[0].0)
      else rest
  }

  /** `lower_rate + weight * (upper_rate - lower_rate)` with `weight = (age - lower_age) / (upper_age - lower_age)`. */
  function Interpolate(lowerAge: int, upperAge: int, lowerRate: real, upperRate: real, age: int): real
    requires lowerAge < upperAge
  {
    Lerp(lowerRate, upperRate, Weight(lowerAge, upperAge, age))
  }

  /** The point a fraction `w` of the way from `a` to `b`. */
  function Lerp(a: real, b: real, w: real): real {
    a + w * (b - a)
  }

  /** `(age - lower_age) / (upper_age - lower_age)`. */
  function Weight(lowerAge: int, upperAge: int, age: int): real
    requires lowerAge < upperAge
  {
    (age - lowerAge) as real / (upperAge - lowerAge) as real
  }

  /**
   * `_get_withdrawal_percentage` on the age table already selected: an exact
   * hit, then clamping below the minimum and above the maximum age, then
   * interpolation between the neighbouring ages (the pair the scan over the
   * sorted ages stops at), all capped at 10%. An empty table fails in `min`.
   */
  function WithdrawalPercentage(t: AgeTable, age: int): (r: Result<real, Error>)
    ensures r.Failure? <==> |t| == 0
    ensures r.Failure? ==> r.error == ValueError(EmptyMinMessage)
    ensures r.Success? ==> r.value <= 0.10
  {
    match Get(t, age)
    case Some(rate) => Success(Cap(rate))
    case None =>
      if |t| == 0 then Failure(ValueError(EmptyMinMessage))
      else if age < MinAge(t) then Success(Cap(Get(t, MinAge(t)).value))
      else if age > MaxAge(t) then Success(Cap(Get(t, MaxAge(t)).value))
      else
        match (Below(t, age), Above(t, age))
        case (Some(lower), Some(upper)) =>
          Success(Cap(Interpolate(lower, upper, Get(t, lower).value, Get(t, upper).value, age)))
        case _ => Success(FallbackFraction)
  }

  /** The age table for `key`, as `self.vpw_tables[key]` finds it. */
  function AgeTableFor(t: Tables, key: int): (r: Result<AgeTable, Error>)
    ensures r.Failure? <==> forall i :: 0 <= i < |t| ==> t[i].0 != IntKey(key)
  {
    match Get(t, IntKey(key))
    case None => Failure(KeyError(Decimal(key)))
    case Some(a) => Success(a)
  }

  /** `_get_withdrawal_percentage(age, _get_equity_allocation_key(equity_pct))`, table lookup included. */
  function Percentage(t: Tables, equityPct: real, age: int): (r: Result<real, Error>)
    ensures |t| == 0 ==> r == Failure(ValueError(EmptyTableMessage))
    ensures r.Failure? ==> r.error.ValueError? || r.error.KeyError?
    ensures r.Success? ==> r.value <= 0.10
  {
    match EquityKey(t, equityPct)
    case Failure(e) => Failure(e)
    case Success(key) =>
      match AgeTableFor(t, key)
      case Failure(e) => Failure(e)
      case Success(ageTable) => WithdrawalPercentage(ageTable, age)
  }

  /** `balance * withdrawal_pct`, or the error raised on the way to the percentage. */
  function ApplyFraction(pct: Result<real, Error>, balance: real): (r: Result<real, Error>)
    ensures r.Success? <==> pct.Success?
    ensures pct.Success? && pct.value <= 0.10 && balance >= 0.0 ==> r.value <= 0.10 * balance
  {
    match pct
    case Failure(e) => Failure(e)
    case Success(fraction) =>
      assert fraction <= 0.10 && balance >= 0.0 ==> balance * fraction <= balance * 0.10 by {
        if fraction <= 0.10 && balance >= 0.0 {
          ScaledOrder(balance, fraction, 0.10);
        }
      }
      Success(balance * fraction)
  }

  /**
   * `calculate_withdrawal`: without a state, age 65 and the initial balance;
   * otherwise the state's age and balance.
   */
  function CalculateWithdrawal(v: VpwStrategy, state: Option<YearState>, params: PortfolioParams): (r: Result<real, Error>)
    ensures |v.tables| == 0 ==> r == Failure(ValueError(EmptyTableMessage))
    ensures var balance := if state.None? then params.initBalance else state.value.balance;
            r.Success? && balance >= 0.0 ==> r.value <= 0.10 * balance
  {
    var age := if state.None? then DefaultAge else state.value.age;
    var balance := if state.None? then params.initBalance else state.value.balance;
    ApplyFraction(Percentage(v.tables, params.equityPct, age), balance)
  }

  // ---------------------------------------------------------------------------
  // Properties of the percentage lookup

  /** An age present in the table gives its own rate, capped. */
  lemma ExactAge(t: AgeTable, i: int)
    requires DistinctKeys(t) && 0 <= i < |t|
    ensures WithdrawalPercentage(t, t[i].0) == Success(Cap(t[i].1))
  {
    GetAt(t, i);
  }

  /** An age below every table age gives the rate of the youngest age, capped. */
  lemma BelowYoungestAge(t: AgeTable, i: int, age: int)
    requires DistinctKeys(t) && 0 <= i < |t|
    requires forall j :: 0 <= j < |t| ==> t[i].0 <= t[j].0
    requires age < t[i].0
    ensures WithdrawalPercentage(t, age) == Success(Cap(t[i].1))
  {
    GetAt(t, i);
  }

  /** An age above every table age gives the rate of the oldest age, capped. */
  lemma AboveOldestAge(t: AgeTable, i: int, age: int)
    requires DistinctKeys(t) && 0 <= i < |t|
    requires forall j :: 0 <= j < |t| ==> t[j].0 <= t[i].0
    requires age > t[i].0
    ensures WithdrawalPercentage(t, age) == Success(Cap(t[i].1))
  {
    GetAt(t, i);
  }

  /**
   * An age strictly between two table ages with no table age between them is
   * interpolated linearly between their rates, then capped.
   */
  lemma BetweenNeighbours(t: AgeTable, i: int, j: int, age: int)
    requires DistinctKeys(t) && 0 <= i < |t| && 0 <= j < |t|
    requires t[i].0 < age < t[j].0
    requires forall k :: 0 <= k < |t| ==> t[k].0 <= t[i].0 || t[j].0 <= t[k].0
    ensures WithdrawalPercentage(t, age) == Success(Cap(Interpolate(t[i].0, t[j].0, t[i].1, t[j].1, age)))
  {
    GetAt(t, i);
    GetAt(t, j);
    assert Get(t, age).None?;
    assert MinAge(t) <= t[i].0 && t[j].0 <= MaxAge(t);
    NeighbourBelow(t, i, j, age);
    NeighbourAbove(t, i, j, age);
  }

  lemma NeighbourBelow(t: AgeTable, i: int, j: int, age: int)
    requires 0 <= i < |t| && 0 <= j < |t| && t[i].0 < age < t[j].0
    requires forall k :: 0 <= k < |t| ==> t[k].0 <= t[i].0 || t[j].0 <= t[k].0
    ensures Below(t, age) == Some(t[i].0)
  {
  }

  lemma NeighbourAbove(t: AgeTable, i: int, j: int, age: int)
    requires 0 <= i < |t| && 0 <= j < |t| && t[i].0 < age < t[j].0
    requires forall k :: 0 <= k < |t| ==> t[k].0 <= t[i].0 || t[j].0 <= t[k].0
    ensures Above(t, age) == Some(t[j].0)
  {
  }

  /** Between the youngest and the oldest age the neighbours always exist: the 4% fallback is never reached. */
  lemma FallbackUnreachable(t: AgeTable, age: int)
    requires |t| > 0 && MinAge(t) < age < MaxAge(t)
    ensures Below(t, age).Some? && Above(t, age).Some?
  {
  }

  /** Between its end points the interpolation stays within the two rates. */
  lemma InterpolateBetween(lowerAge: int, upperAge: int, lowerRate: real, upperRate: real, age: int)
    requires lowerAge <= age <= upperAge && lowerAge < upperAge
    ensures lowerRate <= upperRate ==>
              lowerRate <= Interpolate(lowerAge, upperAge, lowerRate, upperRate, age) <= upperRate
    ensures upperRate <= lowerRate ==>
              upperRate <= Interpolate(lowerAge, upperAge, lowerRate, upperRate, age) <= lowerRate
  {
    WeightInUnitInterval(lowerAge, upperAge, age);
    StepWithin(lowerRate, upperRate, Weight(lowerAge, upperAge, age));
  }

  lemma WeightInUnitInterval(lowerAge: int, upperAge: int, age: int)
    requires lowerAge <= age <= upperAge && lowerAge < upperAge
    ensures 0.0 <= Weight(lowerAge, upperAge, age) <= 1.0
  {
    var n := (age - lowerAge) as real;
    var d := (upperAge - lowerAge) as real;
    assert (n / d) * d == n;
  }

  /** A step of a fraction `w` of the way from `a` towards `b` stays between them. */
  lemma StepWithin(a: real, b: real, w: real)
    requires 0.0 <= w <= 1.0
    ensures a <= b ==> a <= Lerp(a, b, w) <= b
    ensures b <= a ==> b <= Lerp(a, b, w) <= a
  {
    if a <= b {
      StepUp(a, b, w);
    }
    if b <= a {
      StepUp(b, a, 1.0 - w);
      assert Lerp(b, a, 1.0 - w) == Lerp(a, b, w);
    }
  }

  lemma StepUp(a: real, b: real, w: real)
    requires 0.0 <= w <= 1.0 && a <= b
    ensures a <= Lerp(a, b, w) <= b
  {
    var d := b - a;
    var x := Lerp(a, b, w);
    assert x - a == w * d && b - x == (1.0 - w) * d;
    assert w * d >= 0.0 && (1.0 - w) * d >= 0.0;
  }

  predicate NonNegativeRates(t: AgeTable) {
    forall i :: 0 <= i < |t| ==> t[i].1 >= 0.0
  }

  /** The fraction is never above 10%, and never negative when the table's rates are not. */
  lemma PercentageBounds(t: AgeTable, age: int)
    requires WithdrawalPercentage(t, age).Success?
    ensures WithdrawalPercentage(t, age).value <= 0.10
    ensures NonNegativeRates(t) ==> WithdrawalPercentage(t, age).value >= 0.0
  {
    var r := WithdrawalPercentage(t, age).value;
    if Get(t, age).Some? {
      CapBounds(Get(t, age).value);
      GetNonNegative(t, age);
    } else if age < MinAge(t) {
      CapBounds(Get(t, MinAge(t)).value);
      GetNonNegative(t, MinAge(t));
    } else if age > MaxAge(t) {
      CapBounds(Get(t, MaxAge(t)).value);
      GetNonNegative(t, MaxAge(t));
    } else if Below(t, age).Some? && Above(t, age).Some? {
      var lower := Below(t, age).value;
      var upper := Above(t, age).value;
      var lowerRate := Get(t, lower).value;
      var upperRate := Get(t, upper).value;
      var x := Interpolate(lower, upper, lowerRate, upperRate, age);
      assert r == Cap(x);
      InterpolateBetween(lower, upper, lowerRate, upperRate, age);
      CapBounds(x);
      if NonNegativeRates(t) {
        GetNonNegative(t, lower);
        GetNonNegative(t, upper);
      }
    }
  }

  /** The cap never lets a rate above 10% through and keeps a non-negative rate non-negative. */
  lemma CapBounds(rate: real)
    ensures Cap(rate) <= 0.10
    ensures rate >= 0.0 ==> Cap(rate) >= 0.0
  {
  }

  lemma GetNonNegative(t: AgeTable, age: int)
    requires Get(t, age).Some?
    ensures NonNegativeRates(t) ==> Get(t, age).value >= 0.0
  {
  }

  /** An age table with no entries fails in `min` when the age is not found. */
  lemma EmptyAgeTableRaises(age: int)
    ensures WithdrawalPercentage([], age) == Failure(ValueError(EmptyMinMessage))
  {
  }

  // ---------------------------------------------------------------------------
  // Properties of the withdrawal

  /** Without a state the strategy looks up age 65 and withdraws from the initial balance. */
  lemma NoStateUsesDefaults(v: VpwStrategy, params: PortfolioParams)
    ensures CalculateWithdrawal(v, None, params) ==
            ApplyFraction(Percentage(v.tables, params.equityPct, 65), params.initBalance)
  {
  }

  /** With a state the strategy looks up the state's age and withdraws from the state's balance. */
  lemma StateSuppliesAgeAndBalance(v: VpwStrategy, s: YearState, params: PortfolioParams)
    ensures CalculateWithdrawal(v, Some(s), params) ==
            ApplyFraction(Percentage(v.tables, params.equityPct, s.age), s.balance)
  {
  }

  /** The withdrawal is the balance times the fraction; an error in the lookup passes through unchanged. */
  lemma ApplyFractionScales(pct: Result<real, Error>, balance: real)
    ensures ApplyFraction(pct, balance).Success? <==> pct.Success?
    ensures pct.Success? ==> ApplyFraction(pct, balance).value == balance * pct.value
    ensures pct.Failure? ==> ApplyFraction(pct, balance).error == pct.error
  {
  }

  /** A fraction between 0 and 10% of a non-negative balance is between 0 and a tenth of it. */
  lemma ApplyFractionBounds(pct: Result<real, Error>, balance: real)
    requires pct.Success? ==> 0.0 <= pct.value <= 0.10
    requires balance >= 0.0
    ensures ApplyFraction(pct, balance).Success? ==> 0.0 <= ApplyFraction(pct, balance).value <= 0.10 * balance
  {
    if pct.Success? {
      ScaledOrder(balance, 0.0, pct.value);
    }
  }

  /** Non-negative table rates give a fraction between 0 and 10%. */
  lemma PercentageInRange(t: Tables, equityPct: real, age: int)
    requires Percentage(t, equityPct, age).Success?
    requires forall i :: 0 <= i < |t| ==> NonNegativeRates(t[i].1)
    ensures 0.0 <= Percentage(t, equityPct, age).value <= 0.10
  {
    var key := EquityKey(t, equityPct).value;
    var a := AgeTableFor(t, key).value;
    var i :| 0 <= i < |t| && t[i] == (IntKey(key), a);
    PercentageBounds(a, age);
  }

  /** A non-negative balance and non-negative rates never give a negative withdrawal or more than 10% of the balance. */
  lemma WithdrawalBounds(v: VpwStrategy, s: YearState, params: PortfolioParams)
    requires s.balance >= 0.0
    requires forall i :: 0 <= i < |v.tables| ==> NonNegativeRates(v.tables[i].1)
    ensures CalculateWithdrawal(v, Some(s), params).Success? ==>
              0.0 <= CalculateWithdrawal(v, Some(s), params).value <= 0.10 * s.balance
  {
    var pct := Percentage(v.tables, params.equityPct, s.age);
    if pct.Success? {
      PercentageInRange(v.tables, params.equityPct, s.age);
    }
    ApplyFractionBounds(pct, s.balance);
  }

  /** A table read from a file never fails the `vpw_tables[key]` lookup. */
  lemma LoadedTableFindsKey(data: RawData, equityPct: real)
    requires CoerceData(data).Success?
    requires EquityKey(CoerceData(data).value, equityPct).Success?
    ensures AgeTableFor(CoerceData(data).value, EquityKey(CoerceData(data).value, equityPct).value).Success?
  {
    var t := CoerceData(data).value;
    var key := EquityKey(t, equityPct).value;
    EquityKeyIsTableKey(t, equityPct);
    var i :| 0 <= i < |t| && Coerce(t[i].0) == Success(key);
    assert t[i].0 == IntKey(key);
  }

  /**
   * A table passed in directly with string equity keys finds its key (the keys
   * are coerced for the search) but then fails the lookup by int.
   */
  lemma DirectStringKeysRaise(t: Tables, params: PortfolioParams)
    requires t == [(StrKey("60"), [(65, 3.6)])]
    ensures CalculateWithdrawal(VpwStrategy(t), None, params) == Failure(KeyError("60"))
  {
    SixtyAsText();
    StringSixtyKeys(t);
    SelectedKey(t, [60], params.equityPct, 0);
    SelectedKeyMissing(t, params.equityPct, 65, 60);
  }

  lemma StringSixtyKeys(t: Tables)
    requires t == [(StrKey("60"), [(65, 3.6)])]
    ensures IntKeys(Keys(t)) == Success([60])
  {
    SixtyAsText();
    assert Keys(t) == [StrKey("60")] && Keys(t)[..0] == [];
    assert [] + [60] == [60];
  }

  /** A selected key that is not an int key of the table raises `KeyError` in the lookup. */
  lemma SelectedKeyMissing(t: Tables, equityPct: real, age: int, key: int)
    requires EquityKey(t, equityPct) == Success(key)
    requires forall i :: 0 <= i < |t| ==> t[i].0 != IntKey(key)
    ensures Percentage(t, equityPct, age) == Failure(KeyError(Decimal(key)))
  {
  }

  /** `int("60") == 60` and `str(60) == "60"`. */
  lemma SixtyAsText()
    ensures ParseInt("60") == Success(60) && Decimal(60) == "60"
  {
    assert DigitsValue("60") == Some(60) by {
      assert "60"[..1] == "6" && "6"[..0] == "";
    }
    ParseUnsigned("60", 60);
  }

  // ---------------------------------------------------------------------------
  // The default tables

  /** An age table for consecutive ages from `start`. */
  function AgesFrom(start: int, rates: seq<real>): (t: AgeTable)
    ensures |t| == |rates| && DistinctKeys(t)
    ensures forall i :: 0 <= i < |rates| ==> t[i] == (start + i, rates[i])
  {
    seq(|rates|, i requires 0 <= i < |rates| => (start + i, rates[i]))
  }

  const Rates20: seq<real> :=
    [3.0, 3.0, 3.1, 3.1, 3.2, 3.2] +
    [3.3, 3.3, 3.4, 3.4, 3.5, 3.6] +
    [3.6, 3.7, 3.8, 3.9, 4.0, 4.1] +
    [4.2, 4.3, 4.4, 4.5, 4.6, 4.8] +
    [4.9, 5.0, 5.2, 5.3, 5.5, 5.6] +
    [5.8, 6.0, 6.2, 6.4, 6.6, 6.8] +
    [7.1, 7.3, 7.6, 7.9, 8.2, 8.5] +
    [8.8, 9.2, 9.6, 10.0, 10.0, 10.0] +
    [10.0, 10.0, 10.0]

  const Rates40: seq<real> :=
    [2.7, 2.7, 2.8, 2.8, 2.9, 2.9] +
    [3.0, 3.0, 3.1, 3.1, 3.2, 3.2] +
    [3.3, 3.4, 3.4, 3.5, 3.6, 3.7] +
    [3.8, 3.9, 4.0, 4.1, 4.2, 4.3] +
    [4.4, 4.5, 4.7, 4.8, 4.9, 5.1] +
    [5.2, 5.4, 5.6, 5.8, 6.0, 6.2] +
    [6.4, 6.6, 6.9, 7.2, 7.5, 7.8] +
    [8.1, 8.5, 8.9, 9.3, 9.7, 10.0] +
    [10.0, 10.0, 10.0]

  const Rates60: seq<real> :=
    [2.5, 2.5, 2.6, 2.6, 2.6, 2.7] +
    [2.7, 2.8, 2.8, 2.9, 2.9, 3.0] +
    [3.0, 3.1, 3.1, 3.2, 3.3, 3.3] +
    [3.4, 3.5, 3.6, 3.7, 3.8, 3.9] +
    [4.0, 4.1, 4.2, 4.3, 4.4, 4.6] +
    [4.7, 4.9, 5.0, 5.2, 5.4, 5.6] +
    [5.8, 6.0, 6.3, 6.5, 6.8, 7.1] +
    [7.4, 7.8, 8.2, 8.6, 9.0, 9.5] +
    [10.0, 10.0, 10.0]

  const Rates80: seq<real> :=
    [2.3, 2.3, 2.4, 2.4, 2.4, 2.5] +
    [2.5, 2.5, 2.6, 2.6, 2.7, 2.7] +
    [2.8, 2.8, 2.9, 2.9, 3.0, 3.0] +
    [3.1, 3.2, 3.3, 3.3, 3.4, 3.5] +
    [3.6, 3.7, 3.8, 3.9, 4.0, 4.1] +
    [4.2, 4.4, 4.5, 4.7, 4.8, 5.0] +
    [5.2, 5.4, 5.6, 5.9, 6.1, 6.4] +
    [6.7, 7.1, 7.4, 7.8, 8.3, 8.8] +
    [9.3, 9.8, 10.0]

  const YoungestAge: int := 45

  /** `DEFAULT_VPW_TABLES`: allocations 20, 40, 60 and 80%, ages 45 to 95. */
  const DefaultTables: Tables := [
    (IntKey(20), AgesFrom(YoungestAge, Rates20)),
    (IntKey(40), AgesFrom(YoungestAge, Rates40)),
    (IntKey(60), AgesFrom(YoungestAge, Rates60)),
    (IntKey(80), AgesFrom(YoungestAge, Rates80))]

  /** `__init__`: a table read from a file (already parsed), else one given directly, else the defaults. */
  function NewVpw(loaded: Option<RawData>, customTable: Option<Tables>): (r: Result<VpwStrategy, Error>)
    ensures loaded.Some? ==> (r.Success? <==> CoerceData(loaded.value).Success?)
    ensures loaded.Some? && r.Success? ==> AllIntKeys(r.value.tables)
    ensures loaded.None? && customTable.Some? ==> r == Success(VpwStrategy(customTable.value))
    ensures loaded.None? && customTable.None? ==> r == Success(VpwStrategy(DefaultTables))
  {
    if loaded.Some? then
      match CoerceData(loaded.value)
      case Failure(e) => Failure(e)
      case Success(t) => Success(VpwStrategy(t))
    else if customTable.Some? then Success(VpwStrategy(customTable.value))
    else Success(VpwStrategy(DefaultTables))
  }

  lemma DefaultIntKeys()
    ensures IntKeys(Keys(DefaultTables)) == Success([20, 40, 60, 80])
  {
    var ks := Keys(DefaultTables);
    assert ks == [IntKey(20), IntKey(40), IntKey(60), IntKey(80)];
    assert ks[..1][..0] == [] && ks[..2][..1] == ks[..1] && ks[..3][..2] == ks[..2] && ks[..3] == ks[..4][..3];
    assert [] + [20] == [20] && [20] + [40] == [20, 40] && [20, 40] + [60] == [20, 40, 60];
    assert [20, 40, 60] + [80] == [20, 40, 60, 80];
    assert IntKeys(ks[..1]) == Success([20]);
    assert IntKeys(ks[..2]) == Success([20, 40]);
    assert IntKeys(ks[..3]) == Success([20, 40, 60]);
    assert ks[..4] == ks;
  }

  /** With the default tables, 55% equity selects the 60% table, the nearest. */
  lemma GoldenEquityKeyNearest()
    ensures EquityKey(DefaultTables, 0.55) == Success(60)
  {
    DefaultIntKeys();
    assert Truncate(0.55 * 100.0) == 55;
    SelectedKey(DefaultTables, [20, 40, 60, 80], 0.55, 2);
  }

  /** With the default tables, 30% equity is as near 20% as 40%, and the first, 20%, wins. */
  lemma GoldenEquityKeyTie()
    ensures EquityKey(DefaultTables, 0.30) == Success(20)
  {
    DefaultIntKeys();
    assert Truncate(0.30 * 100.0) == 30;
    SelectedKey(DefaultTables, [20, 40, 60, 80], 0.30, 0);
  }

  /** With the default tables, 60% equity selects its own table. */
  lemma GoldenEquityKeyExact()
    ensures EquityKey(DefaultTables, 0.6) == Success(60)
  {
    DefaultIntKeys();
    assert Truncate(0.6 * 100.0) == 60;
    SelectedKey(DefaultTables, [20, 40, 60, 80], 0.6, 2);
  }

  lemma DefaultTableAt(i: int)
    requires 0 <= i < 4
    ensures AgeTableFor(DefaultTables, 20 * (i + 1)) == Success(DefaultTables[i].1)
  {
    assert DistinctKeys(DefaultTables);
    GetAt(DefaultTables, i);
  }

  /**
   * The 60% default table gives 3.6% at 65, 2.5% at 40 (below the youngest age)
   * and 10% at 100 (above the oldest).
   */
  lemma GoldenDefaultPercentages()
    ensures WithdrawalPercentage(DefaultTables[2].1, 65) == Success(0.036)
    ensures WithdrawalPercentage(DefaultTables[2].1, 40) == Success(0.025)
    ensures WithdrawalPercentage(DefaultTables[2].1, 100) == Success(0.10)
  {
    var t := DefaultTables[2].1;
    assert t == AgesFrom(YoungestAge, Rates60);
    assert |Rates60| == 51;
    assert Rates60[0] == 2.5;
    assert Rates60[20] == 3.6;
    assert Rates60[50] == 10.0;
    assert t[0] == (45, 2.5) && t[20] == (65, 3.6) && t[50] == (95, 10.0);
    ExactAge(t, 20);
    BelowYoungestAge(t, 0, 40);
    AboveOldestAge(t, 50, 100);
  }

  /** $1,000,000 at 60% equity: $36,000 at age 65, and the same without a state. */
  lemma GoldenDefaultWithdrawal(s: YearState, params: PortfolioParams)
    requires params.initBalance == 1000000.0 && params.equityPct == 0.6
    requires s.age == 65 && s.balance == 1000000.0
    ensures CalculateWithdrawal(VpwStrategy(DefaultTables), Some(s), params) == Success(36000.0)
    ensures CalculateWithdrawal(VpwStrategy(DefaultTables), None, params) == Success(36000.0)
  {
    GoldenEquityKeyExact();
    DefaultTableAt(2);
    GoldenDefaultPercentages();
  }

  /** With {60: 3.0, 70: 5.0}, ages 62, 65 and 68 give 3.4%, 4.0% and 4.6%. */
  lemma GoldenInterpolation()
    ensures WithdrawalPercentage([(60, 3.0), (70, 5.0)], 62) == Success(0.034)
    ensures WithdrawalPercentage([(60, 3.0), (70, 5.0)], 65) == Success(0.04)
    ensures WithdrawalPercentage([(60, 3.0), (70, 5.0)], 68) == Success(0.046)
  {
    var t: AgeTable := [(60, 3.0), (70, 5.0)];
    BetweenNeighbours(t, 0, 1, 62);
    BetweenNeighbours(t, 0, 1, 65);
    BetweenNeighbours(t, 0, 1, 68);
  }

  /** A table with string keys is read with int keys and float rates kept. */
  lemma GoldenLoad()
    ensures CoerceData([(StrKey("60"), [(StrKey("65"), 4.0), (IntKey(70), 5.0)])])
            == Success([(IntKey(60), [(65, 4.0), (70, 5.0)])])
  {
    var raw: seq<(RawKey, real)> := [(StrKey("65"), 4.0), (IntKey(70), 5.0)];
    assert "65"[..1] == "6" && "6"[..0] == "";
    assert DigitsValue("6") == Some(6);
    assert ParseInt("65") == Success(65);
    assert raw[..1][..0] == [];
    assert CoerceAgeTable(raw[..1]) == Success([(65, 4.0)]);
    PutAppends([(65, 4.0)], 70, 5.0);
    assert [(65, 4.0)] + [(70, 5.0)] == [(65, 4.0), (70, 5.0)];
    assert raw[..|raw| - 1] == raw[..1] && raw[|raw| - 1] == (IntKey(70), 5.0);
    assert CoerceAgeTable(raw) == Success([(65, 4.0), (70, 5.0)]);
    assert "60"[..1] == "6";
    assert ParseInt("60") == Success(60);
  }
}
