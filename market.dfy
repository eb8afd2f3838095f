/**
 * The market-return generator (src/capstone_finance/core/market.py): log-normal
 * returns from standard-normal draws, and bootstrap returns assembled from
 * five-year windows of a historical series plus single remainder years.
 * The random draws and the synthetic history are inputs.
 */
module Market {
  import opened Wrappers
  import opened Models

  /** Mean and volatility of the annual real return in log-normal mode. */
  const Mu: real := 0.07
  const Sigma: real := 0.15

  /** Bootstrap windows span five consecutive years. */
  const BlockYears: nat := 5

  /** The synthetic historical series always has one hundred years. */
  const HistoryYears: nat := 100

  /** A paths-by-years table of annual returns. */
  type Matrix = seq<seq<real>>

  predicate IsShape(m: Matrix, rows: nat, cols: nat) {
    |m| == rows && forall p :: 0 <= p < rows ==> |m[p]| == cols
  }

  predicate IsIndexShape(m: seq<seq<nat>>, rows: nat, cols: nat, bound: nat) {
    && |m| == rows
    && (forall p :: 0 <= p < rows ==> |m[p]| == cols)
    && (forall p, i :: 0 <= p < rows && 0 <= i < |m[p]| ==> m[p][i] < bound)
  }

  /** `_generate_lognormal`: each return is `Mu + Sigma * z` for the matching draw, in the draws' shape. */
  function Lognormal(z: Matrix): (r: Matrix)
    ensures |r| == |z| && forall p :: 0 <= p < |z| ==> |r[p]| == |z[p]|
    ensures forall p, y :: 0 <= p < |z| && 0 <= y < |z[p]| ==> r[p][y] == Mu + Sigma * z[p][y]
  {
    seq(|z|, p requires 0 <= p < |z| => seq(|z[p]|, y requires 0 <= y < |z[p]| => Mu + Sigma * z[p][y]))
  }

  /** The draws can be read back from the returns: the log-normal map loses nothing. */
  lemma LognormalRecoversDraws(z: Matrix, p: nat, y: nat)
    requires p < |z| && y < |z[p]|
    ensures (Lognormal(z)[p][y] - Mu) / Sigma == z[p][y]
  {
    var r := Lognormal(z)[p][y];
    assert r - Mu == Sigma * z[p][y];
  }

  /** A larger draw never gives a smaller return. */
  lemma LognormalMonotone(z1: Matrix, z2: Matrix, p: nat, y: nat)
    requires p < |z1| && p < |z2| && y < |z1[p]| && y < |z2[p]|
    requires z1[p][y] <= z2[p][y]
    ensures Lognormal(z1)[p][y] <= Lognormal(z2)[p][y]
  {
  }

  /**
   * `_prepare_bootstrap_data`: every five-year window of the history, in order;
   * a history shorter than five years gives none.
   */
  function PrepareBootstrapData(h: seq<real>): (blocks: Matrix)
    ensures |blocks| == if |h| >= BlockYears then |h| - 4 else 0
    ensures forall k :: 0 <= k < |blocks| ==> blocks[k] == h[k..k + BlockYears]
  {
    var n := if |h| >= BlockYears then |h| - 4 else 0;
    seq(n, k requires 0 <= k < n => h[k..k + BlockYears])
  }

  /** Consecutive windows overlap in four years, and every window holds five history values. */
  lemma WindowsSlide(h: seq<real>, k: nat)
    requires k + 1 < |PrepareBootstrapData(h)|
    ensures PrepareBootstrapData(h)[k][1..] == PrepareBootstrapData(h)[k + 1][..4]
    ensures |PrepareBootstrapData(h)[k]| == BlockYears
  {
  }

  lemma WindowValuesFromHistory(h: seq<real>, k: nat, j: nat)
    requires k < |PrepareBootstrapData(h)| && j < BlockYears
    ensures PrepareBootstrapData(h)[k][j] == h[k + j]
    ensures PrepareBootstrapData(h)[k][j] in h
  {
  }

  /** The year `y` of path `p` in bootstrap mode: a window year for full blocks, a single year after. */
  function BootstrapEntry(h: seq<real>, blockIdx: seq<seq<nat>>, remIdx: seq<seq<nat>>,
                          nYears: nat, p: nat, y: nat): (r: real)
    requires |h| >= BlockYears && y < nYears
    requires IsIndexShape(blockIdx, |blockIdx|, nYears / BlockYears, |h| - 4) && p < |blockIdx|
    requires IsIndexShape(remIdx, |remIdx|, nYears % BlockYears, |h|) && p < |remIdx|
    ensures r in h
  {
    var full := BlockYears * (nYears / BlockYears);
    if y < full then
      WindowValuesFromHistory(h, blockIdx[p][y / BlockYears], y % BlockYears);
      PrepareBootstrapData(h)[blockIdx[p][y / BlockYears]][y % BlockYears]
    else
      h[remIdx[p][y - full]]
  }

  /** The bootstrap returns, path by path and year by year. */
  function BootstrapMatrix(h: seq<real>, blockIdx: seq<seq<nat>>, remIdx: seq<seq<nat>>,
                           nPaths: nat, nYears: nat): (r: Matrix)
    requires |h| >= BlockYears
    requires IsIndexShape(blockIdx, nPaths, nYears / BlockYears, |h| - 4)
    requires IsIndexShape(remIdx, nPaths, nYears % BlockYears, |h|)
    ensures IsShape(r, nPaths, nYears)
  {
    seq(nPaths, p requires 0 <= p < nPaths =>
      seq(nYears, y requires 0 <= y < nYears => BootstrapEntry(h, blockIdx, remIdx, nYears, p, y)))
  }

  /**
   * For path `p` and block `i`, columns `5i .. 5i+4` are the five consecutive
   * history years of the window the block index picks.
   */
  lemma BlockColumnsAreWindow(h: seq<real>, blockIdx: seq<seq<nat>>, remIdx: seq<seq<nat>>,
                              nPaths: nat, nYears: nat, p: nat, i: nat)
    requires |h| >= BlockYears
    requires IsIndexShape(blockIdx, nPaths, nYears / BlockYears, |h| - 4)
    requires IsIndexShape(remIdx, nPaths, nYears % BlockYears, |h|)
    requires p < nPaths && i < nYears / BlockYears
    ensures BlockYears * i + BlockYears <= nYears
    ensures BootstrapMatrix(h, blockIdx, remIdx, nPaths, nYears)[p][BlockYears * i .. BlockYears * i + BlockYears]
            == h[blockIdx[p][i] .. blockIdx[p][i] + BlockYears]
  {
    var m := BootstrapMatrix(h, blockIdx, remIdx, nPaths, nYears);
    var k := blockIdx[p][i];
    var lo := BlockYears * i;
    assert lo + BlockYears <= BlockYears * (nYears / BlockYears);
    forall y | lo <= y < lo + BlockYears
      ensures m[p][y] == h[k + (y - lo)]
    {
      assert y / BlockYears == i && y % BlockYears == y - lo;
    }
  }

  /** The last `nYears % 5` columns are single history years picked by the remainder indices. */
  lemma RemainderColumnsAreSingleYears(h: seq<real>, blockIdx: seq<seq<nat>>, remIdx: seq<seq<nat>>,
                                       nPaths: nat, nYears: nat, p: nat)
    requires |h| >= BlockYears
    requires IsIndexShape(blockIdx, nPaths, nYears / BlockYears, |h| - 4)
    requires IsIndexShape(remIdx, nPaths, nYears % BlockYears, |h|)
    requires p < nPaths
    ensures BlockYears * (nYears / BlockYears) + nYears % BlockYears == nYears
    ensures BootstrapMatrix(h, blockIdx, remIdx, nPaths, nYears)[p][BlockYears * (nYears / BlockYears)..]
            == seq(nYears % BlockYears, j requires 0 <= j < nYears % BlockYears => h[remIdx[p][j]])
  {
  }

  /** Every bootstrap return is a value of the historical series. */
  lemma BootstrapValuesFromHistory(h: seq<real>, blockIdx: seq<seq<nat>>, remIdx: seq<seq<nat>>,
                                   nPaths: nat, nYears: nat, p: nat, y: nat)
    requires |h| >= BlockYears
    requires IsIndexShape(blockIdx, nPaths, nYears / BlockYears, |h| - 4)
    requires IsIndexShape(remIdx, nPaths, nYears % BlockYears, |h|)
    requires p < nPaths && y < nYears
    ensures BootstrapMatrix(h, blockIdx, remIdx, nPaths, nYears)[p][y] in h
  {
    var full := BlockYears * (nYears / BlockYears);
    if y < full {
      var i := y / BlockYears;
      WindowValuesFromHistory(h, blockIdx[p][i], y % BlockYears);
    }
  }

  /**
   * `_generate_bootstrap`: fills a zeroed paths-by-years table block by block
   * (all paths at once for each block), then the remainder columns, and returns
   * the filled table.
   */
  method GenerateBootstrap(h: seq<real>, blocks: Matrix, blockIdx: seq<seq<nat>>, remIdx: seq<seq<nat>>,
                           nPaths: nat, nYears: nat) returns (r: Matrix)
    requires |h| >= BlockYears && blocks == PrepareBootstrapData(h)
    requires IsIndexShape(blockIdx, nPaths, nYears / BlockYears, |h| - 4)
    requires IsIndexShape(remIdx, nPaths, nYears % BlockYears, |h|)
    ensures r == BootstrapMatrix(h, blockIdx, remIdx, nPaths, nYears)
  {
    var blocksPerPath := nYears / BlockYears;
    var remainderYears := nYears % BlockYears;
    var full := BlockYears * blocksPerPath;
    var table := new real[nPaths, nYears]((p, y) => 0.0);
    for i := 0 to blocksPerPath
      invariant forall p, y :: 0 <= p < nPaths && 0 <= y < BlockYears * i ==>
                  table[p, y] == BootstrapEntry(h, blockIdx, remIdx, nYears, p, y)
    {
      FillBlock(table, h, blocks, blockIdx, remIdx, nPaths, nYears, i);
    }
    if remainderYears > 0 {
      FillRemainder(table, h, blockIdx, remIdx, nPaths, nYears);
    }
    r := ToRows(table);
    assert forall p :: 0 <= p < nPaths ==> r[p] == BootstrapMatrix(h, blockIdx, remIdx, nPaths, nYears)[p];
  }

  /** Block `i`: columns `5i .. 5i+4` of every path take the window its block index picks. */
  method FillBlock(table: array2<real>, h: seq<real>, blocks: Matrix, blockIdx: seq<seq<nat>>,
                   remIdx: seq<seq<nat>>, nPaths: nat, nYears: nat, i: nat)
    requires |h| >= BlockYears && blocks == PrepareBootstrapData(h)
    requires IsIndexShape(blockIdx, nPaths, nYears / BlockYears, |h| - 4)
    requires IsIndexShape(remIdx, nPaths, nYears % BlockYears, |h|)
    requires table.Length0 == nPaths && table.Length1 == nYears
    requires i < nYears / BlockYears
    modifies table
    ensures forall p, y :: 0 <= p < nPaths && 0 <= y < nYears ==>
              table[p, y] == if BlockYears * i <= y < BlockYears * i + BlockYears
                               then BootstrapEntry(h, blockIdx, remIdx, nYears, p, y)
                               else old(table[p, y])
  {
    var start := BlockYears * i;
    assert start + BlockYears <= BlockYears * (nYears / BlockYears);
    for p := 0 to nPaths
      invariant forall q, y :: 0 <= q < nPaths && 0 <= y < nYears ==>
                  table[q, y] == if q < p && start <= y < start + BlockYears
                                   then BootstrapEntry(h, blockIdx, remIdx, nYears, q, y)
                                   else old(table[q, y])
    {
      var window := blocks[blockIdx[p][i]];
      for j := 0 to BlockYears
        invariant forall q, y :: 0 <= q < nPaths && 0 <= y < nYears ==>
                    table[q, y] == if (q < p && start <= y < start + BlockYears) || (q == p && start <= y < start + j)
                                     then BootstrapEntry(h, blockIdx, remIdx, nYears, q, y)
                                     else old(table[q, y])
      {
        assert (start + j) / BlockYears == i && (start + j) % BlockYears == j;
        table[p, start + j] := window[j];
      }
    }
  }

  /** The last `nYears % 5` columns of every path take single history years. */
  method FillRemainder(table: array2<real>, h: seq<real>, blockIdx: seq<seq<nat>>,
                       remIdx: seq<seq<nat>>, nPaths: nat, nYears: nat)
    requires |h| >= BlockYears
    requires IsIndexShape(blockIdx, nPaths, nYears / BlockYears, |h| - 4)
    requires IsIndexShape(remIdx, nPaths, nYears % BlockYears, |h|)
    requires table.Length0 == nPaths && table.Length1 == nYears
    modifies table
    ensures forall p, y :: 0 <= p < nPaths && 0 <= y < nYears ==>
              table[p, y] == if BlockYears * (nYears / BlockYears) <= y
                               then BootstrapEntry(h, blockIdx, remIdx, nYears, p, y)
                               else old(table[p, y])
  {
    var rem := nYears % BlockYears;
    var start := nYears - rem;
    assert start == BlockYears * (nYears / BlockYears);
    for p := 0 to nPaths
      invariant forall q, y :: 0 <= q < nPaths && 0 <= y < nYears ==>
                  table[q, y] == if q < p && start <= y
                                   then BootstrapEntry(h, blockIdx, remIdx, nYears, q, y)
                                   else old(table[q, y])
    {
      for j := 0 to rem
        invariant forall q, y :: 0 <= q < nPaths && 0 <= y < nYears ==>
                    table[q, y] == if (q < p && start <= y) || (q == p && start <= y < start + j)
                                     then BootstrapEntry(h, blockIdx, remIdx, nYears, q, y)
                                     else old(table[q, y])
      {
        table[p, start + j] := h[remIdx[p][j]];
      }
    }
  }

  /** The rows of a two-dimensional array, as a table. */
  method ToRows(a: array2<real>) returns (m: Matrix)
    ensures IsShape(m, a.Length0, a.Length1)
    ensures forall p, y :: 0 <= p < a.Length0 && 0 <= y < a.Length1 ==> m[p][y] == a[p, y]
  {
    m := [];
    for p := 0 to a.Length0
      invariant IsShape(m, p, a.Length1)
      invariant forall q, y :: 0 <= q < p && 0 <= y < a.Length1 ==> m[q][y] == a[q, y]
    {
      var row := seq(a.Length1, y requires 0 <= y < a.Length1 reads a => a[p, y]);
      m := m + [row];
    }
  }

  /**
   * A simulator: the mode it was built with, the history, and the windows, which
   * exist only when the mode is exactly "bootstrap".
   */
  datatype MarketSimulator = MarketSimulator(
    params: PortfolioParams,
    mode: string,
    history: seq<real>,
    blocks: Option<Matrix>)

  /** The constructor prepares the windows only in bootstrap mode. */
  function NewMarketSimulator(params: PortfolioParams, mode: string, history: seq<real>): (sim: MarketSimulator)
    requires |history| == HistoryYears
    ensures sim.blocks.Some? <==> mode == "bootstrap"
    ensures sim.blocks.Some? ==> |sim.blocks.value| == HistoryYears - 4
    ensures sim.params == params && sim.mode == mode && sim.history == history
  {
    MarketSimulator(params, mode, history,
      if mode == "bootstrap" then Some(PrepareBootstrapData(history)) else None)
  }

  /** The draws the generator's random stream supplies for one call. */
  datatype Draws = Draws(normals: Matrix, blockIdx: seq<seq<nat>>, remIdx: seq<seq<nat>>)

  /** The draws have the shapes and ranges the random stream guarantees for this call. */
  predicate DrawsFit(sim: MarketSimulator, d: Draws, nPaths: nat, nYears: nat)
    requires |sim.history| >= BlockYears
  {
    if sim.mode == "lognormal" then IsShape(d.normals, nPaths, nYears)
    else
      && IsIndexShape(d.blockIdx, nPaths, nYears / BlockYears, |sim.history| - 4)
      && IsIndexShape(d.remIdx, nPaths, nYears % BlockYears, |sim.history|)
  }

  /**
   * `generate`: "lognormal" goes to the log-normal branch; every other mode goes
   * to bootstrap, which fails unless the windows were prepared.
   */
  function GenerateSpec(sim: MarketSimulator, d: Draws, nPaths: nat, nYears: nat): (r: Result<Matrix, Error>)
    requires |sim.history| >= BlockYears && DrawsFit(sim, d, nPaths, nYears)
    requires sim.blocks.Some? ==> sim.blocks.value == PrepareBootstrapData(sim.history)
    ensures r.Failure? <==> sim.mode != "lognormal" && sim.blocks.None?
    ensures r.Success? ==> IsShape(r.value, nPaths, nYears)
  {
    if sim.mode == "lognormal" then Success(Lognormal(d.normals))
    else if sim.blocks.None? then Failure(AttributeError("_block_returns"))
    else Success(BootstrapMatrix(sim.history, d.blockIdx, d.remIdx, nPaths, nYears))
  }

  method Generate(sim: MarketSimulator, d: Draws, nPaths: nat, nYears: nat) returns (r: Result<Matrix, Error>)
    requires |sim.history| >= BlockYears && DrawsFit(sim, d, nPaths, nYears)
    requires sim.blocks.Some? ==> sim.blocks.value == PrepareBootstrapData(sim.history)
    ensures r == GenerateSpec(sim, d, nPaths, nYears)
  {
    if sim.mode == "lognormal" {
      return Success(Lognormal(d.normals));
    }
    if sim.blocks.None? {
      return Failure(AttributeError("_block_returns"));
    }
    var m := GenerateBootstrap(sim.history, sim.blocks.value, d.blockIdx, d.remIdx, nPaths, nYears);
    return Success(m);
  }

  /**
   * A simulator built in any mode other than "lognormal" or "bootstrap" fails to
   * generate; one built in bootstrap mode yields only history values.
   */
  lemma GenerateByMode(params: PortfolioParams, mode: string, history: seq<real>, d: Draws,
                       nPaths: nat, nYears: nat, p: nat, y: nat)
    requires |history| == HistoryYears
    requires DrawsFit(NewMarketSimulator(params, mode, history), d, nPaths, nYears)
    ensures mode != "lognormal" && mode != "bootstrap" ==>
              GenerateSpec(NewMarketSimulator(params, mode, history), d, nPaths, nYears)
              == Failure(AttributeError("_block_returns"))
    ensures mode == "lognormal" ==>
              GenerateSpec(NewMarketSimulator(params, mode, history), d, nPaths, nYears) == Success(Lognormal(d.normals))
    ensures mode == "bootstrap" && p < nPaths && y < nYears ==>
              GenerateSpec(NewMarketSimulator(params, mode, history), d, nPaths, nYears).value[p][y] in history
  {
    if mode == "bootstrap" && p < nPaths && y < nYears {
      BootstrapValuesFromHistory(history, d.blockIdx, d.remIdx, nPaths, nYears, p, y);
    }
  }
}
