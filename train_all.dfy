/** The labelling step of the training pipeline in `src/train_all.py`:
    inclusive thresholds on the return `horizon` bars ahead, per coin, then
    all coins concatenated. */
module TrainAll {
  import opened Wrappers
  import opened Bars

  const DefaultHorizon: nat := 3
  const DefaultBuyThreshold: real := 0.003
  const DefaultSellThreshold: real := -0.003

  /** The coins, in the order their frames are concatenated. */
  const Coins: seq<string> := ["BTC-USD", "ETH-USD", "BNB-USD", "SOL-USD", "XRP-USD",
                               "ADA-USD", "AVAX-USD", "DOGE-USD", "DOT-USD", "TRX-USD"]

  /** The `label` column's values in this file. */
  datatype Label = Sell | Hold | Buy

  /** This file's encoding: 0 = SELL, 1 = HOLD, 2 = BUY. */
  function Code(l: Label): (c: int)
    ensures 0 <= c <= 2
  {
    match l
    case Sell => 0
    case Hold => 1
    case Buy => 2
  }

  lemma CodeInjective(l: Label, m: Label)
    ensures Code(l) == Code(m) <==> l == m
  {
  }

  /** Default HOLD, then the SELL mask, then the BUY mask: both thresholds
      are inclusive and BUY, written last, wins where both match. */
  function LabelFor(futureReturn: real, buyTh: real, sellTh: real): (l: Label)
    ensures l == Buy <==> futureReturn >= buyTh
    ensures l == Sell <==> futureReturn <= sellTh && futureReturn < buyTh
    ensures l == Hold <==> sellTh < futureReturn < buyTh
  {
    var initial := Hold;
    var afterSell := if futureReturn <= sellTh then Sell else initial;
    if futureReturn >= buyTh then Buy else afterSell
  }

  /** With the default thresholds a return of exactly +0.3 % is BUY, of
      exactly -0.3 % is SELL. */
  lemma DefaultBoundariesInclusive()
    ensures LabelFor(DefaultBuyThreshold, DefaultBuyThreshold, DefaultSellThreshold) == Buy
    ensures LabelFor(DefaultSellThreshold, DefaultBuyThreshold, DefaultSellThreshold) == Sell
  {
  }

  datatype LabeledBar = LabeledBar(bar: Bar, futureReturn: real, category: Label)

  function Candidate(rows: seq<Bar>, i: nat, horizon: nat, buyTh: real, sellTh: real): Option<LabeledBar>
    requires i < |rows| && rows[i].close > 0.0
  {
    if i + horizon < |rows| then
      var futureReturn := rows[i + horizon].close / rows[i].close - 1.0;
      Some(LabeledBar(rows[i], futureReturn, LabelFor(futureReturn, buyTh, sellTh)))
    else None
  }

  /** Surviving row `i`: bar `i` unchanged, the ratio of the close
      `horizon` bars later to its close, minus one, and its label. */
  predicate LabeledRow(rows: seq<Bar>, horizon: nat, buyTh: real, sellTh: real, i: int, lb: LabeledBar)
  {
    && 0 <= i
    && i + horizon < |rows|
    && rows[i].close > 0.0
    && lb.bar == rows[i]
    && lb.futureReturn == rows[i + horizon].close / rows[i].close - 1.0
    && lb.category == LabelFor(lb.futureReturn, buyTh, sellTh)
  }

  /** One coin's frame: the last `horizon` rows have no future return and
      are dropped, the others keep their order. */
  function LabelCoin(rows: seq<Bar>, horizon: nat, buyTh: real, sellTh: real): (r: seq<LabeledBar>)
    requires PositiveCloses(rows)
    ensures |r| == Kept(|rows|, horizon)
    ensures forall i :: 0 <= i < |r| ==> LabeledRow(rows, horizon, buyTh, sellTh, i, r[i])
  {
    var columns := seq(|rows|, i requires 0 <= i < |rows| => Candidate(rows, i, horizon, buyTh, sellTh));
    PresentPrefix(columns, Kept(|rows|, horizon));
    Present(columns)
  }

  /** How many of `n` rows have a bar `horizon` steps ahead. */
  function Kept(n: nat, horizon: nat): nat
  {
    if horizon <= n then n - horizon else 0
  }

  /** Every coin in `Coins` has a feature file, with positive closes. */
  ghost predicate AllCoinsPresent(files: map<string, seq<Bar>>)
  {
    forall c :: c in Coins ==> c in files && PositiveCloses(files[c])
  }

  /** The frames of the first `k` coins, labelled and concatenated. */
  function Merged(files: map<string, seq<Bar>>, k: nat, horizon: nat, buyTh: real, sellTh: real): (r: seq<LabeledBar>)
    requires AllCoinsPresent(files) && k <= |Coins|
    ensures |r| == KeptRows(files, k, horizon)
  {
    if k == 0 then []
    else Merged(files, k - 1, horizon, buyTh, sellTh) + LabelCoin(files[Coins[k - 1]], horizon, buyTh, sellTh)
  }

  /** Rows the first `k` coins contribute. */
  function KeptRows(files: map<string, seq<Bar>>, k: nat, horizon: nat): nat
    requires AllCoinsPresent(files) && k <= |Coins|
  {
    if k == 0 then 0 else KeptRows(files, k - 1, horizon) + Kept(|files[Coins[k - 1]]|, horizon)
  }

  /** The merged frame has exactly the rows each coin keeps, and coin `k`'s
      rows sit right after those of the coins before it. */
  lemma {:induction false} MergedLayout(files: map<string, seq<Bar>>, k: nat, horizon: nat, buyTh: real, sellTh: real)
    requires AllCoinsPresent(files) && k <= |Coins|
    ensures k > 0 ==>
      Merged(files, k, horizon, buyTh, sellTh)[KeptRows(files, k - 1, horizon)..]
        == LabelCoin(files[Coins[k - 1]], horizon, buyTh, sellTh)
  {
    if k > 0 {
      MergedLayout(files, k - 1, horizon, buyTh, sellTh);
    }
  }

  /** `label_all`: labels each coin's frame in `Coins` order and
      concatenates them; `files` maps a coin to the rows of its feature file. */
  method LabelAll(files: map<string, seq<Bar>>, horizon: nat := DefaultHorizon,
                  buyTh: real := DefaultBuyThreshold, sellTh: real := DefaultSellThreshold) returns (merged: seq<LabeledBar>)
    requires AllCoinsPresent(files)
    ensures merged == Merged(files, |Coins|, horizon, buyTh, sellTh)
    ensures |merged| == KeptRows(files, |Coins|, horizon)
  {
    var allDf: seq<seq<LabeledBar>> := [];
    for k := 0 to |Coins|
      invariant |allDf| == k
      invariant Concat(allDf) == Merged(files, k, horizon, buyTh, sellTh)
    {
      var coin := Coins[k];
      var df := LabelCoin(files[coin], horizon, buyTh, sellTh);
      ConcatAppend(allDf, df);
      allDf := allDf + [df];
    }
    merged := Concat(allDf);
    MergedLayout(files, |Coins|, horizon, buyTh, sellTh);
  }

  /** `pd.concat` of a list of frames. */
  function Concat<T>(parts: seq<seq<T>>): (r: seq<T>)
    ensures forall i :: 0 <= i < |parts| ==> |parts[i]| <= |r|
    ensures r == [] <==> forall i :: 0 <= i < |parts| ==> parts[i] == []
  {
    if parts == [] then [] else Concat(parts[..|parts| - 1]) + parts[|parts| - 1]
  }

  lemma ConcatAppend<T>(parts: seq<seq<T>>, part: seq<T>)
    ensures Concat(parts + [part]) == Concat(parts) + part
  {
    assert (parts + [part])[..|parts|] == parts;
  }
}
