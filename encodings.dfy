/** How the label codes written by one file read in another. Each file
    keeps its own encoding; these lemmas state where they disagree. */
module Encodings {
  import opened Wrappers
  import Labeler
  import TrainAll
  import Backtester
  import Predict
  import Bars

  /** Read with the backtester's codes, the labeler's HOLD (0) opens a
      short, its SELL (1) is skipped and only its BUY (2) agrees. */
  lemma LabelerCodesInBacktester()
    ensures Backtester.Decode(Labeler.Code(Labeler.Hold)) == Some(Backtester.Short)
    ensures Backtester.Decode(Labeler.Code(Labeler.Sell)) == None
    ensures Backtester.Decode(Labeler.Code(Labeler.Buy)) == Some(Backtester.Long)
  {
  }

  /** The training pipeline's codes and the backtester's agree. */
  lemma TrainAllCodesInBacktester(l: TrainAll.Label)
    ensures Backtester.Decode(TrainAll.Code(l)).Some? <==> l != TrainAll.Hold
    ensures Backtester.Decode(TrainAll.Code(l)) == Some(Backtester.Long) <==> l == TrainAll.Buy
    ensures Backtester.Decode(TrainAll.Code(l)) == Some(Backtester.Short) <==> l == TrainAll.Sell
  {
  }

  /** The class table of the live predictor names the labeler's classes
      (the ones its model is trained on) all wrongly: HOLD shows as SELL,
      SELL as BUY and BUY as HOLD. */
  lemma LabelerClassesInPredictor(l: Labeler.Label)
    ensures Predict.ClassToSignal(Labeler.Code(l)) == Some(
      match l
      case Hold => "SELL"
      case Sell => "BUY"
      case Buy => "HOLD")
    ensures Predict.ClassToSignal(Labeler.Code(l)) != Some(LabelerName(l))
  {
  }

  function LabelerName(l: Labeler.Label): string
  {
    match l
    case Hold => "HOLD"
    case Sell => "SELL"
    case Buy => "BUY"
  }

  /** Against the training pipeline's codes the table gets SELL right and
      swaps HOLD and BUY. */
  lemma TrainAllClassesInPredictor()
    ensures Predict.ClassToSignal(TrainAll.Code(TrainAll.Sell)) == Some("SELL")
    ensures Predict.ClassToSignal(TrainAll.Code(TrainAll.Hold)) == Some("BUY")
    ensures Predict.ClassToSignal(TrainAll.Code(TrainAll.Buy)) == Some("HOLD")
  {
  }

  /** The two labellers compute the same return by different formulas. */
  lemma SameFutureReturn(close: real, future: real)
    requires close > 0.0
    ensures (future - close) / close == future / close - 1.0
  {
    assert close / close == 1.0;
    assert (future - close) / close == future / close - close / close;
  }

  /** At the same horizon the two labellers keep the same rows, over the
      same bars, with the same future return: they differ only in the
      label they derive from it. */
  lemma SameReturnAtSameHorizon(rows: seq<Bars.Bar>, h: nat, t: real, buyTh: real, sellTh: real, i: nat)
    requires Bars.PositiveCloses(rows) && i + h < |rows|
    ensures var l, m := Labeler.ApplyLabels(rows, h, t), TrainAll.LabelCoin(rows, h, buyTh, sellTh);
      && |l| == |m|
      && l[i].bar == m[i].bar == rows[i]
      && l[i].futureReturn == m[i].futureReturn
  {
    var l, m := Labeler.ApplyLabels(rows, h, t), TrainAll.LabelCoin(rows, h, buyTh, sellTh);
    assert Labeler.LabeledRow(rows, h, t, i, l[i]);
    assert TrainAll.LabeledRow(rows, h, buyTh, sellTh, i, m[i]);
    SameFutureReturn(rows[i].close, rows[i + h].close);
  }

  /** With the defaults, a return of +0.25 % is BUY for the labeler and
      HOLD in training; +0.3 % is BUY in training. */
  lemma ThresholdsDisagree()
    ensures Labeler.LabelFor(0.0025, Labeler.DefaultThreshold) == Labeler.Buy
    ensures TrainAll.LabelFor(0.0025, TrainAll.DefaultBuyThreshold, TrainAll.DefaultSellThreshold) == TrainAll.Hold
    ensures TrainAll.LabelFor(0.003, TrainAll.DefaultBuyThreshold, TrainAll.DefaultSellThreshold) == TrainAll.Buy
  {
  }
}
