/** The per-coin backtest of `src/backtester.py`: ATR-based stop-loss and
    take-profit levels, a one-bar trade per BUY/SELL row, a balance moved by
    fixed multipliers, and the summary metrics. Prices are exact reals. */
module Backtester {
  import opened Wrappers

  const InitialBalance: real := 1000.0
  /** Balance multiplier when the stop-loss is hit (-1.5 %). */
  const LossFactor: real := 0.985
  /** Balance multiplier when the take-profit is hit (+2 %). */
  const WinFactor: real := 1.02

  /** The columns the backtest reads from a labelled file, after `dropna`.
      The `label` column (here `signal`) uses this file's own encoding: 0 = sell, 1 = hold, 2 = buy. */
  datatype Row = Row(close: real, low: real, high: real, atr: real, signal: int)

  datatype Direction = Long | Short

  /** Which trade, if any, a label opens in this file's encoding. */
  function Decode(signal: int): (d: Option<Direction>)
    ensures d == Some(Long) <==> signal == 2
    ensures d == Some(Short) <==> signal == 0
    ensures d == None <==> signal != 0 && signal != 2
  {
    if signal == 2 then Some(Long) else if signal == 0 then Some(Short) else None
  }

  datatype Levels = Levels(sl: real, tp: real)

  /** `compute_levels`: stop at 1.5 ATR and target at 2 ATR on either side
      of the close; no levels for any label other than buy or sell. */
  function ComputeLevels(row: Row): (r: Option<Levels>)
    ensures r.Some? <==> Decode(row.signal).Some?
    ensures row.signal == 2 ==> r == Some(Levels(row.close - 1.5 * row.atr, row.close + 2.0 * row.atr))
    ensures row.signal == 0 ==> r == Some(Levels(row.close + 1.5 * row.atr, row.close - 2.0 * row.atr))
    // with a positive ATR the levels straddle the entry in the trade's direction
    ensures r.Some? && row.atr > 0.0 && row.signal == 2 ==> r.value.sl < row.close < r.value.tp
    ensures r.Some? && row.atr > 0.0 && row.signal == 0 ==> r.value.tp < row.close < r.value.sl
    // the target is always 4/3 as far from the entry as the stop
    ensures r.Some? ==> 3.0 * (r.value.tp - row.close) == -4.0 * (r.value.sl - row.close)
  {
    if row.signal == 2 then Some(Levels(row.close - 1.5 * row.atr, row.close + 2.0 * row.atr))
    else if row.signal == 0 then Some(Levels(row.close + 1.5 * row.atr, row.close - 2.0 * row.atr))
    else None
  }

  /** The trade-log outcome strings "SL", "TP" and "NONE". */
  datatype Outcome = StopLoss | TakeProfit | NoHit

  /** How the next bar's range resolves a trade; the stop is tested first. */
  function Resolve(dir: Direction, lv: Levels, low: real, high: real): (o: Outcome)
    ensures dir == Long ==> (o == StopLoss <==> low <= lv.sl)
    ensures dir == Long ==> (o == TakeProfit <==> lv.sl < low && lv.tp <= high)
    ensures dir == Short ==> (o == StopLoss <==> lv.sl <= high)
    ensures dir == Short ==> (o == TakeProfit <==> high < lv.sl && low <= lv.tp)
  {
    match dir
    case Long => if low <= lv.sl then StopLoss else if high >= lv.tp then TakeProfit else NoHit
    case Short => if high >= lv.sl then StopLoss else if low <= lv.tp then TakeProfit else NoHit
  }

  /** One entry of the trade log: [i, entry, sl, tp, outcome]. */
  datatype Trade = Trade(index: nat, entry: real, sl: real, tp: real, outcome: Outcome)

  /** The trade row `i` opens, if any. With no next bar the entry price
      stands in for its low and high. */
  function TradeAt(rows: seq<Row>, i: nat): (t: Option<Trade>)
    requires i < |rows|
    ensures t.Some? <==> rows[i].signal == 0 || rows[i].signal == 2
    ensures t.Some? ==> t.value.index == i && t.value.entry == rows[i].close
    ensures t.Some? ==> ComputeLevels(rows[i]) == Some(Levels(t.value.sl, t.value.tp))
  {
    var row := rows[i];
    if row.signal == 1 then None
    else match ComputeLevels(row)
      case None => None
      case Some(lv) =>
        var low := if i + 1 < |rows| then rows[i + 1].low else row.close;
        var high := if i + 1 < |rows| then rows[i + 1].high else row.close;
        var dir := if row.signal == 2 then Long else Short;
        Some(Trade(i, row.close, lv.sl, lv.tp, Resolve(dir, lv, low, high)))
  }

  function Factor(o: Outcome): real
  {
    match o
    case StopLoss => LossFactor
    case TakeProfit => WinFactor
    case NoHit => 1.0
  }

  /** The loop's variables: balance, counters, equity curve and trade log. */
  datatype Sim = Sim(balance: real, wins: nat, losses: nat, trades: nat, curve: seq<real>, log: seq<Trade>)

  const Start: Sim := Sim(InitialBalance, 0, 0, 0, [InitialBalance], [])

  /** The effect of one opened trade on the loop's variables. */
  function Record(s: Sim, t: Trade): (r: Sim)
    ensures r.trades == s.trades + 1 && r.log == s.log + [t] && r.curve == s.curve + [r.balance]
    ensures r.wins + r.losses == s.wins + s.losses + (if t.outcome == NoHit then 0 else 1)
  {
    var b := match t.outcome
      case StopLoss => s.balance * LossFactor
      case TakeProfit => s.balance * WinFactor
      case NoHit => s.balance;
    Sim(b,
        s.wins + (if t.outcome == TakeProfit then 1 else 0),
        s.losses + (if t.outcome == StopLoss then 1 else 0),
        s.trades + 1,
        s.curve + [b],
        s.log + [t])
  }

  /** The loop's variables after rows 1 .. k-1 (row 0 is never traded). */
  function RunTo(rows: seq<Row>, k: nat): (s: Sim)
    requires k <= |rows|
    ensures |s.curve| > 0
  {
    if k <= 1 then Start
    else
      var s := RunTo(rows, k - 1);
      match TradeAt(rows, k - 1)
      case None => s
      case Some(t) => Record(s, t)
  }

  /** The per-coin summary record. */
  datatype Summary = Summary(
    totalTrades: nat, wins: nat, losses: nat,
    accuracy: real, profitFactor: real, maxDrawdown: real,
    finalBalance: real, returnPct: real)

  /** Python's `min` over a non-empty list. */
  function MinOf(s: seq<real>): (m: real)
    requires |s| > 0
    ensures m in s
    ensures forall i :: 0 <= i < |s| ==> m <= s[i]
  {
    if |s| == 1 then s[0]
    else
      var m' := MinOf(s[1..]);
      assert s[1..][0] in s;
      if s[0] <= m' then s[0] else m'
  }

  /** The metrics block: accuracy and profit factor are count ratios, the
      drawdown is measured from the initial balance down to the curve's
      minimum. */
  function Summarize(s: Sim): (m: Summary)
    requires |s.curve| > 0
    ensures m.totalTrades == s.trades && m.wins == s.wins && m.losses == s.losses
    ensures m.finalBalance == s.balance
  {
    var accuracy := if s.trades > 0 then s.wins as real / s.trades as real * 100.0 else 0.0;
    var profitFactor := if s.losses > 0 then s.wins as real / s.losses as real else s.wins as real;
    var maxDrawdown := (InitialBalance - MinOf(s.curve)) / InitialBalance * 100.0;
    Summary(s.trades, s.wins, s.losses, accuracy, profitFactor, maxDrawdown,
            s.balance, (s.balance - InitialBalance) / InitialBalance * 100.0)
  }

  function Pow(x: real, n: nat): real
  {
    if n == 0 then 1.0 else x * Pow(x, n - 1)
  }

  lemma {:induction false} PowPositive(x: real, n: nat)
    requires x > 0.0
    ensures Pow(x, n) > 0.0
  {
    if n > 0 {
      PowPositive(x, n - 1);
    }
  }

  /** How many log entries have outcome `o`. */
  function CountOutcome(log: seq<Trade>, o: Outcome): nat
  {
    if log == [] then 0
    else CountOutcome(log[..|log| - 1], o) + (if log[|log| - 1].outcome == o then 1 else 0)
  }

  /** How many rows among 1 .. k-1 carry a buy or sell label. */
  function SignalRows(rows: seq<Row>, k: nat): nat
    requires k <= |rows|
  {
    if k <= 1 then 0
    else SignalRows(rows, k - 1) + (if rows[k - 1].signal == 0 || rows[k - 1].signal == 2 then 1 else 0)
  }

  /** The equity curve that a trade log implies: it starts at the initial
      balance and each trade multiplies the last point by its outcome's
      factor. */
  ghost predicate CurveFollowsLog(curve: seq<real>, log: seq<Trade>)
  {
    |curve| == |log| + 1 && curve[0] == InitialBalance &&
    forall j :: 0 <= j < |log| ==> curve[j + 1] == curve[j] * Factor(log[j].outcome)
  }

  /** Each log entry is the trade its row opens; entries are in row order
      and none comes from row 0 or from a row before it. */
  ghost predicate LogMatchesRows(rows: seq<Row>, k: nat, log: seq<Trade>)
    requires k <= |rows|
  {
    (forall j :: 0 <= j < |log| ==> 1 <= log[j].index < k) &&
    (forall j :: 0 <= j < |log| ==> TradeAt(rows, log[j].index) == Some(log[j])) &&
    (forall j, j' :: 0 <= j < j' < |log| ==> log[j].index < log[j'].index)
  }

  /** Every buy or sell row from row 1 on opens exactly one trade, and the
      win and loss counters count the log's "TP" and "SL" entries. */
  lemma {:induction false} RunCounts(rows: seq<Row>, k: nat)
    requires k <= |rows|
    ensures var s := RunTo(rows, k);
      && s.trades == |s.log| == SignalRows(rows, k)
      && s.wins == CountOutcome(s.log, TakeProfit)
      && s.losses == CountOutcome(s.log, StopLoss)
      && s.wins + s.losses <= s.trades
  {
    if k > 1 {
      RunCounts(rows, k - 1);
      var s := RunTo(rows, k - 1);
      assert TradeAt(rows, k - 1).Some? <==> rows[k - 1].signal == 0 || rows[k - 1].signal == 2;
      match TradeAt(rows, k - 1)
      case None =>
      case Some(t) =>
        var s' := Record(s, t);
        assert s'.log[..|s'.log| - 1] == s.log;
    }
  }

  /** The balance after `wins` take-profits and `losses` stop-losses, in
      any order. */
  function ExpectedBalance(wins: nat, losses: nat): real
  {
    InitialBalance * Pow(WinFactor, wins) * Pow(LossFactor, losses)
  }

  /** The expected balance is positive, whatever the counts. */
  lemma ExpectedBalancePositive(wins: nat, losses: nat)
    ensures ExpectedBalance(wins, losses) > 0.0
  {
    PowPositive(WinFactor, wins);
    PowPositive(LossFactor, losses);
  }

  ghost predicate BalanceMatchesCounts(s: Sim)
  {
    s.balance == ExpectedBalance(s.wins, s.losses)
  }

  /** One recorded trade keeps the balance at the initial balance times
      1.02 per win and 0.985 per loss. */
  lemma RecordBalance(s: Sim, t: Trade)
    requires BalanceMatchesCounts(s)
    ensures BalanceMatchesCounts(Record(s, t))
  {
    var p, q := Pow(WinFactor, s.wins), Pow(LossFactor, s.losses);
    var s' := Record(s, t);
    if t.outcome == TakeProfit {
      assert Pow(WinFactor, s'.wins) == WinFactor * p;
      calc {
        s'.balance;
        (InitialBalance * p * q) * WinFactor;
        InitialBalance * (WinFactor * p) * q;
      }
    } else if t.outcome == StopLoss {
      assert Pow(LossFactor, s'.losses) == LossFactor * q;
      calc {
        s'.balance;
        (InitialBalance * p * q) * LossFactor;
        InitialBalance * p * (LossFactor * q);
      }
    }
  }

  /** The final balance is the initial one times 1.02 per win and 0.985 per
      loss. */
  lemma {:induction false} RunBalance(rows: seq<Row>, k: nat)
    requires k <= |rows|
    ensures BalanceMatchesCounts(RunTo(rows, k))
  {
    if k <= 1 {
      assert RunTo(rows, k) == Start;
      assert Pow(WinFactor, 0) == 1.0 && Pow(LossFactor, 0) == 1.0;
      assert BalanceMatchesCounts(Start);
    } else {
      RunBalance(rows, k - 1);
      var s := RunTo(rows, k - 1);
      match TradeAt(rows, k - 1)
      case None =>
        assert RunTo(rows, k) == s;
      case Some(t) =>
        assert RunTo(rows, k) == Record(s, t);
        RecordBalance(s, t);
    }
  }

  /** The curve follows the log and ends at the balance. */
  ghost predicate CurveTracksBalance(s: Sim)
  {
    |s.curve| > 0 && s.curve[|s.curve| - 1] == s.balance && CurveFollowsLog(s.curve, s.log)
  }

  lemma RecordCurve(s: Sim, t: Trade)
    requires CurveTracksBalance(s)
    ensures CurveTracksBalance(Record(s, t))
  {
    RecordFactor(s, t);
    ExtendCurve(s.curve, s.log, Record(s, t).balance, t);
  }

  /** Appending a trade and the point it leads to keeps a curve following
      its log. */
  lemma ExtendCurve(curve: seq<real>, log: seq<Trade>, b: real, t: Trade)
    requires CurveFollowsLog(curve, log)
    requires b == curve[|curve| - 1] * Factor(t.outcome)
    ensures CurveFollowsLog(curve + [b], log + [t])
  {
    var c, l := curve + [b], log + [t];
    forall j | 0 <= j < |l|
      ensures c[j + 1] == c[j] * Factor(l[j].outcome)
    {
      if j < |log| {
        assert c[j + 1] == curve[j + 1] && c[j] == curve[j] && l[j] == log[j];
      }
    }
  }

  /** One trade scales the balance by its outcome's factor. */
  lemma RecordFactor(s: Sim, t: Trade)
    ensures Record(s, t).balance == s.balance * Factor(t.outcome)
  {
    match t.outcome
    case StopLoss =>
    case TakeProfit =>
    case NoHit =>
  }

  /** The equity curve starts at the initial balance, each point is the
      previous one scaled by the logged trade's outcome, and the last point
      is the balance. */
  lemma {:induction false} RunCurve(rows: seq<Row>, k: nat)
    requires k <= |rows|
    ensures CurveTracksBalance(RunTo(rows, k))
  {
    if k <= 1 {
      assert RunTo(rows, k) == Start;
    } else {
      RunCurve(rows, k - 1);
      var s := RunTo(rows, k - 1);
      match TradeAt(rows, k - 1)
      case None =>
        assert RunTo(rows, k) == s;
      case Some(t) =>
        RecordCurve(s, t);
        assert RunTo(rows, k) == Record(s, t);
    }
  }

  /** The log holds, in row order, the trades that rows 1 .. k-1 open. */
  lemma {:induction false} RunLog(rows: seq<Row>, k: nat)
    requires k <= |rows|
    ensures LogMatchesRows(rows, k, RunTo(rows, k).log)
  {
    if k > 1 {
      RunLog(rows, k - 1);
    }
  }

  /** Every point of a curve that follows its log is positive. */
  lemma {:induction false} CurvePositive(curve: seq<real>, log: seq<Trade>)
    requires CurveFollowsLog(curve, log)
    ensures forall j :: 0 <= j < |curve| ==> curve[j] > 0.0
  {
    if |log| > 0 {
      var n := |log| - 1;
      CurvePositive(curve[..n + 1], log[..n]);
      assert curve[n] > 0.0;
      assert curve[n + 1] == curve[n] * Factor(log[n].outcome);
    }
  }

  lemma RatioPercent(part: nat, whole: nat)
    requires part <= whole && whole > 0
    ensures 0.0 <= part as real / whole as real * 100.0 <= 100.0
  {
    assert part as real / whole as real <= 1.0;
  }

  lemma DrawdownRange(low: real)
    requires 0.0 < low <= InitialBalance
    ensures 0.0 <= (InitialBalance - low) / InitialBalance * 100.0 < 100.0
  {
  }

  /** The metrics of any consistent set of loop variables are in range. */
  lemma {:induction false} MetricsBounds(s: Sim)
    requires s.wins + s.losses <= s.trades
    requires |s.curve| > 0 && s.curve[0] == InitialBalance
    requires forall j :: 0 <= j < |s.curve| ==> s.curve[j] > 0.0
    requires s.balance > 0.0
    ensures var m := Summarize(s);
      && 0.0 <= m.accuracy <= 100.0
      && 0.0 <= m.maxDrawdown < 100.0
      && m.profitFactor >= 0.0
      && m.returnPct > -100.0
  {
    if s.trades > 0 {
      RatioPercent(s.wins, s.trades);
    }
    var mn := MinOf(s.curve);
    assert mn <= s.curve[0];
    DrawdownRange(mn);
  }

  /** What each metric measures: accuracy is the percentage of trades
      that took profit, the profit factor is wins per loss (the bare win
      count when nothing was lost), the drawdown is the percentage lost from
      the initial balance at the curve's lowest point, and the return is the
      percentage gained on it. */
  lemma MetricsMeaning(s: Sim)
    requires |s.curve| > 0
    ensures var m := Summarize(s);
      && (s.trades > 0 ==> m.accuracy * s.trades as real == 100.0 * s.wins as real)
      && (s.trades == 0 ==> m.accuracy == 0.0)
      && (s.losses > 0 ==> m.profitFactor * s.losses as real == s.wins as real)
      && (s.losses == 0 ==> m.profitFactor == s.wins as real)
      && (exists j :: 0 <= j < |s.curve| && InitialBalance - s.curve[j] == m.maxDrawdown * 10.0)
      && (forall j :: 0 <= j < |s.curve| ==> InitialBalance - s.curve[j] <= m.maxDrawdown * 10.0)
      && InitialBalance + m.returnPct * 10.0 == m.finalBalance
  {
    var mn := MinOf(s.curve);
    var j :| 0 <= j < |s.curve| && s.curve[j] == mn;
    assert InitialBalance - s.curve[j] == Summarize(s).maxDrawdown * 10.0;
  }

  /** The bounds the summary metrics always satisfy. */
  lemma SummaryBounds(rows: seq<Row>)
    ensures var m := Summarize(RunTo(rows, |rows|));
      && 0.0 <= m.accuracy <= 100.0
      && 0.0 <= m.maxDrawdown < 100.0
      && m.profitFactor >= 0.0
      && m.finalBalance > 0.0 && m.returnPct > -100.0
      && m.wins + m.losses <= m.totalTrades
  {
    var s := RunTo(rows, |rows|);
    RunCounts(rows, |rows|);
    RunCurve(rows, |rows|);
    CurvePositive(s.curve, s.log);
    assert s.balance == s.curve[|s.curve| - 1];
    MetricsBounds(s);
  }

  /** One step of the specification for a buy or sell row `i`, stated in
      the terms the loop computes. */
  lemma RunToStep(rows: seq<Row>, i: nat, lv: Levels, outcome: Outcome)
    requires 1 <= i < |rows| && ComputeLevels(rows[i]) == Some(lv)
    requires outcome == Resolve(if rows[i].signal == 2 then Long else Short, lv,
                                if i + 1 < |rows| then rows[i + 1].low else rows[i].close,
                                if i + 1 < |rows| then rows[i + 1].high else rows[i].close)
    ensures RunTo(rows, i + 1) == Record(RunTo(rows, i), Trade(i, rows[i].close, lv.sl, lv.tp, outcome))
  {
  }

  /** A row whose label opens no trade leaves the specification's state as
      it is. */
  lemma RunToSkip(rows: seq<Row>, i: nat)
    requires 1 <= i < |rows| && (rows[i].signal == 1 || ComputeLevels(rows[i]).None?)
    ensures RunTo(rows, i + 1) == RunTo(rows, i)
  {
  }

  /** On the last row there is no next bar: its low and high are taken to
      be the entry, so with a positive ATR neither level is reached and the
      balance does not move; the trade still counts and is logged. */
  lemma LastBarNeverResolves(rows: seq<Row>)
    requires |rows| >= 2
    requires var last := rows[|rows| - 1]; last.atr > 0.0 && (last.signal == 0 || last.signal == 2)
    ensures var n := |rows|;
      && TradeAt(rows, n - 1).Some?
      && TradeAt(rows, n - 1).value.outcome == NoHit
      && RunTo(rows, n).balance == RunTo(rows, n - 1).balance
      && RunTo(rows, n).trades == RunTo(rows, n - 1).trades + 1
  {
  }

  /** Without a buy or sell row after row 0 nothing happens: the state stays
      at its start. */
  lemma {:induction false} NoSignalsNoChange(rows: seq<Row>, k: nat)
    requires k <= |rows| && SignalRows(rows, k) == 0
    ensures RunTo(rows, k) == Start
  {
    if k > 1 {
      assert SignalRows(rows, k - 1) == 0;
      NoSignalsNoChange(rows, k - 1);
    }
  }

  /** An all-hold input: no trades, the balance stays at 1000, and both the
      return and the drawdown are zero. */
  lemma AllHoldSummary(rows: seq<Row>)
    requires forall i :: 0 <= i < |rows| ==> rows[i].signal == 1
    ensures var m := Summarize(RunTo(rows, |rows|));
      m.totalTrades == 0 && m.finalBalance == InitialBalance && m.returnPct == 0.0 && m.maxDrawdown == 0.0
  {
    AllHoldHasNoSignals(rows, |rows|);
    NoSignalsNoChange(rows, |rows|);
  }

  lemma {:induction false} AllHoldHasNoSignals(rows: seq<Row>, k: nat)
    requires k <= |rows|
    requires forall i :: 0 <= i < |rows| ==> rows[i].signal == 1
    ensures SignalRows(rows, k) == 0
  {
    if k > 1 {
      AllHoldHasNoSignals(rows, k - 1);
    }
  }

  /** A buy on row 1 at close 100 with ATR 2 sets sl = 97 and tp = 104; a
      next bar with high 106 and low 100 takes profit: 1000 becomes 1020. */
  lemma BuyTakesProfit()
    ensures var rows := [Row(100.0, 99.0, 101.0, 2.0, 1), Row(100.0, 99.0, 101.0, 2.0, 2), Row(106.0, 100.0, 106.0, 2.0, 1)];
      && ComputeLevels(rows[1]) == Some(Levels(97.0, 104.0))
      && RunTo(rows, 3).log == [Trade(1, 100.0, 97.0, 104.0, TakeProfit)]
      && RunTo(rows, 3).balance == 1020.0
  {
  }

  /** The same buy with a next bar whose low 96 reaches the stop and whose
      high 105 reaches the target: the stop wins and 1000 becomes 985. */
  lemma StopLossHasPriority()
    ensures var rows := [Row(100.0, 99.0, 101.0, 2.0, 1), Row(100.0, 99.0, 101.0, 2.0, 2), Row(100.0, 96.0, 105.0, 2.0, 1)];
      && RunTo(rows, 3).log == [Trade(1, 100.0, 97.0, 104.0, StopLoss)]
      && RunTo(rows, 3).balance == 985.0
  {
  }

  /** Row 0 is never traded, whatever its label. */
  lemma FirstRowIgnored()
    ensures var rows := [Row(100.0, 99.0, 101.0, 2.0, 2), Row(106.0, 100.0, 106.0, 2.0, 1)];
      RunTo(rows, 2) == Start
  {
  }

  /** The loop of `backtest_coin` over rows 1 .. n-1: it opens a trade
      for each buy or sell row, resolves it on the next bar, and moves the
      balance, the counters, the equity curve and the trade log. */
  method Simulate(rows: seq<Row>)
    returns (balance: real, wins: nat, losses: nat, trades: nat, equityCurve: seq<real>, tradeLog: seq<Trade>)
    ensures Sim(balance, wins, losses, trades, equityCurve, tradeLog) == RunTo(rows, |rows|)
  {
    balance := InitialBalance;
    equityCurve := [balance];
    wins, losses, trades := 0, 0, 0;
    tradeLog := [];
    var i := 1;
    while i < |rows|
      invariant 1 <= i <= |rows| || (|rows| == 0 && i == 1)
      invariant Sim(balance, wins, losses, trades, equityCurve, tradeLog) == RunTo(rows, if i <= |rows| then i else |rows|)
    {
      var row := rows[i];
      var signal := row.signal;
      var levels := ComputeLevels(row);
      if signal == 1 || levels.None? {
        // hold, or a label with no levels: skip the row
        RunToSkip(rows, i);
      } else {
        var sl, tp := levels.value.sl, levels.value.tp;
        var entry := row.close;
        var lowFuture := if i + 1 < |rows| then rows[i + 1].low else entry;
        var highFuture := if i + 1 < |rows| then rows[i + 1].high else entry;
        trades := trades + 1;
        var outcome := NoHit;
        if signal == 2 {
          if lowFuture <= sl {
            balance := balance * LossFactor;
            losses := losses + 1;
            outcome := StopLoss;
          } else if highFuture >= tp {
            balance := balance * WinFactor;
            wins := wins + 1;
            outcome := TakeProfit;
          }
        }
        if signal == 0 {
          if highFuture >= sl {
            balance := balance * LossFactor;
            losses := losses + 1;
            outcome := StopLoss;
          } else if lowFuture <= tp {
            balance := balance * WinFactor;
            wins := wins + 1;
            outcome := TakeProfit;
          }
        }
        equityCurve := equityCurve + [balance];
        tradeLog := tradeLog + [Trade(i, entry, sl, tp, outcome)];
        RunToStep(rows, i, levels.value, outcome);
      }
      i := i + 1;
    }
  }

  /** `backtest_coin` on rows already read and cleaned: the loop, then the
      metrics. */
  method BacktestCoin(rows: seq<Row>) returns (summary: Summary, tradeLog: seq<Trade>, equityCurve: seq<real>)
    ensures var s := RunTo(rows, |rows|);
      tradeLog == s.log && equityCurve == s.curve && summary == Summarize(s)
    ensures summary.totalTrades == |tradeLog| == |equityCurve| - 1 == SignalRows(rows, |rows|)
    ensures summary.wins == CountOutcome(tradeLog, TakeProfit)
    ensures summary.losses == CountOutcome(tradeLog, StopLoss)
    ensures summary.finalBalance == ExpectedBalance(summary.wins, summary.losses)
    ensures equityCurve[|equityCurve| - 1] == summary.finalBalance
    ensures CurveFollowsLog(equityCurve, tradeLog)
    ensures LogMatchesRows(rows, |rows|, tradeLog)
    ensures 0.0 <= summary.accuracy <= 100.0 && 0.0 <= summary.maxDrawdown < 100.0
  {
    var balance, wins, losses, trades;
    balance, wins, losses, trades, equityCurve, tradeLog := Simulate(rows);
    summary := Summarize(Sim(balance, wins, losses, trades, equityCurve, tradeLog));
    RunCounts(rows, |rows|);
    RunBalance(rows, |rows|);
    RunCurve(rows, |rows|);
    RunLog(rows, |rows|);
    SummaryBounds(rows);
  }
}
