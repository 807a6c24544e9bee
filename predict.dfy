/** The deterministic helpers around the live classifier in
    `src/predict.py`: symbol correction, the class-to-signal table, fixed
    trade levels, the trend score and its sentence, and the column fill
    before scaling. */
module Predict {
  import opened Wrappers
  import opened Text
  import opened Bars

  // ---------------------------------------------------------------
  // Symbol correction
  // ---------------------------------------------------------------

  /** `normalize_symbol`'s pair: the symbol to use (or none) and a note. */
  datatype Normalized = Normalized(symbol: Option<string>, note: Option<string>)

  /** The quote-currency fix: every "USD" becomes "USDT". */
  function UsdtGuess(u: string): string
  {
    ReplaceAll(u, "USD", "USDT")
  }

  predicate UsdHit(u: string, symbols: seq<string>)
  {
    EndsWith(u, "USD") && UsdtGuess(u) in symbols
  }

  predicate ShortHit(u: string, symbols: seq<string>)
  {
    |u| <= 5 && u + "USDT" in symbols
  }

  /** An oracle standing for `get_close_matches(..., n=1)`: whatever it
      proposes is an element of the list. */
  ghost predicate FromList(closeMatch: string -> Option<string>, symbols: seq<string>)
  {
    forall w :: closeMatch(w).Some? ==> closeMatch(w).value in symbols
  }

  /** `normalize_symbol` against the exchange's symbol list `symbols`; the
      upper-cased input is tried as is, with "USD" made "USDT", with
      "USDT" appended when it is at most five characters, and finally
      through the fuzzy matcher. */
  function NormalizeSymbol(symbol: string, symbols: seq<string>, closeMatch: string -> Option<string>): (r: Normalized)
    requires FromList(closeMatch, symbols)
    ensures r.symbol.Some? ==> r.symbol.value in symbols
    ensures r.note.None? <==> Upper(symbol) in symbols
    ensures Upper(symbol) in symbols ==> r.symbol == Some(Upper(symbol))
    ensures Upper(symbol) !in symbols && UsdHit(Upper(symbol), symbols) ==> r.symbol == Some(UsdtGuess(Upper(symbol)))
    ensures r.symbol.None? <==>
      Upper(symbol) !in symbols && !UsdHit(Upper(symbol), symbols) && !ShortHit(Upper(symbol), symbols)
      && closeMatch(Upper(symbol)).None?
    ensures r.symbol.None? ==> r.note == Some("Symbol " + Upper(symbol) + " is invalid on Binance.")
  {
    var u := Upper(symbol);
    if u in symbols then Normalized(Some(u), None)
    else if UsdHit(u, symbols) then
      Normalized(Some(UsdtGuess(u)), Some(u + " not found. Using " + UsdtGuess(u) + "."))
    else if ShortHit(u, symbols) then
      Normalized(Some(u + "USDT"), Some(u + " is incomplete. Using " + u + "USDT" + "."))
    else match closeMatch(u)
      case Some(m) => Normalized(Some(m), Some(u + " not found. Did you mean " + m + "?"))
      case None => Normalized(None, Some("Symbol " + u + " is invalid on Binance."))
  }

  /** Case does not matter: the input is upper-cased before anything else. */
  lemma NormalizeIgnoresCase(symbol: string, symbols: seq<string>, closeMatch: string -> Option<string>)
    requires FromList(closeMatch, symbols)
    ensures NormalizeSymbol(Upper(symbol), symbols, closeMatch) == NormalizeSymbol(symbol, symbols, closeMatch)
  {
    UpperIdempotent(symbol);
  }

  lemma UsdUnbordered()
    ensures Unbordered("USD")
  {
    assert "USD"[1..] == "SD" && "USD"[..2] == "US";
    assert "USD"[2..] == "D" && "USD"[..1] == "U";
  }

  /** The "USD" guess for a symbol ending in "USD" ends in "USDT". */
  lemma UsdtGuessEndsWithUsdt(u: string)
    requires EndsWith(u, "USD")
    ensures EndsWith(UsdtGuess(u), "USDT")
    ensures |UsdtGuess(u)| == |u| + Occurrences(u, "USD")
  {
    var x := u[..|u| - 3];
    assert u == x + "USD";
    UsdUnbordered();
    ReplaceAllAppend(x, "USD", "USDT");
    ReplaceAllLength(u, "USD", "USDT");
  }

  /** A symbol ending in "USD" that is not listed, but whose "USDT" form
      is, is replaced by that form with a note. */
  lemma UsdFallback(symbol: string, symbols: seq<string>, closeMatch: string -> Option<string>)
    requires FromList(closeMatch, symbols)
    requires Upper(symbol) !in symbols && UsdHit(Upper(symbol), symbols)
    ensures var u := Upper(symbol);
      NormalizeSymbol(symbol, symbols, closeMatch)
        == Normalized(Some(UsdtGuess(u)), Some(u + " not found. Using " + UsdtGuess(u) + "."))
  {
  }

  /** A bare coin name is completed with "USDT" when the exchange lists it
      and neither the exact nor the "USD" form is listed. */
  lemma ShortNameCompleted(symbol: string, symbols: seq<string>, closeMatch: string -> Option<string>)
    requires FromList(closeMatch, symbols)
    requires Upper(symbol) !in symbols && !UsdHit(Upper(symbol), symbols)
    requires ShortHit(Upper(symbol), symbols)
    ensures NormalizeSymbol(symbol, symbols, closeMatch)
      == Normalized(Some(Upper(symbol) + "USDT"), Some(Upper(symbol) + " is incomplete. Using " + Upper(symbol) + "USDT."))
  {
    assert Upper(symbol) + " is incomplete. Using " + Upper(symbol) + "USDT" + "."
      == Upper(symbol) + " is incomplete. Using " + Upper(symbol) + "USDT.";
  }

  lemma UpperBtcusd()
    ensures Upper("btcusd") == "BTCUSD"
  {
    var u := Upper("btcusd");
    assert u[0] == 'B' && u[1] == 'T' && u[2] == 'C';
    assert u[3] == 'U' && u[4] == 'S' && u[5] == 'D';
  }

  lemma BtcGuess()
    ensures UsdtGuess("BTCUSD") == "BTCUSDT"
  {
    UsdUnbordered();
    assert "BTC" + "USD" == "BTCUSD";
    ReplaceAllAppend("BTC", "USD", "USDT");
    assert "BTC"[..3] != "USD";
    assert "BTC"[1..] == "TC";
    ReplaceAllShort("TC", "USD", "USDT");
    assert ReplaceAll("BTC", "USD", "USDT") == "BTC";
  }

  /** "btcusd" is corrected to "BTCUSDT" when that is listed and
      "BTCUSD" is not, whatever the fuzzy matcher would say. */
  lemma LowercaseUsdExample(closeMatch: string -> Option<string>)
    requires FromList(closeMatch, ["BTCUSDT"])
    ensures NormalizeSymbol("btcusd", ["BTCUSDT"], closeMatch)
      == Normalized(Some("BTCUSDT"), Some("BTCUSD not found. Using BTCUSDT."))
  {
    UpperBtcusd();
    BtcGuess();
    assert "BTCUSD"[3..] == "USD";
    UsdFallback("btcusd", ["BTCUSDT"], closeMatch);
    UsdNote(Upper("btcusd"), UsdtGuess(Upper("btcusd")));
  }

  lemma UsdNote(u: string, g: string)
    requires u == "BTCUSD" && g == "BTCUSDT"
    ensures u + " not found. Using " + g + "." == "BTCUSD not found. Using BTCUSDT."
  {
  }

  // ---------------------------------------------------------------
  // Class mapping, levels and trend
  // ---------------------------------------------------------------

  /** `mapping[pred]`; a class outside the table is a `KeyError`. */
  function ClassToSignal(pred: int): (s: Option<string>)
    ensures s == Some("SELL") <==> pred == 0
    ensures s == Some("BUY") <==> pred == 1
    ensures s == Some("HOLD") <==> pred == 2
    ensures s.None? <==> pred < 0 || pred > 2
  {
    if pred == 0 then Some("SELL")
    else if pred == 1 then Some("BUY")
    else if pred == 2 then Some("HOLD")
    else None
  }

  /** A level cell: a price, or the "-" placeholder. */
  datatype Level = Price(value: real) | Dash

  datatype Plan = Plan(entry: real, sl: Level, tp: Level, rr: Level)

  /** The pseudo-ATR `trade_levels` uses: 0.3 % of the price. */
  const AtrFraction: real := 0.003

  /** `trade_levels`: stop at two pseudo-ATRs against the trade, target at
      four in its favour, reward-to-risk 2.0; no levels for other signals. */
  function TradeLevels(signal: string, price: real): (p: Plan)
    ensures p.entry == price
    ensures signal == "BUY" ==> p == Plan(price, Price(price - 0.006 * price), Price(price + 0.012 * price), Price(2.0))
    ensures signal == "SELL" ==> p == Plan(price, Price(price + 0.006 * price), Price(price - 0.012 * price), Price(2.0))
    ensures p.sl == Dash <==> signal != "BUY" && signal != "SELL"
    ensures p.sl == Dash <==> p.tp == Dash && p.rr == Dash
  {
    var atr := price * AtrFraction;
    if signal == "BUY" then Plan(price, Price(price - 2.0 * atr), Price(price + 4.0 * atr), Price(2.0))
    else if signal == "SELL" then Plan(price, Price(price + 2.0 * atr), Price(price - 4.0 * atr), Price(2.0))
    else Plan(price, Dash, Dash, Dash)
  }

  /** For a positive price the levels straddle the entry, and the distance
      to the target is twice the distance to the stop, as rr = 2.0 says. */
  lemma LevelsMatchRewardRisk(signal: string, price: real)
    requires price > 0.0 && (signal == "BUY" || signal == "SELL")
    ensures var p := TradeLevels(signal, price);
      && p.sl.Price? && p.tp.Price? && p.rr == Price(2.0)
      && (signal == "BUY" ==> p.sl.value < p.entry < p.tp.value)
      && (signal == "SELL" ==> p.tp.value < p.entry < p.sl.value)
      && (p.tp.value - p.entry) == -2.0 * (p.sl.value - p.entry)
  {
  }

  /** Of the classes the table knows, only HOLD gets placeholder levels. */
  lemma HoldHasNoLevels(pred: int, price: real)
    requires 0 <= pred <= 2
    ensures ClassToSignal(pred).Some?
    ensures TradeLevels(ClassToSignal(pred).value, price).sl == Dash <==> pred == 2
  {
  }

  /** One point for a close above an EMA. */
  function AbovePoint(close: real, ema: real): (p: int)
    ensures p == 0 || p == 1
    ensures p == 1 <==> close > ema
  {
    if close > ema then 1 else 0
  }

  /** RSI above 55 adds a point, below 45 removes one, in between nothing. */
  function RsiPoint(rsi: real): (p: int)
    ensures -1 <= p <= 1
    ensures p == 0 <==> 45.0 <= rsi <= 55.0
    ensures p == 1 <==> rsi > 55.0
  {
    (if rsi > 55.0 then 1 else 0) - (if rsi < 45.0 then 1 else 0)
  }

  /** A positive MACD histogram adds a point, anything else removes one. */
  function MacdPoint(hist: real): (p: int)
    ensures p == 1 || p == -1
    ensures p == 1 <==> hist > 0.0
  {
    if hist > 0.0 then 1 else -1
  }

  /** The trend score of the last bar. */
  function Score(b: Bar): (r: int)
    ensures -2 <= r <= 6
  {
    AbovePoint(b.close, b.ema9) + AbovePoint(b.close, b.ema21) + AbovePoint(b.close, b.ema50)
      + AbovePoint(b.close, b.ema100) + RsiPoint(b.rsi) + MacdPoint(b.macdHist)
  }

  predicate AllBullish(b: Bar)
  {
    b.close > b.ema9 && b.close > b.ema21 && b.close > b.ema50 && b.close > b.ema100
    && b.rsi > 55.0 && b.macdHist > 0.0
  }

  predicate AllBearish(b: Bar)
  {
    b.close <= b.ema9 && b.close <= b.ema21 && b.close <= b.ema50 && b.close <= b.ema100
    && b.rsi < 45.0 && b.macdHist <= 0.0
  }

  /** The score lies in [-2, 6], with the top reached exactly when every
      test is bullish and the bottom exactly when every test is bearish. */
  lemma ScoreRange(b: Bar)
    ensures Score(b) == 6 <==> AllBullish(b)
    ensures Score(b) == -2 <==> AllBearish(b)
  {
  }

  /** `trend_strength`: adds up the tests on the last bar. */
  method TrendStrength(rows: seq<Bar>) returns (score: int)
    requires |rows| > 0
    ensures score == Score(rows[|rows| - 1])
    ensures -2 <= score <= 6
  {
    score := 0;
    var last := rows[|rows| - 1];
    var c := last.close;
    if c > last.ema9 { score := score + 1; }
    if c > last.ema21 { score := score + 1; }
    if c > last.ema50 { score := score + 1; }
    if c > last.ema100 { score := score + 1; }
    var r := last.rsi;
    if r > 55.0 { score := score + 1; }
    if r < 45.0 { score := score - 1; }
    if last.macdHist > 0.0 { score := score + 1; } else { score := score - 1; }
    ScoreRange(last);
  }

  /** The sentence before the score, per signal. */
  function DescriptionLead(signal: string): string
  {
    if signal == "BUY" then "Uptrend detected with positive momentum (Trend Score: "
    else if signal == "SELL" then "Downtrend pressure increasing (Trend Score: "
    else "Market neutral; no strong trend (Trend Score: "
  }

  /** `trend_description`. */
  function TrendDescription(signal: string, score: int): (d: string)
    ensures StartsWith(d, DescriptionLead(signal))
    ensures |d| == |DescriptionLead(signal)| + |IntToString(score)| + 2
    ensures d[|DescriptionLead(signal)|..|d| - 2] == IntToString(score)
    ensures EndsWith(d, ").")
  {
    var d := DescriptionLead(signal) + IntToString(score) + ").";
    assert d[|DescriptionLead(signal)|..|d| - 2] == IntToString(score);
    d
  }

  /** The sentence gives the score back. */
  lemma DescriptionScoreRoundTrip(signal: string, score: int)
    ensures var d := TrendDescription(signal, score);
      ParseInt(d[|DescriptionLead(signal)|..|d| - 2]) == score
  {
    IntToStringRoundTrip(score);
  }

  // ---------------------------------------------------------------
  // Column fill before scaling
  // ---------------------------------------------------------------

  /** The feature row after the fill: every required column present, new
      ones at 0.0, existing ones as they were. */
  function Filled(cols: map<string, real>, required: seq<string>): (m: map<string, real>)
    ensures forall c :: c in required ==> c in m
    ensures forall c :: c in cols ==> c in m && m[c] == cols[c]
    ensures forall c :: c in m && c !in cols ==> c in required && m[c] == 0.0
  {
    map c | c in cols.Keys + (set r | r in required) :: if c in cols then cols[c] else 0.0
  }

  /** Filling twice is filling once. */
  lemma FilledIdempotent(cols: map<string, real>, required: seq<string>)
    ensures Filled(Filled(cols, required), required) == Filled(cols, required)
  {
  }

  /** The last row of a feature frame, by column name. */
  class FeatureRow {
    var cols: map<string, real>

    constructor (cols: map<string, real>)
      ensures this.cols == cols
    {
      this.cols := cols;
    }

    /** The loop in `safe_scale`: adds each missing required column as 0.0. */
    method FillMissing(required: seq<string>)
      modifies this
      ensures cols == Filled(old(cols), required)
    {
      ghost var original := cols;
      for k := 0 to |required|
        invariant cols == Filled(original, required[..k])
      {
        var col := required[k];
        assert required[..k + 1] == required[..k] + [col];
        if col !in cols {
          cols := cols[col := 0.0];
        }
      }
      assert required[..|required|] == required;
    }

    /** `X[required]`: the filled row in the scaler's column order, the
        vector handed to `scaler.transform`. */
    method SafeScaleInput(required: seq<string>) returns (v: seq<real>)
      modifies this
      ensures cols == Filled(old(cols), required)
      ensures |v| == |required|
      ensures forall i :: 0 <= i < |required| ==> v[i] == cols[required[i]]
      ensures forall i :: 0 <= i < |required| && required[i] !in old(cols) ==> v[i] == 0.0
      ensures forall i :: 0 <= i < |required| && required[i] in old(cols) ==> v[i] == old(cols)[required[i]]
    {
      FillMissing(required);
      var filled := cols;
      v := seq(|required|, i requires 0 <= i < |required| => filled[required[i]]);
    }
  }
}
