# CryptoPre13 decision and simulation core in Dafny

This project models the part of CryptoPre13 that makes decisions. CryptoPre13 is a crypto-signal toolkit: it labels hourly bars, trains a classifier on them, backtests the labels and serves live signals on a Streamlit dashboard. The model covers:

- **Backtester**: the per-coin backtest, with ATR stop-loss and take-profit levels, one-bar trades with the stop tested first, fixed ×0.985 and ×1.02 balance moves, and the summary metrics.
- **Labeler**: the forward-return labeller, with strict thresholds at ±0.2 % one bar ahead.
- **TrainAll**: the training pipeline's labelling rule, with inclusive thresholds at ±0.3 % three bars ahead, and the concatenation over the ten coins.
- **Regime**: the first-match regime classifier over EMA order and `atr_pct`.
- **Predict**: the live predictor's helpers. These are symbol correction, the class table, the fixed 0.3 % levels, the trend score and its sentence, and the column fill before scaling.
- **Dashboard**: the dashboard's EMA-cross trend per timeframe, and the shaping of news posts with their vote sentiment.

Prices, ATR values and balances are `real`, so every multiplier is an exact rational.

Modules:

- `Wrappers`: the `Option` type.
- `Text`: the Python string operations the core calls. These are `upper`, `startswith`, `endswith`, `replace` and integer formatting.
- `Bars`: the shared bar record, `dropna` over a column that ends in missing values, and the `feat_` file filter.
- One module per core file: `Backtester`, `Labeler`, `TrainAll`, `Regime`, `Predict` and `Dashboard`.
- `Encodings`: lemmas about how one file's label codes read in another.

## How the source is modelled

**Backtester.** `Backtester.RunTo` specifies the backtest loop. It folds `Backtester.Record` over the rows with `Backtester.TradeAt`. `Backtester.Simulate` is the loop itself and is proved equal to that fold. `Backtester.BacktestCoin` adds the metrics.

**Labellers.** `Labeler.ApplyLabels` and `TrainAll.LabelCoin` compute one optional row per bar. The row is `None` where the shifted close falls off the end. `Bars.Present` then drops those rows, as `dropna` does.

**Loops over directories.** Directory listings are sequences of parsed files, in the order given. Network fetches are function parameters:

- the kline fetch per timeframe;
- the news feed per URL;
- `difflib.get_close_matches`, as an oracle that proposes only elements of the symbol list.

**Label encodings.** Each file keeps its own encoding:

| file | 0 | 1 | 2 |
|---|---|---|---|
| src/labeler.py | HOLD | SELL | BUY |
| src/train_all.py | SELL | HOLD | BUY |
| src/backtester.py | sell | hold | buy |
| src/predict.py mapping | SELL | BUY | HOLD |

The `Encodings` lemmas prove how these combine:

- Read with the backtester's codes, the labeler's HOLD opens a short and its SELL opens nothing.
- The predictor's table names every class of the labeler's encoding wrongly. That encoding is the one `src/train.py` trains on, since it trains on `LABEL`.
- The training pipeline's codes agree with the backtester's.

**Column names.** The labeler writes its labels to a column `LABEL` (src/labeler.py:22). The backtester reads `label` (src/backtester.py:12). Only `src/train_all.py` writes `label`. The model keeps the backtester's own reading: `Backtester.Row.signal` is the `label` column.

**Row range and levels in the backtest.**

- The loop starts at row 1 (src/backtester.py:52), so row 0 is never traded (`Backtester.FirstRowIgnored`). The worked examples `Backtester.BuyTakesProfit` and `Backtester.StopLossHasPriority` therefore put the BUY on row 1.
- The last bar is traded too. With no next bar, its own close stands in for the next bar's low and high (src/backtester.py:65-66, `Backtester.LastBarNeverResolves`).
- `compute_levels` does not check the ATR (src/backtester.py:17-30). A zero or negative ATR still yields levels, and `Backtester.ComputeLevels` does the same.

## Model

| member | source | states |
|---|---|---|
| Backtester.Decode | src/backtester.py:55-62 | label 2 opens a long and label 0 a short, each iff the label is that value; every other label opens nothing |
| Backtester.ComputeLevels | src/backtester.py:17-30 | levels exist iff the label is 0 or 2; BUY gives sl = Close − 1.5·atr and tp = Close + 2·atr; SELL gives the mirror image; for atr > 0 the levels straddle the close; the target is always 4/3 as far from the close as the stop, on the other side |
| Backtester.Resolve | src/backtester.py:71-94 | long: SL iff next low ≤ sl, TP iff not SL and next high ≥ tp; short: SL iff next high ≥ sl, TP iff not SL and next low ≤ tp; the stop has priority |
| Backtester.TradeAt | src/backtester.py:55-97 | a row opens a trade iff its label is 0 or 2; the trade records the row's index, its close as entry, and the row's computed levels |
| Backtester.Record | src/backtester.py:68-97 | a trade adds one to the trade count, appends itself to the log and the new balance to the curve, and adds one to wins + losses unless its outcome is NONE |
| Backtester.RunTo | src/backtester.py:52-97 | the loop state after rows 1 .. k−1 always has a non-empty equity curve |
| Backtester.MinOf | src/backtester.py:102 | `min` of a non-empty list is an element of it and is ≤ every element |
| Backtester.RunCounts | src/backtester.py:52-68 | after the loop, trades = log length = number of buy/sell rows from row 1 on; wins and losses count the log's TP and SL entries; wins + losses ≤ trades |
| Backtester.RecordBalance | src/backtester.py:71-94 | one trade keeps balance = 1000 · 1.02^wins · 0.985^losses |
| Backtester.ExpectedBalancePositive | src/backtester.py:42-94 | 1000 · 1.02^wins · 0.985^losses is positive for all counts |
| Backtester.RunBalance | src/backtester.py:42-43 | the final balance is 1000 · 1.02^wins · 0.985^losses, whatever the order of the outcomes |
| Backtester.RecordCurve | src/backtester.py:96 | appending after a trade keeps each curve point equal to the previous one times its outcome's factor, and the last point equal to the balance |
| Backtester.ExtendCurve | src/backtester.py:96-97 | appending a trade to the log and the point it leads to on the curve keeps each point equal to the previous one times its trade's factor |
| Backtester.RunCurve | src/backtester.py:44 | the curve starts at 1000, has one point per trade plus one, each point is the previous one times the trade's factor (1 for NONE), and it ends at the balance |
| Backtester.RunLog | src/backtester.py:97 | every log entry is the trade its row opens, from rows 1 .. n−1, in strictly increasing row order |
| Backtester.CurvePositive | src/backtester.py:73-90 | every equity-curve point is positive |
| Backtester.Summarize | src/backtester.py:99-113 | the summary reports the loop's trade, win and loss counts and its final balance |
| Backtester.MetricsMeaning | src/backtester.py:100-112 | accuracy·trades = 100·wins (0 with no trades); profit factor·losses = wins (wins with no losses); the drawdown is 1/10 of the drop from 1000 to the curve's lowest point; 1000 + return·10 = final balance |
| Backtester.SummaryBounds | src/backtester.py:99-113 | accuracy ∈ [0,100], drawdown ∈ [0,100), profit factor ≥ 0, final balance > 0, return > −100 %, wins + losses ≤ trades |
| Backtester.RunToStep | src/backtester.py:60-97 | a buy or sell row appends exactly the trade computed from its close, its levels and the next bar's range |
| Backtester.RunToSkip | src/backtester.py:57-62 | a hold row, or one without levels, changes no counter, curve or log |
| Backtester.LastBarNeverResolves | src/backtester.py:65-66 | on the last row with atr > 0 the outcome is NONE: the balance is unchanged but the trade is counted |
| Backtester.NoSignalsNoChange | src/backtester.py:52-62 | with no buy or sell row after row 0 the loop's state stays at its start |
| Backtester.AllHoldHasNoSignals | src/backtester.py:57-58 | an all-hold input has no buy or sell row |
| Backtester.AllHoldSummary | src/backtester.py:42-44 | all-hold input: 0 trades, final balance 1000, return 0 %, drawdown 0 % |
| Backtester.BuyTakesProfit | src/backtester.py:21-23 | BUY at close 100 with ATR 2: sl 97, tp 104; next bar high 106, low 100 gives TP and a balance of 1020 |
| Backtester.StopLossHasPriority | src/backtester.py:71-75 | the same BUY with next low 96 and high 105 is SL, not TP, and the balance is 985 |
| Backtester.FirstRowIgnored | src/backtester.py:52 | a BUY on row 0 is never traded |
| Backtester.Simulate | src/backtester.py:42-97 | the loop's balance, counters, equity curve and trade log equal the specification fold over rows 1 .. n−1 |
| Backtester.BacktestCoin | src/backtester.py:36-115 | summary, log and curve of the fold: trades = log length = curve length − 1, wins and losses count TP and SL, final balance = 1000·1.02^w·0.985^l and is the curve's last point, and the metrics are in range |
| Bars.Present | src/labeler.py:27 | `dropna` on the optional column keeps at most as many rows as it is given; every kept value was present in the column, and every present value is kept |
| Bars.PresentAppend | src/labeler.py:27 | `dropna` of two blocks in a row is the `dropna` of each, concatenated, so the kept rows keep their order |
| Bars.PresentPrefix | src/labeler.py:27 | when exactly the first n rows are present, `dropna` keeps those n rows in order with their values |
| Bars.FeatureFiles | src/labeler.py:38 | keeps exactly the listed files whose names start with "feat_" |
| Labeler.CodeRoundTrip | src/labeler.py:21-25 | the encoding HOLD 0, SELL 1, BUY 2 reads back, and a code decodes to a label iff that label encodes to it |
| Labeler.LabelFor | src/labeler.py:22-25 | SELL iff return < −threshold; BUY iff return > threshold and not SELL; HOLD iff −threshold ≤ return ≤ threshold |
| Labeler.ThresholdIsHold | src/labeler.py:24-25 | a return exactly at +threshold or −threshold is HOLD |
| Labeler.ApplyLabels | src/labeler.py:11-29 | the last future_step rows are dropped; every other row keeps its bar and order, has future close = close[i+step], return = (close[i+step] − close[i])/close[i], and that return's label |
| Labeler.Outputs | src/labeler.py:44-61 | no more files are written than there are feature files, and exactly one per feature file when every one has a Close column |
| Labeler.OutputsStep | src/labeler.py:44-61 | one more feature file appends its own labelled output iff it has a Close column, and nothing otherwise |
| Labeler.OutputsFromFeatureFiles | src/labeler.py:44-61 | each written file is "labeled_" + the name of a feature file that has Close, holding that file's labelled rows |
| Labeler.OutputNames | src/labeler.py:38 | every written file name starts with "labeled_feat_" |
| Labeler.LabelAll | src/labeler.py:35-63 | stops with no output iff no file name starts with "feat_"; otherwise writes, in order, the labelled version of each feature file that has a Close column |
| Regime.CodeInjective | src/regime.py:22-38 | the four regime codes 0–3 are distinct |
| Regime.Classify | src/regime.py:22-38 | uptrend iff ema_9 > ema_21 > ema_100; downtrend iff ema_9 < ema_21 < ema_100; otherwise chop iff atr_pct > 0.015, else range |
| Regime.TrendIgnoresVolatility | src/regime.py:23-35 | a strictly ordered bar is a trend whatever its atr_pct |
| Regime.UptrendExample | src/regime.py:23-25 | EMAs 10 > 9 > 8 give regime 1 at any volatility |
| Regime.ThresholdIsRange | src/regime.py:33-38 | atr_pct exactly 0.015 without a trend is regime 3 |
| Regime.RegimeColumn | src/regime.py:18-40 | one regime per row, each in 0..3 |
| Regime.RegimeIsPerRow | src/regime.py:20-38 | a row's regime depends only on that row |
| Regime.DetectRegime | src/regime.py:10-41 | the loop's column has one entry per row, entry i being the code of row i's first matching regime |
| Regime.Missing | src/regime.py:61-63 | lists exactly the required columns the file lacks |
| Regime.Rewrites | src/regime.py:56-70 | no more files are rewritten than given, and each rewritten file has one regime per row |
| Regime.RewritesComplete | src/regime.py:56-70 | each rewritten file is a feature file that had all four columns, with the regime column of its rows |
| Regime.AddRegimesToAll | src/regime.py:47-73 | stops iff there is no "feat_" file; otherwise rewrites, in order, exactly the feature files with no missing column |
| Predict.NormalizeSymbol | src/predict.py:46-71 | any returned symbol is in the list; no note iff the upper-cased input is listed, and then it is returned; the USD→USDT guess comes next; no symbol iff every fallback fails, with the "invalid on Binance" note |
| Predict.NormalizeIgnoresCase | src/predict.py:47 | normalising the upper-cased input gives the same result |
| Predict.UsdtGuessEndsWithUsdt | src/predict.py:54-55 | for a symbol ending in USD the guess ends in USDT and is one character longer per "USD" occurrence, since every occurrence is replaced |
| Predict.UsdFallback | src/predict.py:54-57 | an unlisted symbol ending in USD whose USDT form is listed returns that form with its note |
| Predict.ShortNameCompleted | src/predict.py:60-63 | a listed coin name + "USDT" of at most five characters is completed with its note when the earlier steps fail |
| Predict.LowercaseUsdExample | src/predict.py:47-57 | "btcusd" against ["BTCUSDT"] gives BTCUSDT with "BTCUSD not found. Using BTCUSDT." |
| Predict.ClassToSignal | src/predict.py:232-233 | 0 → SELL, 1 → BUY, 2 → HOLD, each iff; any other class is a KeyError |
| Predict.TradeLevels | src/predict.py:177-184 | BUY: (p, p − 0.006p, p + 0.012p, 2.0); SELL: (p, p + 0.006p, p − 0.012p, 2.0); placeholders iff the signal is neither |
| Predict.LevelsMatchRewardRisk | src/predict.py:178-183 | for p > 0 the levels straddle the entry and the target is twice as far as the stop, matching rr 2.0 |
| Predict.HoldHasNoLevels | src/predict.py:184 | of the mapped classes, only HOLD gets "-" levels |
| Predict.RsiPoint | src/predict.py:197-199 | RSI adds 0 iff it is in [45,55], +1 iff above 55 |
| Predict.MacdPoint | src/predict.py:202-203 | the MACD histogram adds +1 iff positive, else −1 |
| Predict.Score | src/predict.py:186-205 | the last bar's score lies in [−2, 6] |
| Predict.ScoreRange | src/predict.py:186-205 | the score is 6 iff every test is bullish, and −2 iff every test is bearish |
| Predict.TrendStrength | src/predict.py:186-205 | the accumulated score of the last bar equals the sum of its per-test points and lies in [−2, 6] |
| Predict.TrendDescription | src/predict.py:207-212 | the sentence is the signal's lead, then the score's decimal digits, then ")." |
| Predict.DescriptionScoreRoundTrip | src/predict.py:207-212 | the score written in the sentence parses back to the score |
| Predict.Filled | src/predict.py:166-170 | after the fill every required column exists, old columns keep their values, and new ones are required columns set to 0.0 |
| Predict.FilledIdempotent | src/predict.py:168-170 | filling twice is filling once |
| Predict.FeatureRow.FillMissing | src/predict.py:168-170 | the row's columns become the fill of the old columns |
| Predict.FeatureRow.SafeScaleInput | src/predict.py:166-171 | the vector passed to the scaler has one entry per required column, in its order: 0.0 for a missing column, the old value otherwise |
| TrainAll.CodeInjective | src/train_all.py:69-71 | the encoding SELL 0, HOLD 1, BUY 2 is one-to-one |
| TrainAll.LabelFor | src/train_all.py:69-71 | BUY iff return ≥ buy_th; SELL iff return ≤ sell_th and not BUY; HOLD iff strictly between |
| TrainAll.DefaultBoundariesInclusive | src/train_all.py:59 | with the defaults, exactly +0.3 % is BUY and exactly −0.3 % is SELL |
| TrainAll.LabelCoin | src/train_all.py:67-73 | the last horizon rows are dropped; every other row keeps its bar and order, with return close[i+h]/close[i] − 1 and its label |
| TrainAll.Merged | src/train_all.py:63-76 | the merged frame's length is the sum of the rows each coin keeps |
| TrainAll.MergedLayout | src/train_all.py:63-76 | each coin's rows follow the previous coins' rows in COINS order |
| TrainAll.Concat | src/train_all.py:76 | `pd.concat` is at least as long as each part, and empty iff every part is empty |
| TrainAll.LabelAll | src/train_all.py:59-79 | the merged result is the coins' labelled frames concatenated in COINS order, of total length the sum of the parts; horizon and thresholds default to 3 and ±0.3 % |
| Dashboard.GetTrend | CryptoPre13/CryptoPre13.py:58-59 | BUY iff last ema9 > last ema21; SELL otherwise, including a tie; an empty frame raises |
| Dashboard.TrendCell | CryptoPre13/CryptoPre13.py:64-70 | ERR iff the fetch or the trend raised; otherwise the trend |
| Dashboard.MultiTfHeatmap | CryptoPre13/CryptoPre13.py:61-74 | one (interval, cell) row per requested interval in input order, each cell from that interval's fetch only; the intervals default to the six of the source |
| Dashboard.FailureIsLocal | CryptoPre13/CryptoPre13.py:64-72 | an interval's cell depends only on its own fetch; a failed fetch is ERR |
| Dashboard.SentimentOf | CryptoPre13/CryptoPre13.py:102-107 | bullish iff positive > negative, bearish iff negative > positive, neutral iff equal |
| Dashboard.SliceTo | CryptoPre13/CryptoPre13.py:92 | `posts[:limit]` is a prefix of the posts: of length min(limit, n) for limit ≥ 0, and n + limit (at least 0) for a negative limit |
| Dashboard.Shape | CryptoPre13/CryptoPre13.py:93-115 | published is the first at most 10 characters of published_at; the sentiment is that of the votes, with missing counts as 0 |
| Dashboard.NoVotesNeutral | CryptoPre13/CryptoPre13.py:98-100 | a post without votes is neutral |
| Dashboard.CoinCode | CryptoPre13/CryptoPre13.py:82 | every "USDT" removed shortens the symbol by four characters; a symbol without "USDT" is unchanged |
| Dashboard.CoinCodeStripsQuote | CryptoPre13/CryptoPre13.py:82 | a trailing USDT is stripped |
| Dashboard.GetCryptoNews | CryptoPre13/CryptoPre13.py:80-117 | a failed fetch gives []; otherwise one shaped record per post of posts[:limit], in feed order, so at most limit items for limit ≥ 0; the limit defaults to 7 |
| Encodings.LabelerCodesInBacktester | src/backtester.py:21-28 | the labeler's HOLD (0) opens a short in the backtester, its SELL (1) is skipped, its BUY (2) opens a long |
| Encodings.TrainAllCodesInBacktester | src/train_all.py:69-71 | the training codes and the backtester's agree: a trade iff not HOLD, long iff BUY, short iff SELL |
| Encodings.LabelerClassesInPredictor | src/predict.py:232-233 | the class table names every labeler class wrongly: HOLD → SELL, SELL → BUY, BUY → HOLD |
| Encodings.TrainAllClassesInPredictor | src/predict.py:232-233 | against the training codes the table gets SELL right and swaps HOLD and BUY |
| Encodings.SameFutureReturn | src/train_all.py:67 | the arithmetic step: (c' − c)/c = c'/c − 1 for c > 0 |
| Encodings.SameReturnAtSameHorizon | src/train_all.py:67 | at the same horizon, row i of the labeler's frame and of the training frame are the same bar with the same future return, and the frames have the same length |
| Encodings.ThresholdsDisagree | src/labeler.py:11 | +0.25 % is BUY for the labeler but HOLD in training; +0.3 % is BUY in training |
| Text.Upper | src/predict.py:47 | same length, each character upper-cased, no lower-case letter left |
| Text.UpperIdempotent | src/predict.py:47 | upper-casing twice is upper-casing once |
| Text.ReplaceAll | src/predict.py:55 | replacing a pattern by itself leaves the string unchanged |
| Text.ReplaceAllLength | src/predict.py:55 | `replace` changes the length by len(rep) − len(pat) per non-overlapping occurrence |
| Text.ReplaceAllAbsent | CryptoPre13/CryptoPre13.py:82 | a string without the pattern is unchanged |
| Text.ReplaceAllAppend | CryptoPre13/CryptoPre13.py:82 | for a pattern that cannot overlap itself, replacing in x + pat gives the replacement of x followed by rep |
| Text.NatToString | src/predict.py:209 | the decimal text of a natural number is non-empty and all digits |
| Text.NatToStringRoundTrip | src/predict.py:209 | decimal text of a natural number reads back as that number |
| Text.IntToStringRoundTrip | src/predict.py:209-212 | an f-string integer, with its minus sign, reads back as that integer |

## Left out

- File and network I/O is left out: CSV reads and writes, `os.listdir` (its arbitrary order is taken as the given sequence), `os.makedirs`, every `print`, HTTP requests and the Binance symbol list fetched at import. Fetches and listings are parameters.
- `run_all_backtests` and the matplotlib equity plot (src/backtester.py:119-164) are left out: they are file iteration and presentation.
- `dropna` in the backtester (src/backtester.py:40) is taken as already applied: rows are complete records.
- `dropna` in the labellers is modelled only for the missing future value. Rows with gaps in other columns are outside the model, because bars are complete records.
- Indicator computation (`ema`, `rsi`, `macd`, `macd_hist`, `atr`, `build_features`, `add_indicators`) is left out: it is pandas/`ta` floating-point code. Indicator columns are inputs.
- XGBoost training and inference, `load_assets`, `scaler.transform` and `difflib.get_close_matches` are left out: they are foreign library calls. The classifier output enters as an integer class, and `get_close_matches` is an oracle that proposes only listed symbols. `predict_signal`'s chain of the modelled helpers is not modelled as one function.
- Float rounding, NaN and infinity are left out. Numbers are exact reals.
- Labeler.ApplyLabels: requires every close to be positive. A zero close makes Python divide to inf or NaN, which reals cannot represent.
- TrainAll.LabelCoin: requires every close to be positive, for the same reason.
- Labeler.LabelAll: requires positive closes in each "feat_" file that has a Close column, that is, in each file it labels, for the same reason.
- TrainAll.LabelAll: takes each coin's feature rows from a map keyed by coin name, instead of the path `data/processed/feat_<coin>.csv`. It requires every coin to be present, because a missing file raises.
- Predict.TrendStrength: requires a non-empty frame, because `iloc[-1]` on an empty frame raises.
- Text.Upper: upper-cases ASCII letters only. Python's `str.upper` also maps other alphabets, which exchange symbols do not use.
- Dashboard.Shape: the sentiment is a three-value type. The emoji prefixes of the displayed strings are presentation.
- Dashboard.GetCryptoNews: a post whose `source` or `votes` field is present but not a mapping would raise in Python. The model takes posts as already parsed.
- The Streamlit and Plotly interface (CryptoPre13/CryptoPre13.py:123-244) is left out: it is presentation.
- src/pineline.py, src/features.py, src/downloader.py, src/binance_downloader.py, `download_all`, `add_features_to_all` and `train_model` are left out. They are process orchestration and fetch-and-save plumbing, and none of them is part of this model.
