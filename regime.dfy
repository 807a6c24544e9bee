/** The market-regime detector of `src/regime.py`: a first-match
    classification of each bar on EMA ordering, then volatility. */
module Regime {
  import opened Text
  import opened Bars

  /** `atr_pct` above this is high-volatility chop. */
  const ChopThreshold: real := 0.015

  /** The four regimes, with their column codes in `Code`. */
  datatype Regime = Downtrend | Uptrend | HighVolChop | LowVolRange

  function Code(g: Regime): (c: int)
    ensures 0 <= c <= 3
  {
    match g
    case Downtrend => 0
    case Uptrend => 1
    case HighVolChop => 2
    case LowVolRange => 3
  }

  /** The four codes are distinct. */
  lemma CodeInjective(g: Regime, h: Regime)
    ensures Code(g) == Code(h) <==> g == h
  {
  }

  predicate StrictlyRising(b: Bar)
  {
    b.ema9 > b.ema21 > b.ema100
  }

  predicate StrictlyFalling(b: Bar)
  {
    b.ema9 < b.ema21 < b.ema100
  }

  /** The regime of one bar; the first test that holds decides. */
  function Classify(b: Bar): (g: Regime)
    ensures g == Uptrend <==> StrictlyRising(b)
    ensures g == Downtrend <==> StrictlyFalling(b)
    ensures g == HighVolChop <==> !StrictlyRising(b) && !StrictlyFalling(b) && b.atrPct > ChopThreshold
    ensures g == LowVolRange <==> !StrictlyRising(b) && !StrictlyFalling(b) && b.atrPct <= ChopThreshold
  {
    if StrictlyRising(b) then Uptrend
    else if StrictlyFalling(b) then Downtrend
    else if b.atrPct > ChopThreshold then HighVolChop
    else LowVolRange
  }

  /** A strictly ordered bar is a trend whatever its volatility. */
  lemma TrendIgnoresVolatility(b: Bar, atrPct: real)
    requires StrictlyRising(b) || StrictlyFalling(b)
    ensures Classify(b.(atrPct := atrPct)) == Classify(b)
    ensures Classify(b) == Uptrend || Classify(b) == Downtrend
  {
  }

  /** EMAs 10 > 9 > 8 are an uptrend at any volatility. */
  lemma UptrendExample(b: Bar)
    requires b.ema9 == 10.0 && b.ema21 == 9.0 && b.ema100 == 8.0
    ensures Classify(b) == Uptrend
    ensures Code(Classify(b)) == 1
  {
  }

  /** An `atr_pct` of exactly 0.015 is still a low-volatility range. */
  lemma ThresholdIsRange(b: Bar)
    requires !StrictlyRising(b) && !StrictlyFalling(b) && b.atrPct == ChopThreshold
    ensures Classify(b) == LowVolRange
  {
  }

  /** The `regime` column `detect_regime` adds: one code per bar. */
  function RegimeColumn(rows: seq<Bar>): (r: seq<int>)
    ensures |r| == |rows|
    ensures forall i :: 0 <= i < |r| ==> 0 <= r[i] <= 3
  {
    seq(|rows|, i requires 0 <= i < |rows| => Code(Classify(rows[i])))
  }

  /** A regime depends on its own bar only. */
  lemma RegimeIsPerRow(rows: seq<Bar>, other: seq<Bar>, i: nat)
    requires i < |rows| && i < |other| && rows[i] == other[i]
    ensures RegimeColumn(rows)[i] == RegimeColumn(other)[i]
  {
  }

  /** `detect_regime`: walks the bars, appending the first regime whose
      test holds. */
  method DetectRegime(rows: seq<Bar>) returns (regimes: seq<int>)
    ensures |regimes| == |rows|
    ensures forall i :: 0 <= i < |rows| ==> regimes[i] == Code(Classify(rows[i]))
    ensures regimes == RegimeColumn(rows)
  {
    regimes := [];
    for i := 0 to |rows|
      invariant |regimes| == i
      invariant forall k :: 0 <= k < i ==> regimes[k] == Code(Classify(rows[k]))
    {
      var b := rows[i];
      if b.ema9 > b.ema21 && b.ema21 > b.ema100 {
        regimes := regimes + [1];
      } else if b.ema9 < b.ema21 && b.ema21 < b.ema100 {
        regimes := regimes + [0];
      } else if b.atrPct > 0.015 {
        regimes := regimes + [2];
      } else {
        regimes := regimes + [3];
      }
    }
  }

  /** The columns a file needs before it is given a regime column. */
  const Required: seq<string> := ["ema_9", "ema_21", "ema_100", "atr_pct"]

  /** `[c for c in required if c not in df.columns]`. */
  function Missing(columns: set<string>, required: seq<string>): (m: seq<string>)
    ensures forall c :: c in m <==> c in required && c !in columns
  {
    if required == [] then []
    else
      var last := required[|required| - 1];
      var rest := Missing(columns, required[..|required| - 1]);
      assert required == required[..|required| - 1] + [last];
      if last !in columns then rest + [last] else rest
  }

  /** A feature file rewritten with its regime column. */
  datatype RegimeFile = RegimeFile(name: string, rows: seq<Bar>, regimes: seq<int>)

  datatype RegimeRun = NoFeatureFiles | Rewritten(files: seq<RegimeFile>)

  /** The files rewritten from the feature files `files`: any file missing
      a required column is skipped whole. */
  function Rewrites(files: seq<FeatureFile>): (r: seq<RegimeFile>)
    ensures |r| <= |files|
    ensures forall o :: o in r ==> |o.regimes| == |o.rows|
  {
    if files == [] then []
    else
      var last := files[|files| - 1];
      var done := Rewrites(files[..|files| - 1]);
      if Missing(last.columns, Required) == [] then done + [RegimeFile(last.name, last.rows, RegimeColumn(last.rows))]
      else done
  }

  /** Every rewritten file keeps its name, had all four columns, and got a
      full regime column. */
  lemma {:induction false} RewritesComplete(files: seq<FeatureFile>)
    ensures forall o :: o in Rewrites(files) ==>
      exists f :: f in files && o == RegimeFile(f.name, f.rows, RegimeColumn(f.rows))
        && (forall c :: c in Required ==> c in f.columns)
  {
    if files != [] {
      var last := files[|files| - 1];
      var init := files[..|files| - 1];
      assert forall f :: f in init ==> f in files;
      RewritesComplete(init);
    }
  }

  /** `add_regimes_to_all` over a directory listing. */
  method AddRegimesToAll(dir: seq<FeatureFile>) returns (run: RegimeRun)
    ensures run == NoFeatureFiles <==> FeatureFiles(dir) == []
    ensures run.Rewritten? ==> run.files == Rewrites(FeatureFiles(dir))
  {
    var files := FeatureFiles(dir);
    if files == [] {
      return NoFeatureFiles;
    }
    var written: seq<RegimeFile> := [];
    for k := 0 to |files|
      invariant written == Rewrites(files[..k])
    {
      var file := files[k];
      assert files[..k + 1][..k] == files[..k];
      var missing := Missing(file.columns, Required);
      if missing == [] {
        var regimes := DetectRegime(file.rows);
        written := written + [RegimeFile(file.name, file.rows, regimes)];
      }
    }
    assert files[..|files|] == files;
    run := Rewritten(written);
  }
}
