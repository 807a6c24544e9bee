/** The bar records the scripts read from their CSV files, already parsed,
    and the `dropna` step that removes rows with a missing value. */
module Bars {
  import opened Wrappers
  import opened Text

  /** One candle with the indicator columns the feature stage adds. */
  datatype Bar = Bar(
    open: real, high: real, low: real, close: real, volume: real,
    ema9: real, ema21: real, ema50: real, ema100: real,
    rsi: real, macdHist: real, atr: real, atrPct: real)

  /** A CSV file under the data directory: its name, the columns its header
      declares, and its rows. */
  datatype FeatureFile = FeatureFile(name: string, columns: set<string>, rows: seq<Bar>)

  predicate PositiveCloses(rows: seq<Bar>)
  {
    forall i :: 0 <= i < |rows| ==> rows[i].close > 0.0
  }

  /** `dropna()` over rows whose only possibly-missing value is the one held
      in the option: the present rows, in order (`PresentAppend`), and
      exactly those. */
  function Present<T>(xs: seq<Option<T>>): (r: seq<T>)
    ensures |r| <= |xs|
    ensures forall i :: 0 <= i < |r| ==> Some(r[i]) in xs
    ensures forall j :: 0 <= j < |xs| && xs[j].Some? ==> xs[j].value in r
  {
    if xs == [] then []
    else
      var rest := Present(xs[1..]);
      assert forall j :: 1 <= j < |xs| ==> xs[j] == xs[1..][j - 1];
      (if xs[0].Some? then [xs[0].value] else []) + rest
  }

  /** `dropna` works row by row: dropping from two blocks one after the other
      is dropping from their concatenation, so the survivors keep their
      order. */
  lemma {:induction false} PresentAppend<T>(a: seq<Option<T>>, b: seq<Option<T>>)
    ensures Present(a + b) == Present(a) + Present(b)
  {
    if a == [] {
      assert a + b == b;
    } else {
      assert (a + b)[1..] == a[1..] + b;
      PresentAppend(a[1..], b);
    }
  }

  /** When exactly the first `n` entries are present (a shifted column is
      missing only at its tail), `dropna` keeps those `n`, in order. */
  lemma {:induction false} PresentPrefix<T>(xs: seq<Option<T>>, n: nat)
    requires n <= |xs|
    requires forall i :: 0 <= i < |xs| ==> (xs[i].Some? <==> i < n)
    ensures |Present(xs)| == n
    ensures forall i :: 0 <= i < n ==> Present(xs)[i] == xs[i].value
  {
    if xs != [] {
      if n == 0 {
        PresentPrefix(xs[1..], 0);
      } else {
        PresentPrefix(xs[1..], n - 1);
        var r := Present(xs);
        assert r == [xs[0].value] + Present(xs[1..]);
        forall i | 0 <= i < n
          ensures r[i] == xs[i].value
        {
          if i > 0 {
            assert r[i] == Present(xs[1..])[i - 1] == xs[1..][i - 1].value;
          }
        }
      }
    }
  }

  /** `[f for f in os.listdir(DATA_PATH) if f.startswith("feat_")]`, with
      the directory listing given as a sequence of parsed files. */
  function FeatureFiles(dir: seq<FeatureFile>): (r: seq<FeatureFile>)
    ensures |r| <= |dir|
    ensures forall f :: f in r ==> f in dir && StartsWith(f.name, "feat_")
    ensures forall f :: f in dir && StartsWith(f.name, "feat_") ==> f in r
  {
    if dir == [] then []
    else
      var last := dir[|dir| - 1];
      var r := FeatureFiles(dir[..|dir| - 1]);
      assert dir == dir[..|dir| - 1] + [last];
      if StartsWith(last.name, "feat_") then r + [last] else r
  }
}
