/** The forward-return labeller of `src/labeler.py`: strict thresholds on
    the return `future_step` bars ahead, then `dropna`. */
module Labeler {
  import opened Wrappers
  import opened Text
  import opened Bars

  const DefaultFutureStep: nat := 1
  const DefaultThreshold: real := 0.002

  /** The `LABEL` column's values in this file. */
  datatype Label = Hold | Sell | Buy

  /** This file's encoding: 0 = HOLD, 1 = SELL, 2 = BUY. */
  function Code(l: Label): (c: int)
    ensures 0 <= c <= 2
  {
    match l
    case Hold => 0
    case Sell => 1
    case Buy => 2
  }

  function FromCode(c: int): Option<Label>
  {
    if c == 0 then Some(Hold) else if c == 1 then Some(Sell) else if c == 2 then Some(Buy) else None
  }

  /** The encoding is one-to-one and reads back. */
  lemma CodeRoundTrip(l: Label, c: int)
    ensures FromCode(Code(l)) == Some(l)
    ensures FromCode(c) == Some(l) <==> Code(l) == c
  {
  }

  /** A surviving row: the original bar plus the columns the labeller adds. */
  datatype LabeledBar = LabeledBar(bar: Bar, futureClose: real, futureReturn: real, category: Label)

  /** The two masked writes: the default is HOLD, the BUY mask is written
      first and the SELL mask last, so SELL wins where both match. */
  function LabelFor(futureReturn: real, threshold: real): (l: Label)
    ensures l == Sell <==> futureReturn < -threshold
    ensures l == Buy <==> futureReturn > threshold && futureReturn >= -threshold
    ensures l == Hold <==> -threshold <= futureReturn <= threshold
  {
    var initial := Hold;
    var afterBuy := if futureReturn > threshold then Buy else initial;
    if futureReturn < -threshold then Sell else afterBuy
  }

  /** A return exactly at either threshold is HOLD. */
  lemma ThresholdIsHold(threshold: real)
    requires threshold >= 0.0
    ensures LabelFor(threshold, threshold) == Hold
    ensures LabelFor(-threshold, threshold) == Hold
  {
  }

  /** Row `i` as the column expressions leave it: `None` where the shifted
      close is missing (NaN), so that `dropna` removes it. */
  function Candidate(rows: seq<Bar>, i: nat, futureStep: nat, threshold: real): Option<LabeledBar>
    requires i < |rows| && rows[i].close > 0.0
  {
    if i + futureStep < |rows| then
      var futureClose := rows[i + futureStep].close;
      var futureReturn := (futureClose - rows[i].close) / rows[i].close;
      Some(LabeledBar(rows[i], futureClose, futureReturn, LabelFor(futureReturn, threshold)))
    else None
  }

  /** Surviving row `i`: bar `i` unchanged, its close `futureStep` bars
      later, the relative change to it and the label of that change. */
  predicate LabeledRow(rows: seq<Bar>, futureStep: nat, threshold: real, i: int, lb: LabeledBar)
  {
    && 0 <= i
    && i + futureStep < |rows|
    && rows[i].close > 0.0
    && lb.bar == rows[i]
    && lb.futureClose == rows[i + futureStep].close
    && lb.futureReturn == (rows[i + futureStep].close - rows[i].close) / rows[i].close
    && lb.category == LabelFor(lb.futureReturn, threshold)
  }

  /** `apply_labels`: the last `futureStep` rows have no future close and
      are dropped; every other row survives, in order, with its columns
      untouched and its return and label added. */
  function ApplyLabels(rows: seq<Bar>, futureStep: nat, threshold: real): (r: seq<LabeledBar>)
    requires PositiveCloses(rows)
    ensures |r| == if futureStep <= |rows| then |rows| - futureStep else 0
    ensures forall i :: 0 <= i < |r| ==> LabeledRow(rows, futureStep, threshold, i, r[i])
  {
    var columns := seq(|rows|, i requires 0 <= i < |rows| => Candidate(rows, i, futureStep, threshold));
    var n := if futureStep <= |rows| then |rows| - futureStep else 0;
    PresentPrefix(columns, n);
    Present(columns)
  }

  /** One output file of `label_all`. */
  datatype LabeledFile = LabeledFile(name: string, rows: seq<LabeledBar>)

  /** What `label_all` does to a directory: stop when there is no feature
      file, otherwise write the files below. */
  datatype LabelRun = NoFeatureFiles | Written(files: seq<LabeledFile>)

  predicate HasClose(f: FeatureFile)
  {
    "Close" in f.columns
  }

  /** The files written for the feature files `files`, in order: those
      without a `Close` column are skipped, the others are labelled with the
      defaults and written as "labeled_" + name. */
  function Outputs(files: seq<FeatureFile>): (r: seq<LabeledFile>)
    requires forall f :: f in files && HasClose(f) ==> PositiveCloses(f.rows)
    ensures |r| <= |files|
    ensures (forall f :: f in files ==> HasClose(f)) ==> |r| == |files|
  {
    if files == [] then []
    else
      var last := files[|files| - 1];
      assert forall f :: f in files[..|files| - 1] ==> f in files;
      var done := Outputs(files[..|files| - 1]);
      if HasClose(last) then done + [LabeledFile("labeled_" + last.name, ApplyLabels(last.rows, DefaultFutureStep, DefaultThreshold))]
      else done
  }

  /** Each written file is named after a feature file that has `Close`, and
      holds that file's labelled rows. */
  lemma {:induction false} OutputsFromFeatureFiles(files: seq<FeatureFile>)
    requires forall f :: f in files && HasClose(f) ==> PositiveCloses(f.rows)
    ensures forall o :: o in Outputs(files) ==>
      exists f :: f in files && HasClose(f) && o == LabeledFile("labeled_" + f.name, ApplyLabels(f.rows, DefaultFutureStep, DefaultThreshold))
  {
    if files != [] {
      var init := files[..|files| - 1];
      assert forall f :: f in init ==> f in files;
      OutputsFromFeatureFiles(init);
    }
  }

  /** Labelling feature files writes "labeled_feat_…" files only. */
  lemma {:induction false} OutputNames(files: seq<FeatureFile>)
    requires forall f :: f in files ==> StartsWith(f.name, "feat_")
    requires forall f :: f in files && HasClose(f) ==> PositiveCloses(f.rows)
    ensures forall o :: o in Outputs(files) ==> StartsWith(o.name, "labeled_feat_")
  {
    if files != [] {
      var last := files[|files| - 1];
      var init := files[..|files| - 1];
      assert forall f :: f in init ==> f in files;
      OutputNames(init);
      StartsWithConcat("labeled_", last.name, "feat_");
    }
  }

  /** One more feature file adds at most its own labelled output. */
  lemma OutputsStep(files: seq<FeatureFile>, k: nat)
    requires k < |files|
    requires forall f :: f in files && HasClose(f) ==> PositiveCloses(f.rows)
    ensures forall f :: f in files[..k] && HasClose(f) ==> PositiveCloses(f.rows)
    ensures Outputs(files[..k + 1]) == Outputs(files[..k]) +
      if HasClose(files[k]) then [LabeledFile("labeled_" + files[k].name, ApplyLabels(files[k].rows, DefaultFutureStep, DefaultThreshold))]
      else []
  {
    assert files[..k + 1][..k] == files[..k];
    assert forall f :: f in files[..k] ==> f in files;
  }

  /** `label_all` over a directory listing. */
  method LabelAll(dir: seq<FeatureFile>) returns (run: LabelRun)
    requires forall f :: f in dir && StartsWith(f.name, "feat_") && HasClose(f) ==> PositiveCloses(f.rows)
    ensures run == NoFeatureFiles <==> FeatureFiles(dir) == []
    ensures run.Written? ==> run.files == Outputs(FeatureFiles(dir))
    ensures run.Written? ==> forall o :: o in run.files ==> StartsWith(o.name, "labeled_feat_")
  {
    var files := FeatureFiles(dir);
    if files == [] {
      return NoFeatureFiles;
    }
    assert forall f :: f in files && HasClose(f) ==> PositiveCloses(f.rows);
    var written: seq<LabeledFile> := [];
    for k := 0 to |files|
      invariant written == Outputs(files[..k])
    {
      var file := files[k];
      OutputsStep(files, k);
      if HasClose(file) {
        var labeled := ApplyLabels(file.rows, DefaultFutureStep, DefaultThreshold);
        written := written + [LabeledFile("labeled_" + file.name, labeled)];
      }
    }
    assert files[..|files|] == files;
    OutputNames(files);
    run := Written(written);
  }
}
