/**
 * `compute_single_splicing_dependency`: the bootstrap ensemble of linear
 * predictions for one (event, gene) pair and its per-sample summaries.
 */
module Ensemble {
  import opened Basics
  import opened Tables
  import opened OrderStats

  /**
   * The ensemble prediction for one sample: draw `k` predicts
   * `bIntercept[k] + bEvent[k] * psi + bGene[k] * tpm`.
   */
  function Predictions(bEvent: seq<real>, bGene: seq<real>, bIntercept: seq<real>, psi: real, tpm: real): (ys: seq<real>)
    requires |bEvent| == |bGene| == |bIntercept|
    ensures |ys| == |bEvent|
    ensures forall k :: 0 <= k < |ys| ==> ys[k] == bIntercept[k] + bEvent[k] * psi + bGene[k] * tpm
  {
    seq(|bEvent|, k requires 0 <= k < |bEvent| => bIntercept[k] + bEvent[k] * psi + bGene[k] * tpm)
  }

  /**
   * The K-by-S prediction matrix obtained by broadcasting the K-long
   * coefficient columns against the S-long PSI and expression rows.
   */
  function PredictionMatrix(bEvent: seq<real>, bGene: seq<real>, bIntercept: seq<real>, psi: seq<real>, tpm: seq<real>): (y: seq<seq<real>>)
    requires |bEvent| == |bGene| == |bIntercept| && |psi| == |tpm|
    ensures |y| == |bEvent|
    ensures forall k :: 0 <= k < |y| ==> |y[k]| == |psi|
    ensures forall k, j :: 0 <= k < |y| && 0 <= j < |psi| ==> y[k][j] == bIntercept[k] + bEvent[k] * psi[j] + bGene[k] * tpm[j]
  {
    seq(|bEvent|, k requires 0 <= k < |bEvent| =>
      seq(|psi|, j requires 0 <= j < |psi| => bIntercept[k] + bEvent[k] * psi[j] + bGene[k] * tpm[j]))
  }

  /** Column `j` of a matrix given as a sequence of rows. */
  function Column(y: seq<seq<real>>, j: nat): (c: seq<real>)
    requires forall k :: 0 <= k < |y| ==> j < |y[k]|
    ensures |c| == |y|
    ensures forall k :: 0 <= k < |y| ==> c[k] == y[k][j]
  {
    seq(|y|, k requires 0 <= k < |y| => y[k][j])
  }

  /** Reducing the matrix along its first axis sees, for sample `j`, exactly the ensemble prediction of that sample. */
  lemma ColumnIsPrediction(bEvent: seq<real>, bGene: seq<real>, bIntercept: seq<real>, psi: seq<real>, tpm: seq<real>, j: nat)
    requires |bEvent| == |bGene| == |bIntercept| && |psi| == |tpm| && j < |psi|
    ensures Column(PredictionMatrix(bEvent, bGene, bIntercept, psi, tpm), j)
         == Predictions(bEvent, bGene, bIntercept, psi[j], tpm[j])
  {
  }

  /** The five reductions of one sample's predictions; `variance` is the square of `numpy.std`. */
  datatype Summary = Summary(mean: real, median: real, variance: real, q25: real, q75: real)

  /** Summarise the K predictions of one sample. */
  function Summarize(ys: seq<real>): (r: Summary)
    requires |ys| > 0
    ensures Min(ys) <= r.q25 <= r.median <= r.q75 <= Max(ys)
    ensures Min(ys) <= r.mean <= Max(ys)
    ensures r.variance >= 0.0
  {
    QuartilesOrdered(ys);
    MeanBounds(ys);
    Summary(Mean(ys), Median(ys), PopVariance(ys), Quantile(ys, 0.25), Quantile(ys, 0.75))
  }

  /**
   * The summaries of one pair: five vectors indexed by the samples of the
   * PSI row, in that order, labelled with the event.
   */
  datatype PairSummary = PairSummary(
    event: EventId, samples: seq<SampleId>,
    mean: seq<real>, median: seq<real>, variance: seq<real>, q25: seq<real>, q75: seq<real>)

  /** The K predictions of sample `j` of a pair. */
  function SamplePredictions(bEvent: seq<real>, bGene: seq<real>, bIntercept: seq<real>, psi: seq<real>, tpm: seq<real>, j: nat): seq<real>
    requires |bEvent| == |bGene| == |bIntercept| && |psi| == |tpm| && j < |psi|
  {
    Predictions(bEvent, bGene, bIntercept, psi[j], tpm[j])
  }

  /** The three coefficient vectors have one entry per draw and the two rows one entry per sample. */
  predicate ShapesAgree(bEvent: seq<real>, bGene: seq<real>, bIntercept: seq<real>, psi: seq<real>, tpm: seq<real>) {
    |bEvent| == |bGene| == |bIntercept| && |psi| == |tpm|
  }

  /**
   * Evaluate one pair. Arrays whose lengths do not broadcast raise, and so
   * does an ensemble without draws (a quantile of nothing).
   */
  function EvaluatePair(
    event: EventId, ensembl: GeneId, samples: seq<SampleId>,
    bEvent: seq<real>, bGene: seq<real>, bIntercept: seq<real>, psi: seq<real>, tpm: seq<real>
  ): (r: Result<PairSummary, Fault>)
    requires |psi| == |samples|
    ensures r.Ok? <==> ShapesAgree(bEvent, bGene, bIntercept, psi, tpm) && |bEvent| > 0
    ensures r.Err? ==> r.error == (if ShapesAgree(bEvent, bGene, bIntercept, psi, tpm) then EmptyEnsemble(event, ensembl) else ShapeMismatch(event, ensembl))
    ensures r.Ok? ==> r.value.event == event && r.value.samples == samples
    ensures r.Ok? ==> var p := r.value;
      |p.mean| == |p.median| == |p.variance| == |p.q25| == |p.q75| == |samples|
    ensures r.Ok? ==> forall j :: 0 <= j < |samples| ==>
      var ys := SamplePredictions(bEvent, bGene, bIntercept, psi, tpm, j);
      && Min(ys) <= r.value.q25[j] <= r.value.median[j] <= r.value.q75[j] <= Max(ys)
      && Min(ys) <= r.value.mean[j] <= Max(ys)
      && r.value.variance[j] >= 0.0
  {
    if !ShapesAgree(bEvent, bGene, bIntercept, psi, tpm) then Err(ShapeMismatch(event, ensembl))
    else if |bEvent| == 0 then Err(EmptyEnsemble(event, ensembl))
    else
      var sums := seq(|psi|, j requires 0 <= j < |psi| => Summarize(SamplePredictions(bEvent, bGene, bIntercept, psi, tpm, j)));
      Ok(PairSummary(
        event, samples,
        seq(|sums|, j requires 0 <= j < |sums| => sums[j].mean),
        seq(|sums|, j requires 0 <= j < |sums| => sums[j].median),
        seq(|sums|, j requires 0 <= j < |sums| => sums[j].variance),
        seq(|sums|, j requires 0 <= j < |sums| => sums[j].q25),
        seq(|sums|, j requires 0 <= j < |sums| => sums[j].q75)))
  }

  /**
   * The summaries of a successful evaluation are those of the matching
   * column of the prediction matrix, reduced by numpy's mean, median, std
   * (squared) and linear quantile.
   */
  lemma EvaluatePairColumns(
    event: EventId, ensembl: GeneId, samples: seq<SampleId>,
    bEvent: seq<real>, bGene: seq<real>, bIntercept: seq<real>, psi: seq<real>, tpm: seq<real>, j: nat)
    requires |psi| == |samples| && ShapesAgree(bEvent, bGene, bIntercept, psi, tpm) && |bEvent| > 0 && j < |samples|
    ensures
      var r := EvaluatePair(event, ensembl, samples, bEvent, bGene, bIntercept, psi, tpm);
      var c := Column(PredictionMatrix(bEvent, bGene, bIntercept, psi, tpm), j);
      && r.value.mean[j] == Mean(c) && r.value.median[j] == Median(c) && r.value.variance[j] == PopVariance(c)
      && r.value.q25[j] == Quantile(c, 0.25) && r.value.q75[j] == Quantile(c, 0.75)
  {
    ColumnIsPrediction(bEvent, bGene, bIntercept, psi, tpm, j);
  }

  /** Sums distribute over the terms of the linear prediction. */
  lemma {:induction false} SumPredictions(bEvent: seq<real>, bGene: seq<real>, bIntercept: seq<real>, psi: real, tpm: real)
    requires |bEvent| == |bGene| == |bIntercept|
    ensures Sum(Predictions(bEvent, bGene, bIntercept, psi, tpm)) == Sum(bIntercept) + Sum(bEvent) * psi + Sum(bGene) * tpm
  {
    if |bEvent| > 0 {
      PredictionsTail(bEvent, bGene, bIntercept, psi, tpm);
      SumPredictions(bEvent[1..], bGene[1..], bIntercept[1..], psi, tpm);
      Distribute(bEvent[0], Sum(bEvent[1..]), psi);
      Distribute(bGene[0], Sum(bGene[1..]), tpm);
    }
  }

  lemma PredictionsTail(bEvent: seq<real>, bGene: seq<real>, bIntercept: seq<real>, psi: real, tpm: real)
    requires |bEvent| == |bGene| == |bIntercept| && |bEvent| > 0
    ensures var ys := Predictions(bEvent, bGene, bIntercept, psi, tpm);
      Sum(ys) == bIntercept[0] + bEvent[0] * psi + bGene[0] * tpm + Sum(Predictions(bEvent[1..], bGene[1..], bIntercept[1..], psi, tpm))
  {
    var ys := Predictions(bEvent, bGene, bIntercept, psi, tpm);
    var tail := Predictions(bEvent[1..], bGene[1..], bIntercept[1..], psi, tpm);
    assert |ys[1..]| == |tail|;
    forall k | 0 <= k < |tail| ensures ys[1..][k] == tail[k] {
      assert ys[k + 1] == bIntercept[k + 1] + bEvent[k + 1] * psi + bGene[k + 1] * tpm;
    }
    assert ys[1..] == tail;
  }

  lemma Distribute(a: real, b: real, c: real)
    ensures (a + b) * c == a * c + b * c
  {
  }

  /**
   * The ensemble mean of a sample is the prediction made with the mean
   * coefficients: averaging the draws first or the predictions first agree.
   */
  lemma MeanIsMeanModel(bEvent: seq<real>, bGene: seq<real>, bIntercept: seq<real>, psi: real, tpm: real)
    requires |bEvent| == |bGene| == |bIntercept| && |bEvent| > 0
    ensures Mean(Predictions(bEvent, bGene, bIntercept, psi, tpm)) == Mean(bIntercept) + Mean(bEvent) * psi + Mean(bGene) * tpm
  {
    SumPredictions(bEvent, bGene, bIntercept, psi, tpm);
    DivideLinear(Sum(Predictions(bEvent, bGene, bIntercept, psi, tpm)), Sum(bIntercept), Sum(bEvent), Sum(bGene),
      psi, tpm, |bEvent| as real,
      Mean(Predictions(bEvent, bGene, bIntercept, psi, tpm)), Mean(bIntercept), Mean(bEvent), Mean(bGene));
  }

  /** Dividing a linear combination by the count divides each coefficient. */
  lemma DivideLinear(total: real, x: real, y: real, z: real, p: real, t: real, n: real, m: real, mx: real, my: real, mz: real)
    requires n > 0.0 && total == x + y * p + z * t
    requires m == total / n && mx == x / n && my == y / n && mz == z / n
    ensures m == mx + my * p + mz * t
  {
    assert total == (mx + my * p + mz * t) * n;
  }

  /**
   * When every draw has the same coefficients, every summary of a sample is
   * that one prediction and the spread is zero.
   */
  lemma ConstantDraws(
    event: EventId, ensembl: GeneId, samples: seq<SampleId>,
    bEvent: seq<real>, bGene: seq<real>, bIntercept: seq<real>, psi: seq<real>, tpm: seq<real>,
    a: real, b: real, c: real, j: nat)
    requires |psi| == |samples| && ShapesAgree(bEvent, bGene, bIntercept, psi, tpm) && |bEvent| > 0 && j < |samples|
    requires AllEqual(bEvent, a) && AllEqual(bGene, b) && AllEqual(bIntercept, c)
    ensures
      var r := EvaluatePair(event, ensembl, samples, bEvent, bGene, bIntercept, psi, tpm);
      var y := c + a * psi[j] + b * tpm[j];
      && r.value.mean[j] == y && r.value.median[j] == y
      && r.value.q25[j] == y && r.value.q75[j] == y
      && r.value.variance[j] == 0.0
  {
    var ys := SamplePredictions(bEvent, bGene, bIntercept, psi, tpm, j);
    var y := c + a * psi[j] + b * tpm[j];
    assert AllEqual(ys, y) by {
      forall k | 0 <= k < |ys| ensures ys[k] == y {
        assert bEvent[k] == a && bGene[k] == b && bIntercept[k] == c;
        assert ys[k] == bIntercept[k] + bEvent[k] * psi[j] + bGene[k] * tpm[j];
      }
    }
    ConstantSummary(ys, y);
  }

  /** The predictions of the worked case below, already in order. */
  lemma WorkedPredictions()
    ensures Column(PredictionMatrix([1.0, 2.0, 3.0], [0.0, 0.0, 0.0], [0.0, 0.0, 0.0], [0.5], [0.0]), 0) == [0.5, 1.0, 1.5]
  {
    var ys := Column(PredictionMatrix([1.0, 2.0, 3.0], [0.0, 0.0, 0.0], [0.0, 0.0, 0.0], [0.5], [0.0]), 0);
    assert ys[0] == 0.5 && ys[1] == 1.0 && ys[2] == 1.5;
  }

  lemma WorkedSummaries()
    ensures
      var r := EvaluatePair("E", "G", ["S"], [1.0, 2.0, 3.0], [0.0, 0.0, 0.0], [0.0, 0.0, 0.0], [0.5], [0.0]);
      var ys := [0.5, 1.0, 1.5];
      && r.Ok? && |r.value.mean| == |r.value.median| == |r.value.variance| == |r.value.q25| == |r.value.q75| == 1
      && r.value.mean[0] == Mean(ys) && r.value.median[0] == Median(ys) && r.value.variance[0] == PopVariance(ys)
      && r.value.q25[0] == Quantile(ys, 0.25) && r.value.q75[0] == Quantile(ys, 0.75)
  {
    WorkedPredictions();
    EvaluatePairColumns("E", "G", ["S"], [1.0, 2.0, 3.0], [0.0, 0.0, 0.0], [0.0, 0.0, 0.0], [0.5], [0.0], 0);
  }

  lemma WorkedMoments()
    ensures Mean([0.5, 1.0, 1.5]) == 1.0
    ensures PopVariance([0.5, 1.0, 1.5]) == 1.0 / 6.0
  {
    var ys := [0.5, 1.0, 1.5];
    assert ys[1..] == [1.0, 1.5] && ys[1..][1..] == [1.5] && ys[1..][1..][1..] == [];
    assert Sum(ys) == 3.0;
    assert SumSq(ys, 1.0) == 0.5;
  }

  lemma WorkedQuantiles()
    ensures Median([0.5, 1.0, 1.5]) == 1.0
    ensures Quantile([0.5, 1.0, 1.5], 0.25) == 0.75
    ensures Quantile([0.5, 1.0, 1.5], 0.75) == 1.25
  {
    WorkedMedian();
    WorkedLowerQuartile();
    WorkedUpperQuartile();
  }

  lemma WorkedMedian()
    ensures Median([0.5, 1.0, 1.5]) == 1.0
  {
    var ys := [0.5, 1.0, 1.5];
    assert Sorted(ys);
    MedianOfSorted(ys);
  }

  lemma WorkedLowerQuartile()
    ensures Quantile([0.5, 1.0, 1.5], 0.25) == 0.75
  {
    var ys := [0.5, 1.0, 1.5];
    assert Interpolate(ys, VirtualIndex(3, 0.25)) == 0.75 by {
      assert VirtualIndex(3, 0.25) == 0.5;
      assert (0.5).Floor == 0;
    }
    assert Sorted(ys);
    QuantileOfSorted(ys, 0.25);
  }

  lemma WorkedUpperQuartile()
    ensures Quantile([0.5, 1.0, 1.5], 0.75) == 1.25
  {
    var ys := [0.5, 1.0, 1.5];
    assert Interpolate(ys, VirtualIndex(3, 0.75)) == 1.25 by {
      assert VirtualIndex(3, 0.75) == 1.5;
      assert (1.5).Floor == 1;
    }
    assert Sorted(ys);
    QuantileOfSorted(ys, 0.75);
  }

  /** On an ascending sequence of odd length the median is the middle element. */
  lemma MedianOfSorted(s: seq<real>)
    requires Sorted(s) && |s| % 2 == 1
    ensures Median(s) == s[|s| / 2]
  {
    SortSorted(s);
  }

  /** On an ascending sequence a quantile interpolates the sequence itself. */
  lemma QuantileOfSorted(s: seq<real>, q: real)
    requires Sorted(s) && |s| > 0 && 0.0 <= q <= 1.0
    ensures Quantile(s, q) == Interpolate(s, VirtualIndex(|s|, q))
  {
    SortSorted(s);
  }

  /**
   * A worked case: draws with event coefficients 1, 2 and 3 and no gene or
   * intercept term, at PSI 0.5, predict 0.5, 1.0 and 1.5, whose mean and
   * median are 1.0, quartiles 0.75 and 1.25 and variance 1/6.
   */
  lemma WorkedExample()
    ensures
      var r := EvaluatePair("E", "G", ["S"], [1.0, 2.0, 3.0], [0.0, 0.0, 0.0], [0.0, 0.0, 0.0], [0.5], [0.0]);
      && r.Ok?
      && r.value.mean == [1.0] && r.value.median == [1.0]
      && r.value.q25 == [0.75] && r.value.q75 == [1.25]
      && r.value.variance == [1.0 / 6.0]
  {
    var r := EvaluatePair("E", "G", ["S"], [1.0, 2.0, 3.0], [0.0, 0.0, 0.0], [0.0, 0.0, 0.0], [0.5], [0.0]);
    WorkedSummaries();
    WorkedMoments();
    WorkedQuantiles();
    SingletonSeq(r.value.mean, 1.0);
    SingletonSeq(r.value.median, 1.0);
    SingletonSeq(r.value.q25, 0.75);
    SingletonSeq(r.value.q75, 1.25);
    SingletonSeq(r.value.variance, 1.0 / 6.0);
  }

  lemma SingletonSeq(xs: seq<real>, x: real)
    requires |xs| == 1 && xs[0] == x
    ensures xs == [x]
  {
  }
}
