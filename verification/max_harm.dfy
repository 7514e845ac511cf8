/**
 * `compute_max_harm_score`: the largest change of an event's PSI that works
 * against the cell, weighted by its splicing dependency. An event whose
 * dependency is negative (oncogenic) is pushed towards PSI 0, one whose
 * dependency is positive (tumour suppressor) towards PSI 100.
 */
module MaxHarm {
  import opened Basics
  import opened Tables
  import opened Alignment

  /**
   * The PSI the event is pushed to: negative dependencies are set to 0 first,
   * then positive ones to 100, so a dependency of exactly 0 keeps the value 0.
   */
  function FinalPsi(dep: real): (f: real)
    ensures f == 0.0 || f == 100.0
    ensures f == 100.0 <==> dep > 0.0
  {
    if dep < 0.0 then 0.0 else if dep > 0.0 then 100.0 else dep
  }

  /**
   * The score of one cell: `(-1) * dep * (final - psi)`. Moving the PSI to
   * its final value never helps the cell, and an event without dependency
   * scores nothing.
   */
  function HarmScore(dep: real, psi: real): (h: real)
    ensures dep == 0.0 ==> h == 0.0
    ensures 0.0 <= psi <= 100.0 ==> h <= 0.0
  {
    var h := -1.0 * dep * (FinalPsi(dep) - psi);
    assert 0.0 <= psi <= 100.0 ==> h <= 0.0 by {
      if 0.0 <= psi <= 100.0 && dep < 0.0 {
        assert h == dep * psi;
        NonPositiveProduct(dep, psi);
      } else if 0.0 <= psi <= 100.0 && dep > 0.0 {
        assert h == -(dep * (100.0 - psi));
        NonPositiveProduct(-dep, 100.0 - psi);
      }
    }
    h
  }

  function Abs(x: real): real {
    if x < 0.0 then -x else x
  }

  /**
   * For PSI in [0, 100] the score is minus the size of the dependency times
   * the distance from the current PSI to the end of the range the
   * dependency's sign selects: never positive, and zero exactly when the
   * dependency is zero or the PSI already sits at that end.
   */
  lemma HarmScoreMeaning(dep: real, psi: real)
    requires 0.0 <= psi <= 100.0
    ensures dep < 0.0 ==> HarmScore(dep, psi) == -Abs(dep) * Abs(0.0 - psi)
    ensures dep > 0.0 ==> HarmScore(dep, psi) == -Abs(dep) * Abs(100.0 - psi)
    ensures dep == 0.0 ==> HarmScore(dep, psi) == 0.0
    ensures HarmScore(dep, psi) <= 0.0
    ensures HarmScore(dep, psi) == 0.0 <==> dep == 0.0 || (dep < 0.0 && psi == 0.0) || (dep > 0.0 && psi == 100.0)
  {
    if dep < 0.0 {
      assert HarmScore(dep, psi) == dep * psi;
      assert dep * psi <= 0.0 by { NonPositiveProduct(dep, psi); }
      assert dep * psi == 0.0 <==> psi == 0.0 by { ZeroProduct(dep, psi); }
    } else if dep > 0.0 {
      assert HarmScore(dep, psi) == -(dep * (100.0 - psi));
      assert dep * (100.0 - psi) >= 0.0 by { NonPositiveProduct(-dep, 100.0 - psi); }
      assert dep * (100.0 - psi) == 0.0 <==> psi == 100.0 by { ZeroProduct(dep, 100.0 - psi); }
    }
  }

  lemma NonPositiveProduct(a: real, b: real)
    requires a <= 0.0 && b >= 0.0
    ensures a * b <= 0.0
  {
    assert (-a) * b >= 0.0;
  }

  lemma ZeroProduct(a: real, b: real)
    requires a != 0.0
    ensures a * b == 0.0 <==> b == 0.0
  {
    if a * b == 0.0 {
      assert b == (a * b) / a;
    }
  }

  /** The two cases worked out in the function's documentation. */
  lemma HarmScoreExamples()
    ensures HarmScore(-2.0, 30.0) == -60.0
    ensures HarmScore(2.0, 30.0) == -140.0
    ensures HarmScore(0.0, 30.0) == 0.0
  {
  }

  /**
   * The score table over the events and samples that both tables have. As
   * in the selection step, both inputs are restricted to the same sample
   * sequence, taken in the order of the PSI columns.
   */
  function ComputeMaxHarm(psi: Table<real>, dep: Table<real>): (r: Table<real>)
    requires Dense(psi) && Dense(dep)
    ensures Dense(r)
    ensures r.rows.Keys == psi.rows.Keys * dep.rows.Keys
    ensures Elems(r.cols) == Elems(psi.cols) * Elems(dep.cols) && SubseqOf(r.cols, psi.cols)
    ensures forall e, s :: e in r.rows && s in r.cols ==>
      s in psi.rows[e] && s in dep.rows[e] && r.rows[e][s] == HarmScore(dep.rows[e][s], psi.rows[e][s])
  {
    var events := psi.rows.Keys * dep.rows.Keys;
    var samples := CommonSamples(psi.cols, dep.cols);
    var p := Restrict(psi, events, samples);
    var d := Restrict(dep, events, samples);
    Table(samples, map e | e in events :: map s | s in Elems(samples) :: HarmScore(d.rows[e][s], p.rows[e][s]))
  }

  /** Every score of a PSI table with values in [0, 100] is at most 0. */
  lemma MaxHarmNonPositive(psi: Table<real>, dep: Table<real>)
    requires Dense(psi) && Dense(dep)
    requires forall e, s :: e in psi.rows && s in psi.rows[e] ==> 0.0 <= psi.rows[e][s] <= 100.0
    ensures var r := ComputeMaxHarm(psi, dep);
      forall e, s :: e in r.rows && s in r.rows[e] ==> r.rows[e][s] <= 0.0
  {
    var r := ComputeMaxHarm(psi, dep);
    forall e, s | e in r.rows && s in r.rows[e] ensures r.rows[e][s] <= 0.0 {
      HarmScoreMeaning(dep.rows[e][s], psi.rows[e][s]);
    }
  }

  /**
   * Restricting the inputs to the common events and samples first changes
   * nothing: only cells that both tables have contribute.
   */
  lemma MaxHarmOnCommonKeys(psi: Table<real>, dep: Table<real>)
    requires Dense(psi) && Dense(dep)
    ensures
      var events := psi.rows.Keys * dep.rows.Keys;
      var samples := CommonSamples(psi.cols, dep.cols);
      ComputeMaxHarm(Restrict(psi, events, samples), Restrict(dep, events, samples)) == ComputeMaxHarm(psi, dep)
  {
    var events := psi.rows.Keys * dep.rows.Keys;
    var samples := CommonSamples(psi.cols, dep.cols);
    var p := Restrict(psi, events, samples);
    var d := Restrict(dep, events, samples);
    SelfCommon(samples);
    var lhs := ComputeMaxHarm(p, d);
    var rhs := ComputeMaxHarm(psi, dep);
    forall e, s | e in lhs.rows && s in lhs.cols ensures lhs.rows[e][s] == rhs.rows[e][s] {
      assert p.rows[e][s] == psi.rows[e][s] && d.rows[e][s] == dep.rows[e][s];
    }
    DenseExtensional(lhs, rhs);
  }

  /** A sample sequence shares all of itself with itself. */
  lemma SelfCommon(samples: seq<SampleId>)
    ensures CommonSamples(samples, samples) == samples
  {
    FilterKeepsAll(samples, s => s in Elems(samples));
  }
}
