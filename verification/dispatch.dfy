/**
 * `compute_splicing_dependency` and `SplicingDependency.predict`: one
 * ensemble evaluation per row of the event-coefficient table, assembled
 * into five tables whose row `i` belongs to the `i`-th pair.
 */
module Dispatch {
  import opened Basics
  import opened Tables
  import opened OrderStats
  import opened Alignment
  import opened Standardization
  import opened Ensemble

  predicate HasKey(c: CoefRow, e: EventId, g: GeneId) {
    c.event == e && c.ensembl == g
  }

  /**
   * `coefs.loc[(e, g)]`: the draws of the first row keyed (e, g), or nothing
   * when no row has that key.
   */
  function LookupDraws(coefs: seq<CoefRow>, e: EventId, g: GeneId): (r: Option<seq<real>>)
    ensures r.None? <==> forall i :: 0 <= i < |coefs| ==> !HasKey(coefs[i], e, g)
    ensures r.Some? ==> exists i :: (
      && 0 <= i < |coefs| && HasKey(coefs[i], e, g) && r.value == coefs[i].draws
      && forall j :: 0 <= j < i ==> !HasKey(coefs[j], e, g))
  {
    if |coefs| == 0 then None
    else if HasKey(coefs[0], e, g) then Some(coefs[0].draws)
    else
      var rest := LookupDraws(coefs[1..], e, g);
      assert forall i :: 1 <= i < |coefs| ==> coefs[i] == coefs[1..][i - 1];
      if rest.Some? then
        var i :| 0 <= i < |coefs[1..]| && HasKey(coefs[1..][i], e, g) && rest.value == coefs[1..][i].draws
          && forall j :: 0 <= j < i ==> !HasKey(coefs[1..][j], e, g);
        assert HasKey(coefs[i + 1], e, g) && forall j :: 0 <= j < i + 1 ==> !HasKey(coefs[j], e, g);
        rest
      else rest
  }

  /** The three coefficient vectors of a pair, when each table has its key. */
  predicate CoefsFound(ce: seq<CoefRow>, cg: seq<CoefRow>, ci: seq<CoefRow>, e: EventId, g: GeneId) {
    LookupDraws(ce, e, g).Some? && LookupDraws(cg, e, g).Some? && LookupDraws(ci, e, g).Some?
  }

  /**
   * One job of the dispatcher. The keyword arguments are evaluated in
   * order: the three coefficient lookups, then the PSI row of the event,
   * then the expression row of the gene. The expression values are taken
   * by position, in the expression table's own column order.
   */
  function RunPair(
    psi: Table<real>, expr: Table<real>,
    ce: seq<CoefRow>, cg: seq<CoefRow>, ci: seq<CoefRow>, e: EventId, g: GeneId
  ): (r: Result<PairSummary, Fault>)
    requires Dense(psi) && Dense(expr)
    ensures r.Ok? <==>
      && CoefsFound(ce, cg, ci, e, g) && e in psi.rows && g in expr.rows
      && |psi.cols| == |expr.cols|
      && |LookupDraws(ce, e, g).value| == |LookupDraws(cg, e, g).value| == |LookupDraws(ci, e, g).value| > 0
    ensures r.Err? ==>
      if !CoefsFound(ce, cg, ci, e, g) then r.error == MissingCoefficient(e, g)
      else if e !in psi.rows then r.error == MissingLabels({e})
      else if g !in expr.rows then r.error == MissingLabels({g})
      else r.error == ShapeMismatch(e, g) || r.error == EmptyEnsemble(e, g)
    ensures r.Ok? ==> r.value.event == e && r.value.samples == psi.cols
    ensures r.Ok? ==> var p := r.value;
      |p.mean| == |p.median| == |p.variance| == |p.q25| == |p.q75| == |psi.cols|
    ensures r.Ok? ==> forall j :: 0 <= j < |psi.cols| ==>
      var ys := Predictions(LookupDraws(ce, e, g).value, LookupDraws(cg, e, g).value, LookupDraws(ci, e, g).value,
        psi.rows[e][psi.cols[j]], expr.rows[g][expr.cols[j]]);
      && Min(ys) <= r.value.q25[j] <= r.value.median[j] <= r.value.q75[j] <= Max(ys)
      && Min(ys) <= r.value.mean[j] <= Max(ys)
      && r.value.variance[j] >= 0.0
  {
    var bEvent := LookupDraws(ce, e, g);
    var bGene := LookupDraws(cg, e, g);
    var bIntercept := LookupDraws(ci, e, g);
    if bEvent.None? || bGene.None? || bIntercept.None? then Err(MissingCoefficient(e, g))
    else if e !in psi.rows then Err(MissingLabels({e}))
    else if g !in expr.rows then Err(MissingLabels({g}))
    else EvaluatePair(e, g, psi.cols, bEvent.value, bGene.value, bIntercept.value, RowValues(psi, e), RowValues(expr, g))
  }

  /**
   * Gather the job outcomes in job order: the first failure (in job
   * order) is raised; otherwise result `i` is the value of job `i`.
   */
  function Collect<T>(outcomes: seq<Result<T, Fault>>): (r: Result<seq<T>, Fault>)
    ensures r.Ok? <==> forall i :: 0 <= i < |outcomes| ==> outcomes[i].Ok?
    ensures r.Ok? ==> |r.value| == |outcomes| && forall i :: 0 <= i < |outcomes| ==> outcomes[i] == Ok(r.value[i])
    ensures r.Err? ==> exists i :: (
      && 0 <= i < |outcomes| && outcomes[i] == Err(r.error)
      && forall j :: 0 <= j < i ==> outcomes[j].Ok?)
  {
    if |outcomes| == 0 then Ok([])
    else if outcomes[0].Err? then Err(outcomes[0].error)
    else
      var rest := Collect(outcomes[1..]);
      assert forall i :: 1 <= i < |outcomes| ==> outcomes[i] == outcomes[1..][i - 1];
      if rest.Err? then
        var i :| 0 <= i < |outcomes[1..]| && outcomes[1..][i] == Err(rest.error)
          && forall j :: 0 <= j < i ==> outcomes[1..][j].Ok?;
        assert outcomes[i + 1] == Err(rest.error);
        Err(rest.error)
      else
        Ok([outcomes[0].value] + rest.value)
  }

  /** One job per row of the event-coefficient table, in row order. */
  function Jobs(
    psi: Table<real>, expr: Table<real>, ce: seq<CoefRow>, cg: seq<CoefRow>, ci: seq<CoefRow>
  ): (ts: seq<Result<PairSummary, Fault>>)
    requires Dense(psi) && Dense(expr)
    ensures |ts| == |ce|
    ensures forall i :: 0 <= i < |ce| ==> ts[i] == RunPair(psi, expr, ce, cg, ci, ce[i].event, ce[i].ensembl)
  {
    seq(|ce|, i requires 0 <= i < |ce| => RunPair(psi, expr, ce, cg, ci, ce[i].event, ce[i].ensembl))
  }

  /** The five result tables: row `i` of each belongs to pair `i`, labelled with its event. */
  datatype DependencyTables = DependencyTables(
    samples: seq<SampleId>, events: seq<EventId>,
    mean: seq<seq<real>>, median: seq<seq<real>>, variance: seq<seq<real>>,
    q25: seq<seq<real>>, q75: seq<seq<real>>)

  /** Stack the per-pair summaries as rows, in the order of the pairs. */
  function Assemble(results: seq<PairSummary>): (t: DependencyTables)
    ensures |t.events| == |t.mean| == |t.median| == |t.variance| == |t.q25| == |t.q75| == |results|
    ensures t.samples == if |results| == 0 then [] else results[0].samples
    ensures forall i :: 0 <= i < |results| ==>
      && t.events[i] == results[i].event
      && t.mean[i] == results[i].mean && t.median[i] == results[i].median && t.variance[i] == results[i].variance
      && t.q25[i] == results[i].q25 && t.q75[i] == results[i].q75
  {
    DependencyTables(
      if |results| == 0 then [] else results[0].samples,
      seq(|results|, i requires 0 <= i < |results| => results[i].event),
      seq(|results|, i requires 0 <= i < |results| => results[i].mean),
      seq(|results|, i requires 0 <= i < |results| => results[i].median),
      seq(|results|, i requires 0 <= i < |results| => results[i].variance),
      seq(|results|, i requires 0 <= i < |results| => results[i].q25),
      seq(|results|, i requires 0 <= i < |results| => results[i].q75))
  }

  /** Every row of the event-coefficient table evaluates without error. */
  predicate PairsSucceed(psi: Table<real>, expr: Table<real>, ce: seq<CoefRow>, cg: seq<CoefRow>, ci: seq<CoefRow>) {
    && Dense(psi) && Dense(expr)
    && forall i :: 0 <= i < |ce| ==> RunPair(psi, expr, ce, cg, ci, ce[i].event, ce[i].ensembl).Ok?
  }

  /** Row `i` of each result table is the summary of the pair in row `i` of the event-coefficient table. */
  predicate RowIsPair(
    t: DependencyTables, i: nat,
    psi: Table<real>, expr: Table<real>, ce: seq<CoefRow>, cg: seq<CoefRow>, ci: seq<CoefRow>)
  {
    && Dense(psi) && Dense(expr) && i < |ce|
    && var o := RunPair(psi, expr, ce, cg, ci, ce[i].event, ce[i].ensembl);
    && o.Ok?
    && i < |t.mean| && i < |t.median| && i < |t.variance| && i < |t.q25| && i < |t.q75|
    && t.mean[i] == o.value.mean && t.median[i] == o.value.median && t.variance[i] == o.value.variance
    && t.q25[i] == o.value.q25 && t.q75[i] == o.value.q75
  }

  /** Pair `i` fails with `f`, and every pair before it evaluates. */
  predicate FirstFailureAt(
    psi: Table<real>, expr: Table<real>, ce: seq<CoefRow>, cg: seq<CoefRow>, ci: seq<CoefRow>, i: nat, f: Fault)
  {
    && Dense(psi) && Dense(expr) && i < |ce|
    && RunPair(psi, expr, ce, cg, ci, ce[i].event, ce[i].ensembl) == Err(f)
    && forall j :: 0 <= j < i ==> RunPair(psi, expr, ce, cg, ci, ce[j].event, ce[j].ensembl).Ok?
  }

  /** `compute_splicing_dependency`: evaluate every row of the event-coefficient table and assemble. */
  function ComputeSplicingDependency(
    psi: Table<real>, expr: Table<real>, ce: seq<CoefRow>, cg: seq<CoefRow>, ci: seq<CoefRow>
  ): (r: Result<DependencyTables, Fault>)
    requires Dense(psi) && Dense(expr)
    ensures r.Ok? <==> PairsSucceed(psi, expr, ce, cg, ci)
    ensures r.Ok? ==> var t := r.value;
      |t.events| == |t.mean| == |t.median| == |t.variance| == |t.q25| == |t.q75| == |ce|
    ensures r.Ok? ==> |ce| > 0 ==> r.value.samples == psi.cols
    ensures r.Ok? ==> forall i :: 0 <= i < |ce| ==> r.value.events[i] == ce[i].event && ce[i].event in psi.rows
    ensures r.Ok? ==> forall i :: 0 <= i < |ce| ==> RowIsPair(r.value, i, psi, expr, ce, cg, ci)
    ensures r.Err? ==> exists i :: FirstFailureAt(psi, expr, ce, cg, ci, i, r.error)
  {
    var ts := Jobs(psi, expr, ce, cg, ci);
    var results := Collect(ts);
    if results.Err? then
      FirstJobFailure(psi, expr, ce, cg, ci);
      Err(results.error)
    else
      AssembledRows(psi, expr, ce, cg, ci, results.value);
      Ok(Assemble(results.value))
  }

  /** A failed collection reports the error of the first failing pair, in row order. */
  lemma FirstJobFailure(psi: Table<real>, expr: Table<real>, ce: seq<CoefRow>, cg: seq<CoefRow>, ci: seq<CoefRow>)
    requires Dense(psi) && Dense(expr) && Collect(Jobs(psi, expr, ce, cg, ci)).Err?
    ensures exists i :: FirstFailureAt(psi, expr, ce, cg, ci, i, Collect(Jobs(psi, expr, ce, cg, ci)).error)
  {
    var ts := Jobs(psi, expr, ce, cg, ci);
    var f := Collect(ts).error;
    var i :| 0 <= i < |ts| && ts[i] == Err(f) && forall j :: 0 <= j < i ==> ts[j].Ok?;
    assert FirstFailureAt(psi, expr, ce, cg, ci, i, f);
  }

  /** Assembling the outcomes of all the jobs puts pair `i`'s summary in row `i`. */
  lemma AssembledRows(
    psi: Table<real>, expr: Table<real>, ce: seq<CoefRow>, cg: seq<CoefRow>, ci: seq<CoefRow>, results: seq<PairSummary>)
    requires Dense(psi) && Dense(expr) && |results| == |ce|
    requires forall i :: 0 <= i < |ce| ==> Jobs(psi, expr, ce, cg, ci)[i] == Ok(results[i])
    ensures PairsSucceed(psi, expr, ce, cg, ci)
    ensures |ce| > 0 ==> Assemble(results).samples == psi.cols
    ensures forall i :: 0 <= i < |ce| ==> Assemble(results).events[i] == ce[i].event && ce[i].event in psi.rows
    ensures forall i :: 0 <= i < |ce| ==> RowIsPair(Assemble(results), i, psi, expr, ce, cg, ci)
  {
    var t := Assemble(results);
    forall i | 0 <= i < |ce|
      ensures RunPair(psi, expr, ce, cg, ci, ce[i].event, ce[i].ensembl) == Ok(results[i])
    {
      assert Jobs(psi, expr, ce, cg, ci)[i] == Ok(results[i]);
    }
    forall i | 0 <= i < |ce| ensures RowIsPair(t, i, psi, expr, ce, cg, ci) {
      assert RunPair(psi, expr, ce, cg, ci, ce[i].event, ce[i].ensembl) == Ok(results[i]);
    }
  }

  /**
   * The dispatcher's output order does not depend on the order in which
   * workers finish: each finished job delivers its index and outcome,
   * deliveries are stored by index, and the results are read back by index.
   */
  function Deliver<T>(done: seq<(nat, T)>): (slots: map<nat, T>)
    ensures slots.Keys == set k | 0 <= k < |done| :: done[k].0
    ensures forall i :: i in slots ==> exists k :: 0 <= k < |done| && done[k] == (i, slots[i])
  {
    if |done| == 0 then map[]
    else
      var last := done[|done| - 1];
      var before := Deliver(done[..|done| - 1]);
      assert forall k :: 0 <= k < |done| - 1 ==> done[..|done| - 1][k] == done[k];
      before[last.0 := last.1]
  }

  /** Read `n` results back by index. */
  function Gather<T>(n: nat, slots: map<nat, T>): (rs: seq<T>)
    requires forall i :: 0 <= i < n ==> i in slots
    ensures |rs| == n && forall i :: 0 <= i < n ==> rs[i] == slots[i]
  {
    seq(n, i requires 0 <= i < n => slots[i])
  }

  /**
   * Whatever order the jobs finish in (`order` lists the job indices in
   * completion order, each job at least once), gathering gives back the
   * outcomes in job order.
   */
  lemma CompletionOrderIrrelevant<T>(outcomes: seq<T>, order: seq<nat>)
    requires forall k :: 0 <= k < |order| ==> order[k] < |outcomes|
    requires forall i :: 0 <= i < |outcomes| ==> i in order
    ensures
      var done := seq(|order|, k requires 0 <= k < |order| => (order[k], outcomes[order[k]]));
      var slots := Deliver(done);
      && (forall i :: 0 <= i < |outcomes| ==> i in slots)
      && Gather(|outcomes|, slots) == outcomes
  {
    var done := seq(|order|, k requires 0 <= k < |order| => (order[k], outcomes[order[k]]));
    var slots := Deliver(done);
    forall i | 0 <= i < |outcomes| ensures i in slots && slots[i] == outcomes[i] {
      assert i in order;
      var k :| 0 <= k < |order| && order[k] == i;
      assert done[k].0 == i;
      var k' :| 0 <= k' < |done| && done[k'] == (i, slots[i]);
    }
  }

  /**
   * However the workers of a `compute_splicing_dependency` call finish, the
   * outcomes gathered by job index are the jobs in row order, so collecting
   * them gives the same result as collecting the jobs in order.
   */
  lemma JobsCompletionOrderIrrelevant(
    psi: Table<real>, expr: Table<real>, ce: seq<CoefRow>, cg: seq<CoefRow>, ci: seq<CoefRow>, order: seq<nat>)
    requires Dense(psi) && Dense(expr)
    requires forall k :: 0 <= k < |order| ==> order[k] < |ce|
    requires forall i :: 0 <= i < |ce| ==> i in order
    ensures
      var ts := Jobs(psi, expr, ce, cg, ci);
      var slots := Deliver(seq(|order|, k requires 0 <= k < |order| => (order[k], ts[order[k]])));
      && (forall i :: 0 <= i < |ts| ==> i in slots)
      && Gather(|ts|, slots) == ts
      && Collect(Gather(|ts|, slots)) == Collect(ts)
  {
    CompletionOrderIrrelevant(Jobs(psi, expr, ce, cg, ci), order);
  }

  /**
   * `predict`: preprocess, then compute the splicing dependencies from the
   * preprocessed tables and the filtered coefficient tables.
   */
  function Predict(
    psi: Table<real>, expr: Table<real>,
    coefsEvent: seq<CoefRow>, coefsGene: seq<CoefRow>, coefsIntercept: seq<CoefRow>,
    refs: seq<StatsRow>, normalizeCounts: bool, logTransform: bool,
    toTpm: (Table<real>, GeneId, SampleId) -> real, log2p1: real -> real
  ): (r: Result<DependencyTables, Fault>)
    requires Dense(psi) && Dense(expr)
    ensures
      var pre := Preprocess(psi, expr, coefsEvent, coefsGene, coefsIntercept, refs, normalizeCounts, logTransform, toTpm, log2p1);
      pre.Err? ==> r == Err(pre.error)
    ensures r.Err? ==> !r.error.MissingLabels?
    ensures r.Ok? ==>
      var sel := Select(psi, expr, coefsEvent, coefsGene, coefsIntercept);
      && |r.value.events| == |sel.coefsEvent|
      && forall i :: 0 <= i < |r.value.events| ==> r.value.events[i] == sel.coefsEvent[i].event && r.value.events[i] in sel.psi.rows
  {
    var pre := Preprocess(psi, expr, coefsEvent, coefsGene, coefsIntercept, refs, normalizeCounts, logTransform, toTpm, log2p1);
    if pre.Err? then Err(pre.error)
    else
      var p := pre.value;
      NoMissingLabels(p.psi, p.expr, p.coefsEvent, p.coefsGene, p.coefsIntercept);
      ComputeSplicingDependency(p.psi, p.expr, p.coefsEvent, p.coefsGene, p.coefsIntercept)
  }

  /**
   * `predict` succeeds exactly when preprocessing does and every pair of the
   * preprocessed selection evaluates, and then row `i` of each result table
   * is the summary of pair `i` of that selection.
   */
  lemma PredictByPairs(
    psi: Table<real>, expr: Table<real>,
    coefsEvent: seq<CoefRow>, coefsGene: seq<CoefRow>, coefsIntercept: seq<CoefRow>,
    refs: seq<StatsRow>, normalizeCounts: bool, logTransform: bool,
    toTpm: (Table<real>, GeneId, SampleId) -> real, log2p1: real -> real)
    requires Dense(psi) && Dense(expr)
    ensures
      var pre := Preprocess(psi, expr, coefsEvent, coefsGene, coefsIntercept, refs, normalizeCounts, logTransform, toTpm, log2p1);
      var r := Predict(psi, expr, coefsEvent, coefsGene, coefsIntercept, refs, normalizeCounts, logTransform, toTpm, log2p1);
      && (r.Ok? <==> pre.Ok? && var p := pre.value; PairsSucceed(p.psi, p.expr, p.coefsEvent, p.coefsGene, p.coefsIntercept))
      && (r.Ok? ==> var p := pre.value;
            forall i :: 0 <= i < |p.coefsEvent| ==> RowIsPair(r.value, i, p.psi, p.expr, p.coefsEvent, p.coefsGene, p.coefsIntercept))
      && (r.Ok? && |pre.value.coefsEvent| > 0 ==> r.value.samples == pre.value.psi.cols)
    ensures
      var sel := Select(psi, expr, coefsEvent, coefsGene, coefsIntercept);
      var r := Predict(psi, expr, coefsEvent, coefsGene, coefsIntercept, refs, normalizeCounts, logTransform, toTpm, log2p1);
      r.Ok? && |sel.coefsEvent| > 0 ==> r.value.samples == sel.psi.cols
    ensures
      var pre := Preprocess(psi, expr, coefsEvent, coefsGene, coefsIntercept, refs, normalizeCounts, logTransform, toTpm, log2p1);
      var r := Predict(psi, expr, coefsEvent, coefsGene, coefsIntercept, refs, normalizeCounts, logTransform, toTpm, log2p1);
      pre.Ok? && r.Err? ==> var p := pre.value;
        exists i :: FirstFailureAt(p.psi, p.expr, p.coefsEvent, p.coefsGene, p.coefsIntercept, i, r.error)
  {
  }

  /**
   * When every event-coefficient row finds its event among the PSI rows and
   * its gene among the expression rows, no job raises a missing-label error.
   */
  lemma NoMissingLabels(psi: Table<real>, expr: Table<real>, ce: seq<CoefRow>, cg: seq<CoefRow>, ci: seq<CoefRow>)
    requires Dense(psi) && Dense(expr) && LookupsSucceed(ce, psi, expr)
    ensures var r := ComputeSplicingDependency(psi, expr, ce, cg, ci);
      r.Err? ==> !r.error.MissingLabels?
  {
    var r := ComputeSplicingDependency(psi, expr, ce, cg, ci);
    if r.Err? {
      var ts := Jobs(psi, expr, ce, cg, ci);
      var i :| 0 <= i < |ts| && ts[i] == Err(r.error) && forall j :: 0 <= j < i ==> ts[j].Ok?;
      assert ce[i] in ce;
      PresentLabelsNotMissing(psi, expr, ce, cg, ci, ce[i].event, ce[i].ensembl);
    }
  }

  /** A job whose event and gene are present can only fail on coefficients or shapes. */
  lemma PresentLabelsNotMissing(
    psi: Table<real>, expr: Table<real>,
    ce: seq<CoefRow>, cg: seq<CoefRow>, ci: seq<CoefRow>, e: EventId, g: GeneId)
    requires Dense(psi) && Dense(expr) && e in psi.rows && g in expr.rows
    ensures var r := RunPair(psi, expr, ce, cg, ci, e, g);
      r.Err? ==> r.error.MissingCoefficient? || r.error.ShapeMismatch? || r.error.EmptyEnsemble?
  {
  }

  /**
   * The computation succeeds when, for every event-coefficient row, the
   * labels are present, the gene and intercept tables have the same key,
   * and the three vectors have one common, positive number of draws.
   */
  lemma ComputeSucceeds(psi: Table<real>, expr: Table<real>, ce: seq<CoefRow>, cg: seq<CoefRow>, ci: seq<CoefRow>)
    requires Dense(psi) && Dense(expr) && LookupsSucceed(ce, psi, expr)
    requires |psi.cols| == |expr.cols|
    requires forall c :: c in ce ==>
      && LookupDraws(cg, c.event, c.ensembl).Some? && LookupDraws(ci, c.event, c.ensembl).Some?
      && |LookupDraws(ce, c.event, c.ensembl).value| == |LookupDraws(cg, c.event, c.ensembl).value|
         == |LookupDraws(ci, c.event, c.ensembl).value| > 0
    ensures ComputeSplicingDependency(psi, expr, ce, cg, ci).Ok?
  {
    forall i | 0 <= i < |ce| ensures RunPair(psi, expr, ce, cg, ci, ce[i].event, ce[i].ensembl).Ok? {
      var c := ce[i];
      assert c in ce;
      assert HasKey(ce[i], c.event, c.ensembl);
      assert LookupDraws(ce, c.event, c.ensembl).Some?;
    }
  }
}
