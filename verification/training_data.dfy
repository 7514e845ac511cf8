/**
 * `FitFromFiles.load_data` once the four tables are read: drop PSI rows that
 * are undetected or uninformative, keep the samples, genes and events the
 * tables have in common, and standardise every PSI and expression row by
 * its own mean and standard deviation.
 */
module TrainingData {
  import opened Basics
  import opened Tables
  import opened OrderStats
  import opened Standardization

  /** One row of the event-to-gene mapping; the gene columns may be empty. */
  datatype MapRow = MapRow(event: EventId, ensembl: Option<GeneId>, gene: Option<string>)

  /** The loaded tables. PSI and expression cells are `None` where the input value is missing (NaN) or standardisation leaves no finite value. */
  datatype Loaded = Loaded(
    geneDependency: Table<real>,
    psi: Table<Option<real>>,
    expr: Table<Option<real>>,
    mapping: seq<MapRow>)

  /** The columns at which `row` holds a value, in the order of `cols`. */
  function PresentCols(row: Row<Option<real>>, cols: seq<SampleId>): (ps: seq<SampleId>)
    ensures forall i :: 0 <= i < |ps| ==> ps[i] in row && row[ps[i]].Some?
    ensures forall s :: s in ps <==> s in cols && s in row && row[s].Some?
    ensures SubseqOf(ps, cols)
  {
    Filter(cols, s => s in row && row[s].Some?)
  }

  /** The values present in `row`: one per present column, in the order of `cols`. */
  function PresentIn(row: Row<Option<real>>, cols: seq<SampleId>): (vs: seq<real>)
    requires Elems(cols) <= row.Keys
    ensures |vs| == |PresentCols(row, cols)| <= |cols|
    ensures forall i :: 0 <= i < |vs| ==> vs[i] == row[PresentCols(row, cols)[i]].value
    ensures forall s :: s in cols && row[s].Some? ==> row[s].value in vs
  {
    if |cols| == 0 then []
    else
      var rest := PresentIn(row, cols[1..]);
      assert forall s :: s in cols ==> s == cols[0] || s in cols[1..];
      if row[cols[0]].Some? then
        assert PresentCols(row, cols) == [cols[0]] + PresentCols(row, cols[1..]);
        [row[cols[0]].value] + rest
      else
        assert PresentCols(row, cols) == PresentCols(row, cols[1..]);
        rest
  }

  /** At least two columns hold a value (`dropna(thresh=2)`). */
  predicate Detected(row: Row<Option<real>>, cols: seq<SampleId>)
    requires Elems(cols) <= row.Keys
    ensures Detected(row, cols) <==> |PresentCols(row, cols)| >= 2
  {
    |PresentIn(row, cols)| >= 2
  }

  /**
   * Detected, and the present values do not all coincide (`std(axis=1) != 0`,
   * a sample variance that is zero exactly for a constant row).
   */
  predicate Informative(row: Row<Option<real>>, cols: seq<SampleId>)
    requires Elems(cols) <= row.Keys
    ensures Informative(row, cols) <==>
      Detected(row, cols) && exists i :: 0 <= i < |PresentIn(row, cols)| && PresentIn(row, cols)[i] != PresentIn(row, cols)[0]
  {
    var vs := PresentIn(row, cols);
    if |vs| >= 2 then
      VarianceZeroIffConstant(vs);
      assert SampleVariance(vs) != 0.0 <==> exists i :: 0 <= i < |vs| && vs[i] != vs[0];
      SampleVariance(vs) != 0.0
    else false
  }

  /** Drop the undetected rows, then the uninformative ones, judged over all columns. */
  function KeepInformative(t: Table<Option<real>>): (r: Table<Option<real>>)
    requires Dense(t)
    ensures Dense(r) && r.cols == t.cols
    ensures forall k :: k in r.rows <==> k in t.rows && Informative(t.rows[k], t.cols)
    ensures forall k :: k in r.rows ==> |PresentIn(t.rows[k], t.cols)| >= 2 && r.rows[k] == t.rows[k]
  {
    Table(t.cols, map k | k in t.rows && Informative(t.rows[k], t.cols) :: t.rows[k])
  }

  /** The (ENSEMBL, GENE) annotation: mapping rows with both gene columns filled. */
  function GeneAnnot(mapping: seq<MapRow>): (annot: set<(GeneId, string)>)
    ensures forall g, n :: (g, n) in annot <==> exists m :: m in mapping && m.ensembl == Some(g) && m.gene == Some(n)
  {
    set m | m in mapping && m.ensembl.Some? && m.gene.Some? :: (m.ensembl.value, m.gene.value)
  }

  /** Samples present in all three tables, in the order of the PSI columns. */
  function TrainingSamples(depCols: seq<SampleId>, psiCols: seq<SampleId>, exprCols: seq<SampleId>): (r: seq<SampleId>)
    ensures forall s :: s in r <==> s in depCols && s in psiCols && s in exprCols
    ensures SubseqOf(r, psiCols)
    ensures NoDup(psiCols) ==> NoDup(r)
  {
    var keep := (s: SampleId) => s in Elems(depCols) && s in Elems(exprCols);
    if NoDup(psiCols) then FilterNoDup(psiCols, keep); Filter(psiCols, keep) else Filter(psiCols, keep)
  }

  /** Expression genes annotated with a gene name that has a dependency row. */
  function TrainingGenes(annot: set<(GeneId, string)>, depRows: set<string>, exprRows: set<GeneId>): (r: set<GeneId>)
    ensures forall g :: g in r <==> g in exprRows && exists n :: (g, n) in annot && n in depRows
  {
    (set p | p in annot && p.1 in depRows :: p.0) * exprRows
  }

  /** Kept PSI events that the mapping assigns to one of `genes`. */
  function TrainingEvents(psiRows: set<EventId>, mapping: seq<MapRow>, genes: set<GeneId>): (r: set<EventId>)
    ensures forall e :: e in r <==> e in psiRows && exists m :: m in mapping && m.event == e && m.ensembl.Some? && m.ensembl.value in genes
  {
    psiRows * set m | m in mapping && m.ensembl.Some? && m.ensembl.value in genes :: m.event
  }

  /** Every gene name the annotation gives to one of `genes`. */
  function NamesOf(annot: set<(GeneId, string)>, genes: set<GeneId>): (r: set<string>)
    ensures forall n :: n in r <==> exists g :: g in genes && (g, n) in annot
  {
    set p | p in annot && p.0 in genes :: p.1
  }

  /** Expression values are all present. */
  function Lift(t: Table<real>): (r: Table<Option<real>>)
    requires Dense(t)
    ensures Dense(r) && r.cols == t.cols && r.rows.Keys == t.rows.Keys
    ensures forall k, s :: k in t.rows && s in t.rows[k] ==> r.rows[k][s] == Some(t.rows[k][s])
  {
    Table(t.cols, map k | k in t.rows :: map s | s in t.rows[k] :: Some(t.rows[k][s]))
  }

  /** `root` is a square root on the positive reals, up to being positive there. */
  ghost predicate PositiveRoot(root: real -> real) {
    forall v :: v > 0.0 ==> root(v) > 0.0
  }

  /**
   * The row's own mean and standard deviation (pandas: missing values
   * skipped, one degree of freedom), or nothing when the standard
   * deviation is undefined (fewer than two values) or zero, in which case
   * the whole row becomes non-finite.
   */
  function OwnStats(row: Row<Option<real>>, cols: seq<SampleId>, root: real -> real): (st: Option<Stats>)
    requires Elems(cols) <= row.Keys && PositiveRoot(root)
    ensures st.Some? <==> Informative(row, cols)
    ensures st.Some? ==> st.value.std > 0.0 && st.value.mean == Mean(PresentIn(row, cols))
  {
    var vs := PresentIn(row, cols);
    if |vs| < 2 || SampleVariance(vs) == 0.0 then None
    else Some(Stats(Mean(vs), root(SampleVariance(vs))))
  }

  /** Standardise one row by its own statistics; missing cells stay missing. */
  function StandardizeOwnRow(row: Row<Option<real>>, cols: seq<SampleId>, root: real -> real): (z: Row<Option<real>>)
    requires Elems(cols) <= row.Keys && PositiveRoot(root)
    ensures z.Keys == row.Keys
    ensures forall s :: s in z ==> (z[s].Some? <==> row[s].Some? && Informative(row, cols))
    ensures forall s :: s in z && z[s].Some? ==> Unstandardize(z[s].value, OwnStats(row, cols, root).value) == row[s].value
  {
    var st := OwnStats(row, cols, root);
    if st.None? then map s | s in row :: None
    else
      assert forall x :: Unstandardize(Standardize(x, st.value), st.value) == x by {
        forall x { StandardizeRoundTrip(x, st.value); }
      }
      Rescale(row, st.value)
  }

  /** Standardise the present cells of a row against `st`. */
  function Rescale(row: Row<Option<real>>, st: Stats): (z: Row<Option<real>>)
    requires st.std != 0.0
    ensures z.Keys == row.Keys
    ensures forall s :: s in z ==> (z[s].Some? <==> row[s].Some?)
  {
    map s | s in row :: if row[s].Some? then Some(Standardize(row[s].value, st)) else None
  }

  /** Standardise each value against `st`. */
  function StandardizeAll(vs: seq<real>, st: Stats): (zs: seq<real>)
    requires st.std != 0.0
    ensures |zs| == |vs|
  {
    if |vs| == 0 then [] else [Standardize(vs[0], st)] + StandardizeAll(vs[1..], st)
  }

  /** The present values of a rescaled row are the rescaled present values. */
  lemma {:induction false} PresentRescaled(row: Row<Option<real>>, cols: seq<SampleId>, st: Stats)
    requires Elems(cols) <= row.Keys && st.std != 0.0
    ensures PresentIn(Rescale(row, st), cols) == StandardizeAll(PresentIn(row, cols), st)
  {
    if |cols| > 0 {
      PresentRescaled(row, cols[1..], st);
    }
  }

  /** Standardised values sum to the deviations' sum divided by the std. */
  lemma {:induction false} SumStandardized(vs: seq<real>, st: Stats)
    requires st.std != 0.0
    ensures Sum(StandardizeAll(vs, st)) * st.std == Sum(vs) - |vs| as real * st.mean
  {
    if |vs| > 0 {
      var zs := StandardizeAll(vs, st);
      assert zs[1..] == StandardizeAll(vs[1..], st);
      SumStandardized(vs[1..], st);
      assert Standardize(vs[0], st) * st.std == vs[0] - st.mean;
      assert Sum(zs) * st.std == Standardize(vs[0], st) * st.std + Sum(zs[1..]) * st.std;
    }
  }

  /** A row standardised by its own statistics has mean zero over its present values. */
  lemma OwnRowMeanZero(row: Row<Option<real>>, cols: seq<SampleId>, root: real -> real)
    requires Elems(cols) <= row.Keys && PositiveRoot(root) && Informative(row, cols)
    ensures var z := StandardizeOwnRow(row, cols, root);
      |PresentIn(z, cols)| == |PresentIn(row, cols)| && Mean(PresentIn(z, cols)) == 0.0
  {
    var st := OwnStats(row, cols, root).value;
    assert StandardizeOwnRow(row, cols, root) == Rescale(row, st);
    RescaledMeanZero(row, cols, st);
  }

  /** Rescaling a row by the mean of its present values centres them. */
  lemma RescaledMeanZero(row: Row<Option<real>>, cols: seq<SampleId>, st: Stats)
    requires Elems(cols) <= row.Keys && st.std != 0.0
    requires |PresentIn(row, cols)| > 0 && st.mean == Mean(PresentIn(row, cols))
    ensures |PresentIn(Rescale(row, st), cols)| == |PresentIn(row, cols)|
    ensures Mean(PresentIn(Rescale(row, st), cols)) == 0.0
  {
    var vs := PresentIn(row, cols);
    var zs := StandardizeAll(vs, st);
    assert PresentIn(Rescale(row, st), cols) == zs by { PresentRescaled(row, cols, st); }
    assert Sum(zs) == 0.0 by { CenteredSumZero(vs, st); }
    MeanOfZeroSum(zs);
  }

  /** Values that sum to zero have mean zero. */
  lemma MeanOfZeroSum(zs: seq<real>)
    requires |zs| > 0 && Sum(zs) == 0.0
    ensures Mean(zs) == 0.0
  {
  }

  /** Values standardised against their own mean sum to zero. */
  lemma CenteredSumZero(vs: seq<real>, st: Stats)
    requires |vs| > 0 && st.std != 0.0 && st.mean == Mean(vs)
    ensures Sum(StandardizeAll(vs, st)) == 0.0
  {
    SumStandardized(vs, st);
    CountTimesOwnMean(vs, st);
    ZeroFactor(Sum(StandardizeAll(vs, st)), st.std);
  }

  lemma CountTimesOwnMean(vs: seq<real>, st: Stats)
    requires |vs| > 0 && st.mean == Mean(vs)
    ensures |vs| as real * st.mean == Sum(vs)
  {
  }

  /**
   * The detection and variance filters look at every PSI column, the
   * standardisation only at the common samples: a row kept on two values
   * loses both to missing values once one of its samples is dropped.
   */
  lemma FilterBeforeSubset(root: real -> real)
    requires PositiveRoot(root)
    ensures var row := map["A" := Some(1.0), "B" := Some(2.0)];
      && Informative(row, ["A", "B"])
      && !Informative(row, ["A"])
      && StandardizeOwnRow(row, ["A"], root)["A"].None?
  {
    var row := map["A" := Some(1.0), "B" := Some(2.0)];
    assert PresentIn(row, ["A", "B"]) == [1.0, 2.0] by {
      assert ["A", "B"][1..] == ["B"];
    }
    assert SampleVariance([1.0, 2.0]) == 0.5;
  }

  /** Standardise every row of `t` by its own statistics over the columns of `t`. */
  function StandardizeOwnRows(t: Table<Option<real>>, root: real -> real): (r: Table<Option<real>>)
    requires Dense(t) && PositiveRoot(root)
    ensures Dense(r) && r.cols == t.cols && r.rows.Keys == t.rows.Keys
    ensures forall k, s :: k in r.rows && s in r.cols ==>
      (r.rows[k][s].Some? <==> t.rows[k][s].Some? && Informative(t.rows[k], t.cols))
    ensures forall k, s :: k in r.rows && s in r.cols && r.rows[k][s].Some? ==>
      Unstandardize(r.rows[k][s].value, OwnStats(t.rows[k], t.cols, root).value) == t.rows[k][s].value
  {
    Table(t.cols, map k | k in t.rows :: StandardizeOwnRow(t.rows[k], t.cols, root))
  }

  /** The keys `load_data` keeps, before the gene-dependency table is selected. */
  datatype TrainingKeys = TrainingKeys(samples: seq<SampleId>, genes: set<GeneId>, events: set<EventId>, names: set<string>)

  /**
   * Samples in all three tables; expression genes whose annotated name has a
   * dependency row; informative PSI events mapped to one of those genes; and
   * every name the annotation gives to a kept gene.
   */
  function KeysOf(geneDependency: Table<real>, psi: Table<Option<real>>, expr: Table<real>, mapping: seq<MapRow>): (k: TrainingKeys)
    requires Dense(psi)
    ensures KeysFit(k, psi, expr) && Elems(k.samples) <= Elems(geneDependency.cols)
  {
    var annot := GeneAnnot(mapping);
    var genes := TrainingGenes(annot, geneDependency.rows.Keys, expr.rows.Keys);
    TrainingKeys(
      TrainingSamples(geneDependency.cols, psi.cols, expr.cols),
      genes,
      TrainingEvents(KeepInformative(psi).rows.Keys, mapping, genes),
      NamesOf(annot, genes))
  }

  /** The keys fit the tables they select from. */
  ghost predicate KeysFit(k: TrainingKeys, psi: Table<Option<real>>, expr: Table<real>) {
    && Dense(psi) && NoDup(k.samples) && Elems(k.samples) <= Elems(psi.cols) && Elems(k.samples) <= Elems(expr.cols)
    && k.events <= KeepInformative(psi).rows.Keys && k.genes <= expr.rows.Keys
  }

  /** What each kept key is, in terms of the input tables and the mapping. */
  lemma KeysOfMeaning(geneDependency: Table<real>, psi: Table<Option<real>>, expr: Table<real>, mapping: seq<MapRow>)
    requires Dense(psi)
    ensures var k := KeysOf(geneDependency, psi, expr, mapping);
      && SubseqOf(k.samples, psi.cols)
      && (forall s :: s in k.samples <==> s in geneDependency.cols && s in psi.cols && s in expr.cols)
      && (forall g :: g in k.genes <==> (g in expr.rows
            && exists m :: m in mapping && m.ensembl == Some(g) && m.gene.Some? && m.gene.value in geneDependency.rows))
      && (forall e :: e in k.events <==> (e in psi.rows && Informative(psi.rows[e], psi.cols)
            && exists m :: m in mapping && m.event == e && m.ensembl.Some? && m.ensembl.value in k.genes))
      && (forall n :: n in k.names <==> exists m :: m in mapping && m.ensembl.Some? && m.ensembl.value in k.genes && m.gene == Some(n))
  {
  }

  /** Select and standardise the PSI and expression tables and restrict the mapping. */
  function Assemble(
    dep: Table<real>, psi: Table<Option<real>>, expr: Table<real>, mapping: seq<MapRow>,
    k: TrainingKeys, root: real -> real
  ): (r: Loaded)
    requires Dense(dep) && Dense(psi) && Dense(expr) && PositiveRoot(root)
    requires KeysFit(k, psi, expr) && dep.cols == k.samples
    ensures r.geneDependency == dep
    ensures r.psi.rows.Keys == k.events && r.expr.rows.Keys == k.genes
    ensures r.psi.cols == r.expr.cols == k.samples
    ensures Dense(r.psi) && Dense(r.expr)
  {
    var psiSel := Restrict(KeepInformative(psi), k.events, k.samples);
    var exprSel := Restrict(expr, k.genes, k.samples);
    Loaded(
      dep,
      StandardizeOwnRows(psiSel, root),
      StandardizeOwnRows(Lift(exprSel), root),
      Filter(mapping, (m: MapRow) => m.event in k.events))
  }

  /**
   * `load_data` after reading: filter the PSI rows, intersect the keys,
   * select the four tables, and standardise PSI and expression rows. The
   * selection of the gene-dependency table raises when a gene name the
   * annotation gives to a kept gene has no dependency row.
   */
  function LoadData(
    geneDependency: Table<real>, psi: Table<Option<real>>, expr: Table<real>, mapping: seq<MapRow>,
    root: real -> real
  ): (r: Result<Loaded, Fault>)
    requires Dense(geneDependency) && Dense(psi) && Dense(expr) && PositiveRoot(root)
    ensures var k := KeysOf(geneDependency, psi, expr, mapping);
      && (r.Ok? <==> k.names <= geneDependency.rows.Keys)
      && (r.Err? ==> r.error == MissingLabels(k.names - geneDependency.rows.Keys))
    ensures var k := KeysOf(geneDependency, psi, expr, mapping);
      r.Ok? ==>
        && r.value.psi.rows.Keys == k.events && r.value.expr.rows.Keys == k.genes
        && r.value.geneDependency.rows.Keys == k.names
        && r.value.psi.cols == r.value.expr.cols == r.value.geneDependency.cols == k.samples
        && Dense(r.value.psi) && Dense(r.value.expr) && Dense(r.value.geneDependency)
  {
    var k := KeysOf(geneDependency, psi, expr, mapping);
    var dep := Loc(geneDependency, k.names, k.samples);
    assert Elems(k.samples) - Elems(geneDependency.cols) == {};
    var missing := k.names - geneDependency.rows.Keys;
    assert missing + (Elems(k.samples) - Elems(geneDependency.cols)) == missing;
    if dep.Err? then Err(dep.error)
    else Ok(Assemble(dep.value, psi, expr, mapping, k, root))
  }

  /** Every PSI row that survives was detected and informative over all the PSI columns. */
  lemma LoadedRowsInformative(
    geneDependency: Table<real>, psi: Table<Option<real>>, expr: Table<real>, mapping: seq<MapRow>,
    root: real -> real)
    requires Dense(geneDependency) && Dense(psi) && Dense(expr) && PositiveRoot(root)
    ensures var r := LoadData(geneDependency, psi, expr, mapping, root);
      r.Ok? ==> forall e :: e in r.value.psi.rows ==>
        e in psi.rows && Detected(psi.rows[e], psi.cols) && Informative(psi.rows[e], psi.cols)
  {
  }

  /** Every surviving event keeps a mapping row that points at a surviving gene. */
  lemma LoadedEventsHaveGenes(
    geneDependency: Table<real>, psi: Table<Option<real>>, expr: Table<real>, mapping: seq<MapRow>,
    root: real -> real)
    requires Dense(geneDependency) && Dense(psi) && Dense(expr) && PositiveRoot(root)
    ensures var r := LoadData(geneDependency, psi, expr, mapping, root);
      r.Ok? ==> forall e :: e in r.value.psi.rows ==>
        exists m :: m in r.value.mapping && m.event == e && m.ensembl.Some? && m.ensembl.value in r.value.expr.rows
  {
    var r := LoadData(geneDependency, psi, expr, mapping, root);
    if r.Ok? {
      KeysOfMeaning(geneDependency, psi, expr, mapping);
      forall e | e in r.value.psi.rows
        ensures exists m :: m in r.value.mapping && m.event == e && m.ensembl.Some? && m.ensembl.value in r.value.expr.rows
      {
        var m :| m in mapping && m.event == e && m.ensembl.Some? && m.ensembl.value in r.value.expr.rows;
        assert m in r.value.mapping;
      }
    }
  }

  /** The mapping keeps, in order, exactly its rows whose event survives. */
  lemma LoadedMappingRestricted(
    geneDependency: Table<real>, psi: Table<Option<real>>, expr: Table<real>, mapping: seq<MapRow>,
    root: real -> real)
    requires Dense(geneDependency) && Dense(psi) && Dense(expr) && PositiveRoot(root)
    ensures var r := LoadData(geneDependency, psi, expr, mapping, root);
      r.Ok? ==>
        && SubseqOf(r.value.mapping, mapping)
        && forall m :: m in r.value.mapping <==> m in mapping && m.event in r.value.psi.rows
  {
  }

  /** The gene-dependency cells are copied unchanged. */
  lemma LoadedDependencyUnchanged(
    geneDependency: Table<real>, psi: Table<Option<real>>, expr: Table<real>, mapping: seq<MapRow>,
    root: real -> real)
    requires Dense(geneDependency) && Dense(psi) && Dense(expr) && PositiveRoot(root)
    ensures var r := LoadData(geneDependency, psi, expr, mapping, root);
      r.Ok? ==> forall n, s :: n in r.value.geneDependency.rows && s in r.value.geneDependency.cols ==>
        n in geneDependency.rows && s in geneDependency.rows[n] && r.value.geneDependency.rows[n][s] == geneDependency.rows[n][s]
  {
  }

  /** Two rows that agree on `cols` present the same values. */
  lemma {:induction false} PresentInAgree(a: Row<Option<real>>, b: Row<Option<real>>, cols: seq<SampleId>)
    requires Elems(cols) <= a.Keys && Elems(cols) <= b.Keys
    requires forall s :: s in cols ==> a[s] == b[s]
    ensures PresentIn(a, cols) == PresentIn(b, cols)
  {
    if |cols| > 0 {
      PresentInAgree(a, b, cols[1..]);
    }
  }

  /** Lifting commutes with selecting. */
  lemma LiftRestrict(t: Table<real>, keys: set<RowId>, cols: seq<SampleId>)
    requires Dense(t) && keys <= t.rows.Keys && NoDup(cols) && Elems(cols) <= Elems(t.cols)
    ensures Lift(Restrict(t, keys, cols)) == Restrict(Lift(t), keys, cols)
  {
    DenseExtensional(Lift(Restrict(t, keys, cols)), Restrict(Lift(t), keys, cols));
  }

  /** Standardising a selection of rows by their own statistics over the selected samples. */
  lemma SelectedCells(t: Table<Option<real>>, keys: set<RowId>, cols: seq<SampleId>, root: real -> real)
    requires Dense(t) && keys <= t.rows.Keys && NoDup(cols) && Elems(cols) <= Elems(t.cols) && PositiveRoot(root)
    ensures var r := StandardizeOwnRows(Restrict(t, keys, cols), root);
      forall e, s :: e in r.rows && s in r.cols ==>
        && e in t.rows && s in t.rows[e] && Elems(cols) <= t.rows[e].Keys
        && (r.rows[e][s].Some? <==> t.rows[e][s].Some? && Informative(t.rows[e], cols))
        && (r.rows[e][s].Some? ==> Unstandardize(r.rows[e][s].value, OwnStats(t.rows[e], cols, root).value) == t.rows[e][s].value)
  {
    var sel := Restrict(t, keys, cols);
    forall e | e in sel.rows
      ensures OwnStats(sel.rows[e], cols, root) == OwnStats(t.rows[e], cols, root)
    {
      PresentInAgree(sel.rows[e], t.rows[e], cols);
    }
  }

  /**
   * A surviving PSI cell is finite exactly when the raw cell is present and
   * the row is informative over the common samples, and then it
   * unstandardises to the raw value with the row's statistics over those
   * samples.
   */
  lemma LoadedPsiCells(
    geneDependency: Table<real>, psi: Table<Option<real>>, expr: Table<real>, mapping: seq<MapRow>,
    root: real -> real)
    requires Dense(geneDependency) && Dense(psi) && Dense(expr) && PositiveRoot(root)
    ensures var r := LoadData(geneDependency, psi, expr, mapping, root);
      r.Ok? ==> forall e, s :: e in r.value.psi.rows && s in r.value.psi.cols ==>
        && e in psi.rows && s in psi.rows[e]
        && Elems(r.value.psi.cols) <= psi.rows[e].Keys
        && (r.value.psi.rows[e][s].Some? <==> psi.rows[e][s].Some? && Informative(psi.rows[e], r.value.psi.cols))
        && (r.value.psi.rows[e][s].Some? ==>
              Unstandardize(r.value.psi.rows[e][s].value, OwnStats(psi.rows[e], r.value.psi.cols, root).value) == psi.rows[e][s].value)
  {
    var k := KeysOf(geneDependency, psi, expr, mapping);
    var kept := KeepInformative(psi);
    SelectedCells(kept, k.events, k.samples, root);
  }

  /** The same for expression cells, which are all present to begin with. */
  lemma LoadedExprCells(
    geneDependency: Table<real>, psi: Table<Option<real>>, expr: Table<real>, mapping: seq<MapRow>,
    root: real -> real)
    requires Dense(geneDependency) && Dense(psi) && Dense(expr) && PositiveRoot(root)
    ensures var r := LoadData(geneDependency, psi, expr, mapping, root);
      r.Ok? ==> forall g, s :: g in r.value.expr.rows && s in r.value.expr.cols ==>
        && g in expr.rows && s in expr.rows[g]
        && Elems(r.value.expr.cols) <= Lift(expr).rows[g].Keys
        && (r.value.expr.rows[g][s].Some? <==> Informative(Lift(expr).rows[g], r.value.expr.cols))
        && (r.value.expr.rows[g][s].Some? ==>
              Unstandardize(r.value.expr.rows[g][s].value, OwnStats(Lift(expr).rows[g], r.value.expr.cols, root).value) == expr.rows[g][s])
  {
    var k := KeysOf(geneDependency, psi, expr, mapping);
    var lifted := Lift(expr);
    LiftRestrict(expr, k.genes, k.samples);
    SelectedCells(lifted, k.genes, k.samples, root);
  }
}
