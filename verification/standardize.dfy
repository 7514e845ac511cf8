/**
 * The rest of `SplicingDependency._preprocess`: the optional transform of
 * the expression table (chosen by `normalize_counts` and `log_transform`),
 * and standardisation of both tables against reference-cohort statistics.
 */
module Standardization {
  import opened Basics
  import opened Tables
  import opened Alignment

  /** The transform applied to the expression table before standardisation. */
  datatype Transform = CountsToTpm | Log2PlusOne | NoTransform

  /** `normalize_counts` wins over `log_transform`; with neither, the values are used as given. */
  function ChooseTransform(normalizeCounts: bool, logTransform: bool): (t: Transform)
    ensures t == CountsToTpm <==> normalizeCounts
    ensures t == Log2PlusOne <==> !normalizeCounts && logTransform
    ensures t == NoTransform <==> !normalizeCounts && !logTransform
  {
    if normalizeCounts then CountsToTpm
    else if logTransform then Log2PlusOne
    else NoTransform
  }

  /**
   * The expression table after the chosen transform. The count-to-TPM
   * conversion is an external collaborator, given as `toTpm`: the value it
   * yields for a cell may depend on the whole table it is handed (it divides
   * by column sums). `log2p1` is the per-cell log2(x + 1).
   */
  function ApplyTransform(
    t: Transform, expr: Table<real>,
    toTpm: (Table<real>, GeneId, SampleId) -> real, log2p1: real -> real
  ): (r: Table<real>)
    requires Dense(expr)
    ensures Dense(r) && r.cols == expr.cols && r.rows.Keys == expr.rows.Keys
    ensures t == NoTransform ==> r == expr
    ensures t == Log2PlusOne ==> forall g, s :: g in expr.rows && s in expr.rows[g] ==> r.rows[g][s] == log2p1(expr.rows[g][s])
    ensures t == CountsToTpm ==> forall g, s :: g in expr.rows && s in expr.rows[g] ==> r.rows[g][s] == toTpm(expr, g, s)
  {
    match t
    case NoTransform => expr
    case Log2PlusOne => MapCells(expr, (g, s) => if g in expr.rows && s in expr.rows[g] then log2p1(expr.rows[g][s]) else 0.0)
    case CountsToTpm => MapCells(expr, (g, s) => toTpm(expr, g, s))
  }

  /** Replace every cell by `f` of its labels. */
  function MapCells(t: Table<real>, f: (RowId, SampleId) -> real): (r: Table<real>)
    requires Dense(t)
    ensures Dense(r) && r.cols == t.cols && r.rows.Keys == t.rows.Keys
    ensures forall g, s :: g in t.rows && s in t.rows[g] ==> r.rows[g][s] == f(g, s)
  {
    Table(t.cols, map g | g in t.rows :: map s | s in t.rows[g] :: f(g, s))
  }

  /** A reference mean and standard deviation for one row. */
  datatype Stats = Stats(mean: real, std: real)

  /** The z-score of `x` against `st`. */
  function Standardize(x: real, st: Stats): real
    requires st.std != 0.0
  {
    (x - st.mean) / st.std
  }

  /** The value whose z-score against `st` is `z`. */
  function Unstandardize(z: real, st: Stats): real {
    z * st.std + st.mean
  }

  /** Standardisation and its inverse undo each other when the std is non-zero. */
  lemma StandardizeRoundTrip(x: real, st: Stats)
    requires st.std != 0.0
    ensures Unstandardize(Standardize(x, st), st) == x
    ensures Standardize(Unstandardize(x, st), st) == x
  {
    var z := Standardize(x, st);
    assert z * st.std == x - st.mean;
  }

  /** Standardise one row: the same mean and std for every sample column. */
  function StandardizeRow(row: Row<real>, st: Stats): (z: Row<real>)
    requires st.std != 0.0
    ensures z.Keys == row.Keys
    ensures forall s :: s in row ==> Unstandardize(z[s], st) == row[s]
  {
    var z := map s | s in row :: Standardize(row[s], st);
    assert forall s :: s in row ==> Unstandardize(z[s], st) == row[s] by {
      forall s | s in row {
        StandardizeRoundTrip(row[s], st);
      }
    }
    z
  }

  /** Standardise every row of `t` with that row's own statistics. */
  function StandardizeRows(t: Table<real>, stats: map<RowId, Stats>): (r: Table<real>)
    requires Dense(t)
    requires forall k :: k in t.rows ==> k in stats && stats[k].std != 0.0
    ensures Dense(r) && r.cols == t.cols && r.rows.Keys == t.rows.Keys
    ensures forall k, s :: k in t.rows && s in t.rows[k] ==> Unstandardize(r.rows[k][s], stats[k]) == t.rows[k][s]
  {
    Table(t.cols, map k | k in t.rows :: StandardizeRow(t.rows[k], stats[k]))
  }

  /** One row of the reference statistics table, keyed by (EVENT, ENSEMBL). */
  datatype StatsRow = StatsRow(
    event: EventId, ensembl: GeneId,
    eventMean: real, eventStd: real, geneMean: real, geneStd: real)

  function EventStatsIn(row: StatsRow): Stats {
    Stats(row.eventMean, row.eventStd)
  }

  function GeneStatsIn(row: StatsRow): Stats {
    Stats(row.geneMean, row.geneStd)
  }

  /** The PSI statistics of event `e`: those of the first reference row for it, if any. */
  function EventStatsOf(refs: seq<StatsRow>, e: EventId): (r: Option<Stats>)
    ensures r.None? <==> forall i :: 0 <= i < |refs| ==> refs[i].event != e
    ensures r.Some? ==> exists i :: 0 <= i < |refs| && refs[i].event == e && r.value == EventStatsIn(refs[i])
  {
    if |refs| == 0 then None
    else if refs[0].event == e then Some(EventStatsIn(refs[0]))
    else
      var rest := EventStatsOf(refs[1..], e);
      assert forall i :: 1 <= i < |refs| ==> refs[i] == refs[1..][i - 1];
      rest
  }

  /** The expression statistics of gene `g`: those of the first reference row for it, if any. */
  function GeneStatsOf(refs: seq<StatsRow>, g: GeneId): (r: Option<Stats>)
    ensures r.None? <==> forall i :: 0 <= i < |refs| ==> refs[i].ensembl != g
    ensures r.Some? ==> exists i :: 0 <= i < |refs| && refs[i].ensembl == g && r.value == GeneStatsIn(refs[i])
  {
    if |refs| == 0 then None
    else if refs[0].ensembl == g then Some(GeneStatsIn(refs[0]))
    else
      var rest := GeneStatsOf(refs[1..], g);
      assert forall i :: 1 <= i < |refs| ==> refs[i] == refs[1..][i - 1];
      rest
  }

  /**
   * One set of PSI statistics per event and one set of expression
   * statistics per gene, however many reference rows repeat them.
   */
  predicate StatsKeyed(refs: seq<StatsRow>) {
    forall i, j :: 0 <= i < |refs| && 0 <= j < |refs| ==>
      && (refs[i].event == refs[j].event ==> EventStatsIn(refs[i]) == EventStatsIn(refs[j]))
      && (refs[i].ensembl == refs[j].ensembl ==> GeneStatsIn(refs[i]) == GeneStatsIn(refs[j]))
  }

  /** With keyed statistics, the lookup agrees with every reference row of the key. */
  lemma KeyedLookup(refs: seq<StatsRow>, i: nat)
    requires StatsKeyed(refs) && i < |refs|
    ensures EventStatsOf(refs, refs[i].event) == Some(EventStatsIn(refs[i]))
    ensures GeneStatsOf(refs, refs[i].ensembl) == Some(GeneStatsIn(refs[i]))
  {
    var e := EventStatsOf(refs, refs[i].event);
    var j :| 0 <= j < |refs| && refs[j].event == refs[i].event && e.value == EventStatsIn(refs[j]);
    var g := GeneStatsOf(refs, refs[i].ensembl);
    var k :| 0 <= k < |refs| && refs[k].ensembl == refs[i].ensembl && g.value == GeneStatsIn(refs[k]);
  }

  function EventsWithoutStats(refs: seq<StatsRow>, events: set<EventId>): set<EventId> {
    set e | e in events && EventStatsOf(refs, e).None?
  }

  function GenesWithoutStats(refs: seq<StatsRow>, genes: set<GeneId>): set<GeneId> {
    set g | g in genes && GeneStatsOf(refs, g).None?
  }

  function EventsWithZeroStd(refs: seq<StatsRow>, events: set<EventId>): set<EventId> {
    set e | e in events && EventStatsOf(refs, e).Some? && EventStatsOf(refs, e).value.std == 0.0
  }

  function GenesWithZeroStd(refs: seq<StatsRow>, genes: set<GeneId>): set<GeneId> {
    set g | g in genes && GeneStatsOf(refs, g).Some? && GeneStatsOf(refs, g).value.std == 0.0
  }

  /** Every kept event and gene has reference statistics with a non-zero std. */
  predicate ReferenceUsable(refs: seq<StatsRow>, events: set<EventId>, genes: set<GeneId>) {
    && (forall e :: e in events ==> EventStatsOf(refs, e).Some? && EventStatsOf(refs, e).value.std != 0.0)
    && (forall g :: g in genes ==> GeneStatsOf(refs, g).Some? && GeneStatsOf(refs, g).value.std != 0.0)
  }

  /** The reference statistics are usable exactly when no kept key lacks them or has a zero std. */
  lemma UsableIffNoBadKeys(refs: seq<StatsRow>, events: set<EventId>, genes: set<GeneId>)
    ensures ReferenceUsable(refs, events, genes) <==>
      && EventsWithoutStats(refs, events) == {} && EventsWithZeroStd(refs, events) == {}
      && GenesWithoutStats(refs, genes) == {} && GenesWithZeroStd(refs, genes) == {}
  {
    if !ReferenceUsable(refs, events, genes) {
      if e :| e in events && !(EventStatsOf(refs, e).Some? && EventStatsOf(refs, e).value.std != 0.0) {
        assert e in EventsWithoutStats(refs, events) || e in EventsWithZeroStd(refs, events);
      } else {
        var g :| g in genes && !(GeneStatsOf(refs, g).Some? && GeneStatsOf(refs, g).value.std != 0.0);
        assert g in GenesWithoutStats(refs, genes) || g in GenesWithZeroStd(refs, genes);
      }
    }
  }

  /** Standardise the selected PSI table and the transformed expression table against the reference. */
  function StandardizeSelection(sel: Selection, tx: Table<real>, refs: seq<StatsRow>): (out: Selection)
    requires Dense(sel.psi) && Dense(tx)
    requires ReferenceUsable(refs, sel.psi.rows.Keys, tx.rows.Keys)
    ensures Dense(out.psi) && Dense(out.expr)
    ensures out.psi.rows.Keys == sel.psi.rows.Keys && out.expr.rows.Keys == tx.rows.Keys
    ensures out.psi.cols == sel.psi.cols && out.expr.cols == tx.cols
    ensures out.coefsEvent == sel.coefsEvent && out.coefsGene == sel.coefsGene && out.coefsIntercept == sel.coefsIntercept
    ensures forall e, s :: e in out.psi.rows && s in out.psi.cols ==>
      Unstandardize(out.psi.rows[e][s], EventStatsOf(refs, e).value) == sel.psi.rows[e][s]
    ensures forall g, s :: g in out.expr.rows && s in out.expr.cols ==>
      Unstandardize(out.expr.rows[g][s], GeneStatsOf(refs, g).value) == tx.rows[g][s]
  {
    var eventStats := map e | e in sel.psi.rows :: EventStatsOf(refs, e).value;
    var geneStats := map g | g in tx.rows :: GeneStatsOf(refs, g).value;
    Selection(
      StandardizeRows(sel.psi, eventStats),
      StandardizeRows(tx, geneStats),
      sel.coefsEvent, sel.coefsGene, sel.coefsIntercept)
  }

  /**
   * `_preprocess`: select, transform the selected expression table, then
   * standardise both tables against the reference statistics. Events are
   * handled before genes; a missing reference row or a zero reference std
   * is reported with the offending identifiers.
   */
  function Preprocess(
    psi: Table<real>, expr: Table<real>,
    coefsEvent: seq<CoefRow>, coefsGene: seq<CoefRow>, coefsIntercept: seq<CoefRow>,
    refs: seq<StatsRow>, normalizeCounts: bool, logTransform: bool,
    toTpm: (Table<real>, GeneId, SampleId) -> real, log2p1: real -> real
  ): (r: Result<Selection, Fault>)
    requires Dense(psi) && Dense(expr)
    ensures var sel := Select(psi, expr, coefsEvent, coefsGene, coefsIntercept);
      r.Ok? <==> ReferenceUsable(refs, sel.psi.rows.Keys, sel.expr.rows.Keys)
    ensures r.Ok? ==>
      var sel := Select(psi, expr, coefsEvent, coefsGene, coefsIntercept);
      && Dense(r.value.psi) && Dense(r.value.expr)
      && r.value.psi.rows.Keys == sel.psi.rows.Keys && r.value.expr.rows.Keys == sel.expr.rows.Keys
      && r.value.psi.cols == sel.psi.cols && r.value.expr.cols == sel.psi.cols
      && r.value.coefsEvent == sel.coefsEvent
      && r.value.coefsGene == sel.coefsGene
      && r.value.coefsIntercept == sel.coefsIntercept
    ensures r.Ok? ==> forall e, s :: e in r.value.psi.rows && s in r.value.psi.cols ==>
      Unstandardize(r.value.psi.rows[e][s], EventStatsOf(refs, e).value) == psi.rows[e][s]
    ensures r.Ok? ==>
      var sel := Select(psi, expr, coefsEvent, coefsGene, coefsIntercept);
      var tx := ApplyTransform(ChooseTransform(normalizeCounts, logTransform), sel.expr, toTpm, log2p1);
      forall g, s :: g in r.value.expr.rows && s in r.value.expr.cols ==>
        Unstandardize(r.value.expr.rows[g][s], GeneStatsOf(refs, g).value) == tx.rows[g][s]
    ensures r.Err? ==>
      var sel := Select(psi, expr, coefsEvent, coefsGene, coefsIntercept);
      (r.error.MissingReference? || r.error.DegenerateReference?) &&
      r.error.ids != {} && r.error.ids <= sel.psi.rows.Keys + sel.expr.rows.Keys
    ensures r.Err? && r.error.MissingReference? ==>
      var sel := Select(psi, expr, coefsEvent, coefsGene, coefsIntercept);
      r.error.ids <= EventsWithoutStats(refs, sel.psi.rows.Keys) + GenesWithoutStats(refs, sel.expr.rows.Keys)
    ensures r.Err? && r.error.DegenerateReference? ==>
      var sel := Select(psi, expr, coefsEvent, coefsGene, coefsIntercept);
      r.error.ids <= EventsWithZeroStd(refs, sel.psi.rows.Keys) + GenesWithZeroStd(refs, sel.expr.rows.Keys)
  {
    var sel := Select(psi, expr, coefsEvent, coefsGene, coefsIntercept);
    var tx := ApplyTransform(ChooseTransform(normalizeCounts, logTransform), sel.expr, toTpm, log2p1);
    var events, genes := sel.psi.rows.Keys, sel.expr.rows.Keys;
    UsableIffNoBadKeys(refs, events, genes);
    if EventsWithoutStats(refs, events) != {} then Err(MissingReference(EventsWithoutStats(refs, events)))
    else if EventsWithZeroStd(refs, events) != {} then Err(DegenerateReference(EventsWithZeroStd(refs, events)))
    else if GenesWithoutStats(refs, genes) != {} then Err(MissingReference(GenesWithoutStats(refs, genes)))
    else if GenesWithZeroStd(refs, genes) != {} then Err(DegenerateReference(GenesWithZeroStd(refs, genes)))
    else Ok(StandardizeSelection(sel, tx, refs))
  }

  /**
   * With one set of statistics per event and per gene, each standardised
   * cell is the z-score against every reference row that carries its key,
   * not just the first one.
   */
  lemma PreprocessMatchesEveryReferenceRow(
    psi: Table<real>, expr: Table<real>,
    coefsEvent: seq<CoefRow>, coefsGene: seq<CoefRow>, coefsIntercept: seq<CoefRow>,
    refs: seq<StatsRow>, normalizeCounts: bool, logTransform: bool,
    toTpm: (Table<real>, GeneId, SampleId) -> real, log2p1: real -> real,
    i: nat, s: SampleId)
    requires Dense(psi) && Dense(expr) && StatsKeyed(refs) && i < |refs|
    ensures
      var r := Preprocess(psi, expr, coefsEvent, coefsGene, coefsIntercept, refs, normalizeCounts, logTransform, toTpm, log2p1);
      r.Ok? && refs[i].event in r.value.psi.rows && s in r.value.psi.cols ==>
        r.value.psi.rows[refs[i].event][s] == Standardize(psi.rows[refs[i].event][s], EventStatsIn(refs[i]))
    ensures
      var r := Preprocess(psi, expr, coefsEvent, coefsGene, coefsIntercept, refs, normalizeCounts, logTransform, toTpm, log2p1);
      var tx := ApplyTransform(ChooseTransform(normalizeCounts, logTransform),
        Select(psi, expr, coefsEvent, coefsGene, coefsIntercept).expr, toTpm, log2p1);
      r.Ok? && refs[i].ensembl in r.value.expr.rows && s in r.value.expr.cols ==>
        r.value.expr.rows[refs[i].ensembl][s] == Standardize(tx.rows[refs[i].ensembl][s], GeneStatsIn(refs[i]))
  {
    var r := Preprocess(psi, expr, coefsEvent, coefsGene, coefsIntercept, refs, normalizeCounts, logTransform, toTpm, log2p1);
    KeyedLookup(refs, i);
    if r.Ok? {
      var sel := Select(psi, expr, coefsEvent, coefsGene, coefsIntercept);
      var tx := ApplyTransform(ChooseTransform(normalizeCounts, logTransform), sel.expr, toTpm, log2p1);
      var e, g := refs[i].event, refs[i].ensembl;
      if e in r.value.psi.rows && s in r.value.psi.cols {
        var z := r.value.psi.rows[e][s];
        assert EventStatsIn(refs[i]).std != 0.0;
        StandardizeRoundTrip(z, EventStatsIn(refs[i]));
      }
      if g in r.value.expr.rows && s in r.value.expr.cols {
        var z := r.value.expr.rows[g][s];
        assert GeneStatsIn(refs[i]).std != 0.0;
        StandardizeRoundTrip(z, GeneStatsIn(refs[i]));
      }
    }
  }
}
