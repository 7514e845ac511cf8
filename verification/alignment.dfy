/**
 * The key selection at the start of `SplicingDependency._preprocess`: which
 * events, genes and samples survive, and which coefficient rows are kept, so
 * that every later per-pair lookup finds its rows.
 */
module Alignment {
  import opened Basics
  import opened Tables

  /**
   * One row of a coefficient table: the key columns EVENT, GENE (a gene
   * name) and ENSEMBL, then one coefficient per bootstrap draw.
   */
  datatype CoefRow = CoefRow(event: EventId, gene: string, ensembl: GeneId, draws: seq<real>)

  function CoefEvents(coefs: seq<CoefRow>): set<EventId> {
    set c | c in coefs :: c.event
  }

  function CoefGenes(coefs: seq<CoefRow>): set<GeneId> {
    set c | c in coefs :: c.ensembl
  }

  /** Events of the coefficient rows whose gene is one of `genes`. */
  function EventsWithGeneIn(coefs: seq<CoefRow>, genes: set<GeneId>): set<EventId> {
    set c | c in coefs && c.ensembl in genes :: c.event
  }

  /** Genes of the coefficient rows whose event is one of `events`. */
  function GenesWithEventIn(coefs: seq<CoefRow>, events: set<EventId>): set<GeneId> {
    set c | c in coefs && c.event in events :: c.ensembl
  }

  /**
   * The common events: coefficient events that have a PSI row and that occur
   * in at least one coefficient row whose gene has an expression row.
   */
  function CommonEvents(coefs: seq<CoefRow>, psiRows: set<EventId>, exprRows: set<GeneId>): (r: set<EventId>)
    ensures forall e :: e in r <==>
      e in psiRows && exists c :: c in coefs && c.event == e && c.ensembl in exprRows
  {
    CoefEvents(coefs) * psiRows * EventsWithGeneIn(coefs, exprRows)
  }

  /**
   * The common genes: coefficient genes that have an expression row and that
   * occur in at least one coefficient row whose event has a PSI row.
   */
  function CommonGenes(coefs: seq<CoefRow>, psiRows: set<EventId>, exprRows: set<GeneId>): (r: set<GeneId>)
    ensures forall g :: g in r <==>
      g in exprRows && exists c :: c in coefs && c.ensembl == g && c.event in psiRows
  {
    CoefGenes(coefs) * exprRows * GenesWithEventIn(coefs, psiRows)
  }

  /**
   * The common samples: the PSI columns that are also expression columns.
   * The source takes the intersection as an unordered set and selects both
   * tables with that same set, so both get the same column order; the model
   * fixes that order to the order of the PSI columns.
   */
  function CommonSamples(psiCols: seq<SampleId>, exprCols: seq<SampleId>): (r: seq<SampleId>)
    ensures Elems(r) == Elems(psiCols) * Elems(exprCols)
    ensures SubseqOf(r, psiCols)
    ensures NoDup(psiCols) ==> NoDup(r)
  {
    var inExpr := Elems(exprCols);
    var r := Filter(psiCols, s => s in inExpr);
    if NoDup(psiCols) then FilterNoDup(psiCols, s => s in inExpr); r else r
  }

  /** The row filter applied to each of the three coefficient tables. */
  function SelectCoefs(coefs: seq<CoefRow>, events: set<EventId>, genes: set<GeneId>): (r: seq<CoefRow>)
    ensures SubseqOf(r, coefs)
    ensures forall c :: c in r <==> c in coefs && c.event in events && c.ensembl in genes
  {
    Filter(coefs, (c: CoefRow) => c.event in events && c.ensembl in genes)
  }

  /** A selected coefficient row occurs as often as in the input; a dropped one does not occur. */
  lemma SelectCoefsCount(coefs: seq<CoefRow>, events: set<EventId>, genes: set<GeneId>)
    ensures forall c ::
      multiset(SelectCoefs(coefs, events, genes))[c] == if c.event in events && c.ensembl in genes then multiset(coefs)[c] else 0
  {
    FilterCount(coefs, (c: CoefRow) => c.event in events && c.ensembl in genes);
  }

  /** The tables after the selection step. */
  datatype Selection = Selection(
    psi: Table<real>,
    expr: Table<real>,
    coefsEvent: seq<CoefRow>,
    coefsGene: seq<CoefRow>,
    coefsIntercept: seq<CoefRow>)

  /** Every row of `coefs` finds its event among the PSI rows and its gene among the expression rows. */
  predicate LookupsSucceed(coefs: seq<CoefRow>, psi: Table<real>, expr: Table<real>) {
    forall c :: c in coefs ==> c.event in psi.rows && c.ensembl in expr.rows
  }

  /**
   * The selection step: keep the common events, genes and samples in the
   * PSI and expression tables and filter the three coefficient tables by the
   * same (EVENT, ENSEMBL) predicate. The event and gene sets are derived from
   * the event-coefficient table only.
   */
  function Select(
    psi: Table<real>, expr: Table<real>,
    coefsEvent: seq<CoefRow>, coefsGene: seq<CoefRow>, coefsIntercept: seq<CoefRow>
  ): (r: Selection)
    requires Dense(psi) && Dense(expr)
    ensures Dense(r.psi) && Dense(r.expr)
    ensures r.psi.rows.Keys == CommonEvents(coefsEvent, psi.rows.Keys, expr.rows.Keys)
    ensures r.expr.rows.Keys == CommonGenes(coefsEvent, psi.rows.Keys, expr.rows.Keys)
    ensures r.psi.cols == r.expr.cols
    ensures Elems(r.psi.cols) == Elems(psi.cols) * Elems(expr.cols)
    ensures forall e, s :: e in r.psi.rows && s in r.psi.cols ==> r.psi.rows[e][s] == psi.rows[e][s]
    ensures forall g, s :: g in r.expr.rows && s in r.expr.cols ==> r.expr.rows[g][s] == expr.rows[g][s]
    ensures SubseqOf(r.coefsEvent, coefsEvent)
    ensures SubseqOf(r.coefsGene, coefsGene)
    ensures SubseqOf(r.coefsIntercept, coefsIntercept)
    ensures forall c :: c in r.coefsEvent <==> c in coefsEvent && c.event in r.psi.rows && c.ensembl in r.expr.rows
    ensures forall c :: c in r.coefsGene <==> c in coefsGene && c.event in r.psi.rows && c.ensembl in r.expr.rows
    ensures forall c :: c in r.coefsIntercept <==> c in coefsIntercept && c.event in r.psi.rows && c.ensembl in r.expr.rows
    ensures LookupsSucceed(r.coefsEvent, r.psi, r.expr)
    ensures LookupsSucceed(r.coefsGene, r.psi, r.expr)
    ensures LookupsSucceed(r.coefsIntercept, r.psi, r.expr)
  {
    var events := CommonEvents(coefsEvent, psi.rows.Keys, expr.rows.Keys);
    var genes := CommonGenes(coefsEvent, psi.rows.Keys, expr.rows.Keys);
    var samples := CommonSamples(psi.cols, expr.cols);
    Selection(
      Restrict(psi, events, samples),
      Restrict(expr, genes, samples),
      SelectCoefs(coefsEvent, events, genes),
      SelectCoefs(coefsGene, events, genes),
      SelectCoefs(coefsIntercept, events, genes))
  }

  /**
   * A row of the event-coefficient table survives exactly when its event has
   * a PSI row and its gene an expression row in the INPUT tables: the row is
   * its own witness for both common sets.
   */
  lemma EventCoefKeptIff(
    psi: Table<real>, expr: Table<real>,
    coefsEvent: seq<CoefRow>, coefsGene: seq<CoefRow>, coefsIntercept: seq<CoefRow>)
    requires Dense(psi) && Dense(expr)
    ensures var r := Select(psi, expr, coefsEvent, coefsGene, coefsIntercept);
      forall c :: c in r.coefsEvent <==> c in coefsEvent && c.event in psi.rows && c.ensembl in expr.rows
  {
    var r := Select(psi, expr, coefsEvent, coefsGene, coefsIntercept);
    forall c | c in coefsEvent && c.event in psi.rows && c.ensembl in expr.rows
      ensures c in r.coefsEvent
    {
      assert c.event in CommonEvents(coefsEvent, psi.rows.Keys, expr.rows.Keys);
      assert c.ensembl in CommonGenes(coefsEvent, psi.rows.Keys, expr.rows.Keys);
    }
  }

  /**
   * Recomputing the common events and genes from the kept event-coefficient
   * rows and the common sets gives the same sets: every common event and gene
   * is witnessed by a row that is itself kept.
   */
  lemma CommonSetsStable(coefs: seq<CoefRow>, psiRows: set<EventId>, exprRows: set<GeneId>)
    ensures
      var events := CommonEvents(coefs, psiRows, exprRows);
      var genes := CommonGenes(coefs, psiRows, exprRows);
      var kept := SelectCoefs(coefs, events, genes);
      CommonEvents(kept, events, genes) == events && CommonGenes(kept, events, genes) == genes
  {
    var events := CommonEvents(coefs, psiRows, exprRows);
    var genes := CommonGenes(coefs, psiRows, exprRows);
    var kept := SelectCoefs(coefs, events, genes);
    forall e | e in events ensures e in CommonEvents(kept, events, genes) {
      var c :| c in coefs && c.event == e && c.ensembl in exprRows;
      assert c.ensembl in genes;
      assert c in kept;
    }
    forall g | g in genes ensures g in CommonGenes(kept, events, genes) {
      var c :| c in coefs && c.ensembl == g && c.event in psiRows;
      assert c.event in events;
      assert c in kept;
    }
  }

  /**
   * Selection is idempotent: selecting again from its own output gives the
   * same event, gene and sample sets, the same tables and the same
   * coefficient rows.
   */
  lemma SelectIdempotent(
    psi: Table<real>, expr: Table<real>,
    coefsEvent: seq<CoefRow>, coefsGene: seq<CoefRow>, coefsIntercept: seq<CoefRow>)
    requires Dense(psi) && Dense(expr)
    ensures var r := Select(psi, expr, coefsEvent, coefsGene, coefsIntercept);
      Select(r.psi, r.expr, r.coefsEvent, r.coefsGene, r.coefsIntercept) == r
  {
    var r := Select(psi, expr, coefsEvent, coefsGene, coefsIntercept);
    var events := CommonEvents(coefsEvent, psi.rows.Keys, expr.rows.Keys);
    var genes := CommonGenes(coefsEvent, psi.rows.Keys, expr.rows.Keys);
    var samples := CommonSamples(psi.cols, expr.cols);
    CommonSetsStable(coefsEvent, psi.rows.Keys, expr.rows.Keys);
    FilterKeepsAll(samples, s => s in Elems(samples));
    assert CommonSamples(samples, samples) == samples;
    RestrictIdempotent(psi, events, samples);
    RestrictIdempotent(expr, genes, samples);
    var keep := (c: CoefRow) => c.event in events && c.ensembl in genes;
    FilterTwice(coefsEvent, keep, keep);
    FilterTwice(coefsGene, keep, keep);
    FilterTwice(coefsIntercept, keep, keep);
    assert SelectCoefs(r.coefsEvent, events, genes) == r.coefsEvent;
    assert SelectCoefs(r.coefsGene, events, genes) == r.coefsGene;
    assert SelectCoefs(r.coefsIntercept, events, genes) == r.coefsIntercept;
  }
}
