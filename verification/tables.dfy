/**
 * Labelled two-dimensional tables (a data frame whose row index is a set of
 * identifiers and whose columns are sample identifiers), label-based
 * selection, and the errors the prediction path can raise.
 */
module Tables {
  import opened Basics

  type EventId = string
  type GeneId = string
  type SampleId = string
  type RowId = string

  /** One row of a table: a value per sample column. */
  type Row<V> = map<SampleId, V>

  /**
   * A table: an ordered list of sample columns and one row per row label.
   * Rows are keyed by label because the order in which a selection by a set
   * of labels returns them is unspecified.
   */
  datatype Table<V> = Table(cols: seq<SampleId>, rows: map<RowId, Row<V>>)

  /** Every row has exactly one cell per column, and column labels are distinct. */
  predicate Dense<V>(t: Table<V>) {
    && NoDup(t.cols)
    && forall k :: k in t.rows ==> t.rows[k].Keys == Elems(t.cols)
  }

  /** What the prediction path can raise, with the labels it could not process. */
  datatype Fault =
    | MissingLabels(labels: set<string>)
    | MissingCoefficient(event: EventId, ensembl: GeneId)
    | MissingReference(ids: set<string>)
    | DegenerateReference(ids: set<string>)
    | ShapeMismatch(event: EventId, ensembl: GeneId)
    | EmptyEnsemble(event: EventId, ensembl: GeneId)

  /** Label selection `t.loc[keys, cols]` when every label is present. */
  function Restrict<V>(t: Table<V>, keys: set<RowId>, cols: seq<SampleId>): (r: Table<V>)
    requires Dense(t)
    requires keys <= t.rows.Keys
    requires NoDup(cols) && Elems(cols) <= Elems(t.cols)
    ensures Dense(r)
    ensures r.cols == cols && r.rows.Keys == keys
    ensures forall k, s :: k in keys && s in cols ==> r.rows[k][s] == t.rows[k][s]
  {
    Table(cols, map k | k in keys :: map s | s in Elems(cols) :: t.rows[k][s])
  }

  /** Selecting the same labels again changes nothing. */
  lemma RestrictIdempotent<V>(t: Table<V>, keys: set<RowId>, cols: seq<SampleId>)
    requires Dense(t)
    requires keys <= t.rows.Keys
    requires NoDup(cols) && Elems(cols) <= Elems(t.cols)
    ensures Restrict(Restrict(t, keys, cols), keys, cols) == Restrict(t, keys, cols)
  {
    DenseExtensional(Restrict(Restrict(t, keys, cols), keys, cols), Restrict(t, keys, cols));
  }

  /** Two dense tables with the same columns, row labels and cells are equal. */
  lemma DenseExtensional<V>(a: Table<V>, b: Table<V>)
    requires Dense(a) && Dense(b) && a.cols == b.cols && a.rows.Keys == b.rows.Keys
    requires forall k, s :: k in a.rows && s in a.cols ==> a.rows[k][s] == b.rows[k][s]
    ensures a == b
  {
    forall k | k in a.rows ensures a.rows[k] == b.rows[k] {
      assert a.rows[k].Keys == b.rows[k].Keys;
    }
  }

  /**
   * Label selection `t.loc[keys, cols]` in general: it raises a key error
   * naming the labels that are absent from the table.
   */
  function Loc<V>(t: Table<V>, keys: set<RowId>, cols: seq<SampleId>): (r: Result<Table<V>, Fault>)
    requires Dense(t) && NoDup(cols)
    ensures r.Ok? <==> keys <= t.rows.Keys && Elems(cols) <= Elems(t.cols)
    ensures r.Ok? ==> r.value.cols == cols && r.value.rows.Keys == keys && Dense(r.value)
    ensures r.Ok? ==> forall k, s :: k in keys && s in cols ==> r.value.rows[k][s] == t.rows[k][s]
    ensures r.Err? ==> r.error == MissingLabels((keys - t.rows.Keys) + (Elems(cols) - Elems(t.cols)))
  {
    if keys <= t.rows.Keys && Elems(cols) <= Elems(t.cols) then Ok(Restrict(t, keys, cols))
    else Err(MissingLabels((keys - t.rows.Keys) + (Elems(cols) - Elems(t.cols))))
  }

  /** The values of one row, in column order (`t.loc[k].values`). */
  function RowValues<V>(t: Table<V>, k: RowId): (vs: seq<V>)
    requires Dense(t) && k in t.rows
    ensures |vs| == |t.cols|
    ensures forall i :: 0 <= i < |t.cols| ==> vs[i] == t.rows[k][t.cols[i]]
  {
    seq(|t.cols|, i requires 0 <= i < |t.cols| => t.rows[k][t.cols[i]])
  }
}
