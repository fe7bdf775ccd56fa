/**
 * The pandas DataFrame the bookkeeper works on: an ordered list of distinct
 * column headers and a sequence of rows, each row mapping every header to a cell.
 */
module Frame {
  import opened Seqs
  import opened Timestamps

  /** A cell as pandas holds it after reading a CSV or assigning a column. */
  datatype Cell =
    | Text(s: string)
    | Number(x: real)
    | Bool(b: bool)
    | Missing          // NaN / None
    | Stamp(t: Timestamp)
    | NaT              // a date pandas could not parse

  type Row = map<string, Cell>

  datatype Table = Table(columns: seq<string>, rows: seq<Row>)

  function ColumnSet(columns: seq<string>): set<string>
  {
    set c | c in columns
  }

  /** Distinct headers, and every row has exactly the table's headers as keys. */
  predicate WellFormed(t: Table)
  {
    && Distinct(t.columns)
    && forall i :: 0 <= i < |t.rows| ==> t.rows[i].Keys == ColumnSet(t.columns)
  }

  /**
   * pd.DataFrame(records) of the records a DataTable holds: the headers come from the
   * records, so an empty list of records gives a frame with no columns at all.
   */
  function FromRecords(t: Table): (r: Table)
    ensures r.rows == t.rows
    ensures r.columns == if t.rows == [] then [] else t.columns
    ensures WellFormed(t) ==> WellFormed(r)
  {
    if t.rows == [] then Table([], []) else t
  }

  /** pd.isna on a single cell. */
  predicate IsNa(c: Cell)
  {
    c.Missing? || c.NaT?
  }

  /** The headers after a column named `name` is assigned: an existing column keeps its place, a new one goes last. */
  function WithColumnName(columns: seq<string>, name: string): (r: seq<string>)
    ensures ColumnSet(r) == ColumnSet(columns) + {name}
    ensures name in columns ==> r == columns
    ensures name !in columns ==> r == columns + [name]
    ensures Distinct(columns) ==> Distinct(r)
  {
    if name in columns then columns else columns + [name]
  }

  /** df[name] = v: every row gets the cell v under `name`. */
  function AssignColumn(t: Table, name: string, v: Cell): (r: Table)
    requires WellFormed(t)
    ensures WellFormed(r) && |r.rows| == |t.rows|
    ensures r.columns == WithColumnName(t.columns, name)
    ensures forall i :: 0 <= i < |r.rows| ==> r.rows[i].Keys == t.rows[i].Keys + {name}
    ensures forall i :: 0 <= i < |r.rows| ==> r.rows[i][name] == v
    ensures forall i, c :: 0 <= i < |r.rows| && c in t.rows[i] && c != name ==> r.rows[i][c] == t.rows[i][c]
  {
    Table(WithColumnName(t.columns, name),
          seq(|t.rows|, i requires 0 <= i < |t.rows| => t.rows[i][name := v]))
  }

  /**
   * df.at[i, name] = v for an existing row label i: a column that does not exist yet
   * is first added with NaN in every row.
   */
  function SetCell(t: Table, i: int, name: string, v: Cell): (r: Table)
    requires WellFormed(t) && 0 <= i < |t.rows|
    ensures WellFormed(r) && |r.rows| == |t.rows|
    ensures r.columns == WithColumnName(t.columns, name)
    ensures r.rows[i][name] == v
    ensures forall k :: 0 <= k < |r.rows| && k != i ==>
              r.rows[k][name] == if name in t.columns then t.rows[k][name] else Missing
    ensures forall k, c :: 0 <= k < |r.rows| && c in t.rows[k] && c != name ==> r.rows[k][c] == t.rows[k][c]
  {
    var widened := if name in t.columns then t else AssignColumn(t, name, Missing);
    Table(widened.columns, widened.rows[i := widened.rows[i][name := v]])
  }
}
